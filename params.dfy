/** `BootParams` of boom/bootloader.py: the kernel version and root device
    configuration of one boot entry, the options to add and drop, and the
    `generation` counter that every property assignment bumps so that an
    entry holding the object can notice a change. Also `select_params`. */
module Params {
  import opened Wrappers
  import opened PyStr
  import opened Selections

  /** The attributes of a `BootParams` object. An attribute that was never
      assigned keeps its class default, `None`. */
  datatype Params = Params(
    version: Option<string>,
    rootDevice: Option<string>,
    lvmRootLv: Option<string>,
    btrfsSubvolPath: Option<string>,
    btrfsSubvolId: Option<string>,
    addOpts: seq<string>,
    delOpts: seq<string>)

  /** `DEV_PATTERN` without its `%s`. */
  const DevPrefix := "/dev/"

  const VersionRequired := "version argument is required."
  const OneBtrfsSelector := "Only one of btrfs_subvol_path and btrfs_subvol_id allowed."

  /** `BootParams(version, root_device, lvm_root_lv, btrfs_subvol_path,
      btrfs_subvol_id, add_opts, del_opts)`. The constructor tests its
      string arguments for truth only, so `None` and `""` are both the
      empty string here. */
  function NewParams(version: string, rootDevice: string, lvmRootLv: string, btrfsSubvolPath: string,
                     btrfsSubvolId: string, addOpts: seq<string>, delOpts: seq<string>): Result<Params, Error>
  {
    if version == "" then Err(ValueError(VersionRequired))
    else if btrfsSubvolPath != "" && btrfsSubvolId != "" then Err(ValueError(OneBtrfsSelector))
    else
      var root := if rootDevice != "" then Some(rootDevice)
                  else if lvmRootLv != "" then Some(DevPrefix + lvmRootLv)
                  else None;
      Ok(Params(Some(version), root, SetIfTruthy(lvmRootLv), SetIfTruthy(btrfsSubvolPath),
                SetIfTruthy(btrfsSubvolId), addOpts, delOpts))
  }

  /** How many property assignments `__init__` makes when it succeeds: the
      version, the root device (also when derived from the logical volume),
      each set optional value, and both option lists. */
  function InitAssignments(rootDevice: string, lvmRootLv: string, btrfsSubvolPath: string,
                           btrfsSubvolId: string): nat
  {
    3 + (if rootDevice != "" then 1 else 0)
      + (if lvmRootLv != "" then (if rootDevice != "" then 1 else 2) else 0)
      + (if btrfsSubvolPath != "" then 1 else 0)
      + (if btrfsSubvolId != "" then 1 else 0)
  }

  /** `has_btrfs()`. */
  predicate HasBtrfs(p: Params) {
    Truthy(p.btrfsSubvolId) || Truthy(p.btrfsSubvolPath)
  }

  /** `has_lvm2()`. */
  predicate HasLvm2(p: Params) {
    Truthy(p.lvmRootLv)
  }

  // ---------------------------------------------------------------------
  // The string forms

  /** The optional attributes in the order `__str` lists them. */
  function FieldPairs(p: Params): seq<(string, Option<string>)> {
    [("root_device", p.rootDevice), ("lvm_root_lv", p.lvmRootLv),
     ("btrfs_subvol_path", p.btrfsSubvolPath), ("btrfs_subvol_id", p.btrfsSubvolId)]
  }

  function Quoted(v: string, quote: bool): string {
    if quote then "\"" + v + "\"" else v
  }

  /** `name=value`, or `name="value"` when quoting. */
  function Item(name: string, v: string, quote: bool): string {
    name + "=" + Quoted(v, quote)
  }

  /** The items of the set attributes. */
  function SetItems(fields: seq<(string, Option<string>)>, quote: bool): seq<string> {
    if fields == [] then []
    else
      (if Truthy(fields[0].1) then [Item(fields[0].0, fields[0].1.value, quote)] else [])
      + SetItems(fields[1..], quote)
  }

  /** The text the loop of `__str` appends: each item followed by `", "`. */
  function Listed(fields: seq<(string, Option<string>)>, quote: bool): string {
    if fields == [] then []
    else
      (if Truthy(fields[0].1) then Item(fields[0].0, fields[0].1.value, quote) + ", " else "")
      + Listed(fields[1..], quote)
  }

  /** The version as `__str` writes it: quoted it is `"None"` when unset;
      unquoted, concatenating `None` raises `TypeError`. */
  function VersionText(p: Params, quote: bool): Result<string, Error> {
    if quote then Ok(Quoted(PyStrOf(p.version), true))
    else if p.version.Some? then Ok(p.version.value)
    else Err(TypeError("can only concatenate str (not \"NoneType\") to str"))
  }

  const CommaSpace: set<char> := {',', ' '}

  /** `__str(quote, prefix, suffix)`: `str()` is the unquoted form with no
      prefix or suffix, `repr()` the quoted one inside `BootParams(...)`. */
  function ParamsStr(p: Params, quote: bool, prefix: string, suffix: string): Result<string, Error> {
    var head :- VersionText(p, quote);
    Ok(RStripChars(prefix + head + ", " + Listed(FieldPairs(p), quote), CommaSpace) + suffix)
  }

  /** A value that `rstrip(", ")` stops at. */
  predicate EndsClean(s: string) {
    s != [] && s[|s| - 1] != ',' && s[|s| - 1] != ' '
  }

  /** Neither the version nor a set value ends in a comma or a space. */
  predicate CleanValues(p: Params) {
    && p.version.Some? && EndsClean(p.version.value)
    && CleanOption(p.rootDevice) && CleanOption(p.lvmRootLv)
    && CleanOption(p.btrfsSubvolPath) && CleanOption(p.btrfsSubvolId)
  }

  predicate CleanOption(o: Option<string>) {
    Truthy(o) ==> EndsClean(o.value)
  }

  // ---------------------------------------------------------------------
  // Lemmas about the string forms

  lemma JoinPair(a: string, b: string, rest: seq<string>, sep: string)
    ensures Join([a, b] + rest, sep) == Join([a + sep + b] + rest, sep)
  {
    assert ([a, b] + rest)[1..] == [b] + rest;
    if rest != [] {
      assert ([b] + rest)[1..] == rest;
      assert ([a + sep + b] + rest)[1..] == rest;
    }
  }

  /** The accumulated text is the `", "`-join of the version and the items,
      followed by one more separator. */
  lemma {:induction false} SpacedJoin(x: string, fields: seq<(string, Option<string>)>, quote: bool)
    ensures x + ", " + Listed(fields, quote) == Join([x] + SetItems(fields, quote), ", ") + ", "
    decreases |fields|
  {
    if fields != [] {
      var rest := SetItems(fields[1..], quote);
      if Truthy(fields[0].1) {
        var item := Item(fields[0].0, fields[0].1.value, quote);
        assert SetItems(fields, quote) == [item] + rest;
        SpacedJoin(x + ", " + item, fields[1..], quote);
        JoinPair(x, item, rest, ", ");
        assert [x] + ([item] + rest) == [x, item] + rest;
      } else {
        assert SetItems(fields, quote) == rest;
        SpacedJoin(x, fields[1..], quote);
      }
    } else {
      assert [x] + SetItems(fields, quote) == [x];
    }
  }

  lemma {:induction false} JoinEndsClean(ws: seq<string>, sep: string)
    requires |ws| >= 1 && forall i :: 0 <= i < |ws| ==> EndsClean(ws[i])
    ensures EndsClean(Join(ws, sep))
    decreases |ws|
  {
    if |ws| > 1 {
      JoinEndsClean(ws[1..], sep);
      var j := Join(ws[1..], sep);
      assert Join(ws, sep) == (ws[0] + sep) + j;
    }
  }

  /** `rstrip` stops at the first character outside the set. */
  lemma {:induction false} RStripStops(s: string, t: string, cs: set<char>)
    requires s != [] && s[|s| - 1] !in cs
    requires forall i :: 0 <= i < |t| ==> t[i] in cs
    ensures RStripChars(s + t, cs) == s
    decreases |t|
  {
    if t != [] {
      assert (s + t)[..|s + t| - 1] == s + t[..|t| - 1];
      RStripStops(s, t[..|t| - 1], cs);
    } else {
      assert s + t == s;
    }
  }

  lemma {:induction false} SetItemsEndClean(fields: seq<(string, Option<string>)>, quote: bool)
    requires quote || forall i :: 0 <= i < |fields| ==> CleanOption(fields[i].1)
    ensures forall i :: 0 <= i < |SetItems(fields, quote)| ==> EndsClean(SetItems(fields, quote)[i])
    decreases |fields|
  {
    if fields != [] {
      SetItemsEndClean(fields[1..], quote);
      if Truthy(fields[0].1) {
        var v := fields[0].1.value;
        var item := Item(fields[0].0, v, quote);
        assert item[|item| - 1] == Quoted(v, quote)[|Quoted(v, quote)| - 1];
      }
    }
  }

  /** `str()` and `repr()` list the version, then `name=value` for each set
      attribute in the order root_device, lvm_root_lv, btrfs_subvol_path,
      btrfs_subvol_id, separated by `", "`. The quoted form always comes out
      so; the unquoted one when `rstrip(", ")` cannot eat into a value,
      i.e. when no value ends in a comma or a space. */
  lemma ParamsStrJoin(p: Params, quote: bool, prefix: string, suffix: string)
    requires quote || CleanValues(p)
    ensures ParamsStr(p, quote, prefix, suffix)
         == Ok(prefix + Join([VersionText(p, quote).value] + SetItems(FieldPairs(p), quote), ", ") + suffix)
  {
    var head := VersionText(p, quote).value;
    var items := SetItems(FieldPairs(p), quote);
    SpacedJoin(head, FieldPairs(p), quote);
    var ws := [head] + items;
    WordsEndClean(p, quote);
    JoinEndsClean(ws, ", ");
    var j := Join(ws, ", ");
    var listed := Listed(FieldPairs(p), quote);
    assert head + ", " + listed == j + ", ";
    calc {
      prefix + head + ", " + listed;
      prefix + (head + ", " + listed);
      prefix + (j + ", ");
      (prefix + j) + ", ";
    }
    assert EndsClean(prefix + j) by {
      assert (prefix + j)[|prefix + j| - 1] == j[|j| - 1];
    }
    RStripStops(prefix + j, ", ", CommaSpace);
    assert ParamsStr(p, quote, prefix, suffix) == Ok(RStripChars(prefix + head + ", " + listed, CommaSpace) + suffix);
  }

  /** Under the same condition, no word of the listing ends in a comma or a
      space. */
  lemma WordsEndClean(p: Params, quote: bool)
    requires quote || CleanValues(p)
    ensures VersionText(p, quote).Ok?
    ensures var ws := [VersionText(p, quote).value] + SetItems(FieldPairs(p), quote);
      forall i :: 0 <= i < |ws| ==> EndsClean(ws[i])
  {
    var head := VersionText(p, quote).value;
    var items := SetItems(FieldPairs(p), quote);
    assert quote || forall i :: 0 <= i < |FieldPairs(p)| ==> CleanOption(FieldPairs(p)[i].1);
    SetItemsEndClean(FieldPairs(p), quote);
    var ws := [head] + items;
    if quote {
      var q := Quoted(PyStrOf(p.version), true);
      assert q[|q| - 1] == '"';
    }
    assert EndsClean(head);
    forall i | 1 <= i < |ws| ensures EndsClean(ws[i]) {
      assert ws[i] == items[i - 1];
    }
  }

  lemma Join3(x: string, a: string, b: string, sep: string)
    ensures Join([x, a, b], sep) == x + sep + (a + sep + b)
  {
    assert [x, a, b][1..] == [a, b];
    assert [a, b][1..] == [b];
    assert Join([b], sep) == b;
  }

  lemma LvmItems(p: Params, dev: string, lv: string)
    requires p.rootDevice == Some(dev) && p.lvmRootLv == Some(lv) && dev != "" && lv != ""
    requires p.btrfsSubvolPath == None && p.btrfsSubvolId == None
    ensures SetItems(FieldPairs(p), false) == [Item("root_device", dev, false), Item("lvm_root_lv", lv, false)]
  {
    var f := FieldPairs(p);
    assert f[1..] == [f[1], f[2], f[3]];
    assert f[1..][1..] == [f[2], f[3]];
    assert f[1..][1..][1..] == [f[3]];
    assert SetItems([f[3]], false) == [];
    assert SetItems([f[2], f[3]], false) == [];
  }

  /** A logical volume without a root device: the string shows the derived
      device path and the volume. */
  lemma NewParamsLvmStr(version: string, lv: string)
    requires EndsClean(version) && EndsClean(lv)
    ensures NewParams(version, "", lv, "", "", [], []).Ok?
    ensures ParamsStr(NewParams(version, "", lv, "", "", [], []).value, false, "", "")
         == Ok(version + ", root_device=" + DevPrefix + lv + ", lvm_root_lv=" + lv)
  {
    var p := NewParams(version, "", lv, "", "", [], []).value;
    var dev := DevPrefix + lv;
    assert EndsClean(dev) by {
      assert dev[|dev| - 1] == lv[|lv| - 1];
    }
    assert p.version == Some(version) && p.rootDevice == Some(dev) && p.lvmRootLv == Some(lv);
    assert p.btrfsSubvolPath == None && p.btrfsSubvolId == None;
    ParamsStrJoin(p, false, "", "");
    LvmItems(p, dev, lv);
    LvmJoin(version, lv);
    var r := Join([version] + SetItems(FieldPairs(p), false), ", ");
    assert "" + r + "" == r;
  }

  lemma LvmJoin(version: string, lv: string)
    ensures Join([version] + [Item("root_device", DevPrefix + lv, false), Item("lvm_root_lv", lv, false)], ", ")
         == version + ", root_device=" + DevPrefix + lv + ", lvm_root_lv=" + lv
  {
    var a, b := Item("root_device", DevPrefix + lv, false), Item("lvm_root_lv", lv, false);
    Join3(version, a, b, ", ");
    assert [version] + [a, b] == [version, a, b];
    var r := Join([version] + [a, b], ", ");
    assert "root_device" + "=" == "root_device=" && "lvm_root_lv" + "=" == "lvm_root_lv=";
    assert a == "root_device=" + (DevPrefix + lv);
    assert b == "lvm_root_lv=" + lv;
    assert r == version + ", " + (("root_device=" + (DevPrefix + lv)) + ", " + ("lvm_root_lv=" + lv));
    Regroup(version, ", ", "root_device=", DevPrefix, lv, "lvm_root_lv=");
    assert ", " + "root_device=" == ", root_device=" && ", " + "lvm_root_lv=" == ", lvm_root_lv=";
  }

  lemma Regroup(v: string, c: string, r: string, d: string, lv: string, l: string)
    ensures v + c + ((r + (d + lv)) + c + (l + lv)) == v + (c + r) + d + lv + (c + l) + lv
  {
  }

  // ---------------------------------------------------------------------
  // Construction

  /** Construction fails exactly without a version or with both Btrfs
      selectors; otherwise the set arguments are kept, and a logical
      volume without a root device gives the root device
      `/dev/<lv>`. */
  lemma NewParamsOutcome(version: string, rootDevice: string, lvmRootLv: string, btrfsSubvolPath: string,
                         btrfsSubvolId: string, addOpts: seq<string>, delOpts: seq<string>)
    ensures var r := NewParams(version, rootDevice, lvmRootLv, btrfsSubvolPath, btrfsSubvolId, addOpts, delOpts);
      && (r.Ok? <==> version != "" && (btrfsSubvolPath == "" || btrfsSubvolId == ""))
      && (r.Ok? ==>
            && r.value.version == Some(version)
            && (rootDevice != "" ==> r.value.rootDevice == Some(rootDevice))
            && (rootDevice == "" && lvmRootLv != "" ==> r.value.rootDevice == Some(DevPrefix + lvmRootLv))
            && (rootDevice == "" && lvmRootLv == "" ==> r.value.rootDevice.None?)
            && (HasLvm2(r.value) <==> lvmRootLv != "")
            && (HasBtrfs(r.value) <==> btrfsSubvolPath != "" || btrfsSubvolId != "")
            && r.value.addOpts == addOpts && r.value.delOpts == delOpts)
  {
  }

  // ---------------------------------------------------------------------
  // Selection

  /** `select_params`: each set criterion must equal the attribute. */
  predicate SelectParams(s: Selection, p: Params) {
    && (s.rootDevice == "" || p.rootDevice == Some(s.rootDevice))
    && (s.lvmRootLv == "" || p.lvmRootLv == Some(s.lvmRootLv))
    && (s.btrfsSubvolPath == "" || p.btrfsSubvolPath == Some(s.btrfsSubvolPath))
    && (s.btrfsSubvolId == "" || p.btrfsSubvolId == Some(s.btrfsSubvolId))
  }

  /** Dropping criteria never rejects parameters that passed. */
  lemma SelectParamsMonotone(weak: Selection, strong: Selection, p: Params)
    requires Relaxes(weak, strong) && SelectParams(strong, p)
    ensures SelectParams(weak, p)
  {
  }

  // ---------------------------------------------------------------------
  // The object

  class BootParams {
    var version: Option<string>
    var rootDevice: Option<string>
    var lvmRootLv: Option<string>
    var btrfsSubvolPath: Option<string>
    var btrfsSubvolId: Option<string>
    var addOpts: seq<string>
    var delOpts: seq<string>
    /** `generation`. */
    var generation: int

    function Value(): Params
      reads this
    {
      Params(version, rootDevice, lvmRootLv, btrfsSubvolPath, btrfsSubvolId, addOpts, delOpts)
    }

    /** A new object holding the class defaults. */
    constructor Defaults()
      ensures Value() == Params(None, None, None, None, None, [], []) && generation == 0
    {
      version, rootDevice, lvmRootLv, btrfsSubvolPath, btrfsSubvolId := None, None, None, None, None;
      addOpts, delOpts := [], [];
      generation := 0;
    }

    method SetVersion(v: Option<string>)
      modifies this
      ensures Value() == old(Value()).(version := v) && generation == old(generation) + 1
    {
      generation := generation + 1;
      version := v;
    }

    method SetRootDevice(v: Option<string>)
      modifies this
      ensures Value() == old(Value()).(rootDevice := v) && generation == old(generation) + 1
    {
      generation := generation + 1;
      rootDevice := v;
    }

    method SetLvmRootLv(v: Option<string>)
      modifies this
      ensures Value() == old(Value()).(lvmRootLv := v) && generation == old(generation) + 1
    {
      generation := generation + 1;
      lvmRootLv := v;
    }

    method SetBtrfsSubvolPath(v: Option<string>)
      modifies this
      ensures Value() == old(Value()).(btrfsSubvolPath := v) && generation == old(generation) + 1
    {
      generation := generation + 1;
      btrfsSubvolPath := v;
    }

    method SetBtrfsSubvolId(v: Option<string>)
      modifies this
      ensures Value() == old(Value()).(btrfsSubvolId := v) && generation == old(generation) + 1
    {
      generation := generation + 1;
      btrfsSubvolId := v;
    }

    method SetAddOpts(v: seq<string>)
      modifies this
      ensures Value() == old(Value()).(addOpts := v) && generation == old(generation) + 1
    {
      generation := generation + 1;
      addOpts := v;
    }

    method SetDelOpts(v: seq<string>)
      modifies this
      ensures Value() == old(Value()).(delOpts := v) && generation == old(generation) + 1
    {
      generation := generation + 1;
      delOpts := v;
    }

    /** `__str(quote, prefix, suffix)`. */
    method Str(quote: bool, prefix: string, suffix: string) returns (r: Result<string, Error>)
      ensures r == ParamsStr(Value(), quote, prefix, suffix)
    {
      var head :- VersionText(Value(), quote);
      var listed := ListFields(FieldPairs(Value()), quote);
      var text := prefix + head + ", " + listed;
      return Ok(RStripChars(text, CommaSpace) + suffix);
    }
  }

  /** The loop of `__str` over the optional attributes. */
  method ListFields(fields: seq<(string, Option<string>)>, quote: bool) returns (text: string)
    ensures text == Listed(fields, quote)
  {
    text := "";
    for i := 0 to |fields|
      invariant text + Listed(fields[i..], quote) == Listed(fields, quote)
    {
      assert fields[i..][1..] == fields[i + 1..];
      if Truthy(fields[i].1) {
        text := text + Item(fields[i].0, fields[i].1.value, quote) + ", ";
      }
    }
    assert fields[|fields|..] == [];
  }

  /** `BootParams(...)`: the assignments of `__init__` in its order, each
      through its property setter. */
  method NewBootParams(version: string, rootDevice: string, lvmRootLv: string, btrfsSubvolPath: string,
                       btrfsSubvolId: string, addOpts: seq<string>, delOpts: seq<string>)
    returns (r: Result<BootParams, Error>)
    ensures var spec := NewParams(version, rootDevice, lvmRootLv, btrfsSubvolPath, btrfsSubvolId, addOpts, delOpts);
      && (r.Ok? <==> spec.Ok?)
      && (r.Err? ==> r.error == spec.error)
      && (r.Ok? ==> && fresh(r.value) && r.value.Value() == spec.value
                    && r.value.generation == InitAssignments(rootDevice, lvmRootLv, btrfsSubvolPath, btrfsSubvolId))
  {
    if version == "" {
      return Err(ValueError(VersionRequired));
    }
    var bp := new BootParams.Defaults();
    bp.SetVersion(Some(version));
    if rootDevice != "" {
      bp.SetRootDevice(Some(rootDevice));
    }
    if lvmRootLv != "" {
      if rootDevice == "" {
        bp.SetRootDevice(Some(DevPrefix + lvmRootLv));
      }
      bp.SetLvmRootLv(Some(lvmRootLv));
    }
    if btrfsSubvolPath != "" && btrfsSubvolId != "" {
      return Err(ValueError(OneBtrfsSelector));
    }
    if btrfsSubvolPath != "" {
      bp.SetBtrfsSubvolPath(Some(btrfsSubvolPath));
    }
    if btrfsSubvolId != "" {
      bp.SetBtrfsSubvolId(Some(btrfsSubvolId));
    }
    bp.SetAddOpts(addOpts);
    bp.SetDelOpts(delOpts);
    r := Ok(bp);
  }
}
