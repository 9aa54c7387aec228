/** The derived fields of a `BootEntry` (boom/bootloader.py): the getters,
    the table-driven placeholder engine `_apply_format` they share, the
    `root_opts` composer, the options reconciler, the serialised text,
    `boot_id` and the entry file name. Everything here reads one snapshot
    of an entry: its literal fields, its profile and its boot parameters. */
module Templating {
  import opened Wrappers
  import opened PyStr
  import opened Externals
  import opened Profiles
  import opened EntryKeys
  import opened Params
  import opened Options

  /** What the getters of one entry read: `_entry_data`, `_osp` and `bp`. */
  datatype Entry = Entry(data: map<EntryKey, string>, osp: Option<Profile>, bp: Option<Params>)

  /** `not self._osp` is false for a profile object only when its
      `__len__`, the number of keys it holds, is non-zero. */
  predicate HasProfile(osp: Option<Profile>) {
    osp.Some? && (osp.value.data != map[] || osp.value.extra != map[])
  }

  /** `_entry_data_property(key)`. */
  function Field(e: Entry, k: EntryKey): Option<string> {
    if k in e.data then Some(e.data[k]) else None
  }

  // ---------------------------------------------------------------------
  // The key specification table of `_apply_format`

  datatype BpAttr = BpVersion | BpLvmRootLv | BpBtrfsSubvolId | BpBtrfsSubvolPath | BpRootDevice
  datatype OspAttr = OspRootOptsLvm2 | OspRootOptsBtrfs | OspVersionId
  datatype BeAttr = BeVersion | BeRootOpts | BeLinux | BeInitrd

  /** One `key_spec`: its attribute sources and the text that `val_fmt`
      puts before the value. The `NEEDS` and `PRED_FN` entries are left
      out: the loop over `NEEDS` only `continue`s its own loop, and no
      predicate is ever called. */
  datatype KeySpec = KeySpec(bp: Option<BpAttr>, osp: Option<OspAttr>, be: Option<BeAttr>, valPrefix: string)

  function BpSpec(a: BpAttr): KeySpec { KeySpec(Some(a), None, None, "") }
  function OspSpec(a: OspAttr): KeySpec { KeySpec(None, Some(a), None, "") }
  function BeSpec(a: BeAttr): KeySpec { KeySpec(None, None, Some(a), "") }

  /** `format_key_specs` in the order its keys are iterated. The literal
      repeats the key `FMT_OS_NAME` four times; a dictionary display keeps
      the first position and the last value, so `%{os_name}` stands for
      the profile's `os_version_id`. */
  const FormatKeySpecs: seq<(FormatKey, seq<KeySpec>)> := [
    (FmtVersion, [KeySpec(Some(BpVersion), None, Some(BeVersion), "")]),
    (FmtLvmRootLv, [BpSpec(BpLvmRootLv)]),
    (FmtLvmRootOpts, [OspSpec(OspRootOptsLvm2)]),
    (FmtBtrfsRootOpts, [OspSpec(OspRootOptsBtrfs)]),
    (FmtBtrfsSubvolume, [KeySpec(Some(BpBtrfsSubvolId), None, None, "subvolid="),
                         KeySpec(Some(BpBtrfsSubvolPath), None, None, "subvol=")]),
    (FmtRootDevice, [BpSpec(BpRootDevice)]),
    (FmtRootOpts, [BeSpec(BeRootOpts)]),
    (FmtKernel, [BeSpec(BeLinux)]),
    (FmtInitramfs, [BeSpec(BeInitrd)]),
    (FmtOsName, [OspSpec(OspVersionId)])
  ]

  function BpValue(p: Params, a: BpAttr): Option<string> {
    match a
    case BpVersion => p.version
    case BpLvmRootLv => p.lvmRootLv
    case BpBtrfsSubvolId => p.btrfsSubvolId
    case BpBtrfsSubvolPath => p.btrfsSubvolPath
    case BpRootDevice => p.rootDevice
  }

  /** The root option getters of a profile answer `None` for a missing key;
      `os_version_id` indexes the data and raises `KeyError`. */
  function OspValue(o: Profile, a: OspAttr): Result<Option<string>, Error> {
    match a
    case OspRootOptsLvm2 => Ok(Get(o, RootOptsLvm2Key))
    case OspRootOptsBtrfs => Ok(Get(o, RootOptsBtrfsKey))
    case OspVersionId => var v :- Attr(o, OsVersionIdKey); Ok(Some(v))
  }

  // ---------------------------------------------------------------------
  // The getters that `_apply_format` can re-enter

  /** The three getters that call `_apply_format` and can be reached from
      it. */
  datatype Getter = RootOptsGetter | LinuxGetter | InitrdGetter

  /** How many of the three getters are not yet being evaluated. */
  function Unvisited(vis: set<Getter>): nat {
    (if RootOptsGetter in vis then 0 else 1)
    + (if LinuxGetter in vis then 0 else 1)
    + (if InitrdGetter in vis then 0 else 1)
  }

  /** `_apply_format(fmt)` evaluated while the getters in `vis` are already
      on the call stack. The getters depend only on the entry, which does
      not change during the evaluation, so a getter that is entered again
      would repeat itself without end: Python stops that with
      `RecursionError`, and so does the model. A missing or empty pattern
      is given as `""`. */
  function ApplyFormat(e: Entry, env: Env, vis: set<Getter>, fmt: string): Result<string, Error>
    decreases Unvisited(vis), 6, 0
  {
    if fmt == "" then Ok("") else FormatFrom(e, env, vis, fmt, FormatKeySpecs)
  }

  /** `_apply_format`, loop by loop: the text is rewritten key by key and
      spec by spec; an error of a getter ends the evaluation. */
  method ApplyFormatLoop(e: Entry, env: Env, vis: set<Getter>, fmt: string) returns (r: Result<string, Error>)
    ensures r == ApplyFormat(e, env, vis, fmt)
  {
    if fmt == "" {
      return Ok("");
    }
    var table := FormatKeySpecs;
    var f := fmt;
    for i := 0 to |table|
      invariant FormatFrom(e, env, vis, f, table[i..]) == ApplyFormat(e, env, vis, fmt)
    {
      assert table[i..][1..] == table[i + 1..];
      var key := Placeholder(env, table[i].0);
      if !Contains(f, key) {
        continue;
      }
      var specs := table[i].1;
      ghost var f0 := f;
      for j := 0 to |specs|
        invariant ReplaceSpecs(e, env, vis, f, key, specs[j..]) == ReplaceSpecs(e, env, vis, f0, key, specs)
      {
        assert specs[j..][1..] == specs[j + 1..];
        var value := KeyAttr(e, env, vis, specs[j]);
        if value.Err? {
          return Err(value.error);
        }
        if value.value.Some? {
          f := Replace(f, key, value.value.value);
        }
      }
      assert specs[|specs|..] == [];
    }
    assert table[|table|..] == [];
    return Ok(f);
  }

  /** The loop over the table: a key whose placeholder the current text
      does not hold is skipped. */
  function FormatFrom(e: Entry, env: Env, vis: set<Getter>, fmt: string,
                      table: seq<(FormatKey, seq<KeySpec>)>): Result<string, Error>
    decreases Unvisited(vis), 5, |table|
  {
    if table == [] then Ok(fmt)
    else
      var key := Placeholder(env, table[0].0);
      if !Contains(fmt, key) then FormatFrom(e, env, vis, fmt, table[1..])
      else
        var f :- ReplaceSpecs(e, env, vis, fmt, key, table[0].1);
        FormatFrom(e, env, vis, f, table[1..])
  }

  /** The inner loop over one key's specs: each value that is not `None`
      replaces every occurrence of the placeholder. */
  function ReplaceSpecs(e: Entry, env: Env, vis: set<Getter>, fmt: string, key: string,
                        specs: seq<KeySpec>): Result<string, Error>
    requires key != []
    decreases Unvisited(vis), 4, |specs|
  {
    if specs == [] then Ok(fmt)
    else
      var v :- KeyAttr(e, env, vis, specs[0]);
      ReplaceSpecs(e, env, vis, if v.Some? then Replace(fmt, key, v.value) else fmt, key, specs[1..])
  }

  /** `get_key_attr(key_spec)`: no value unless a source exists; the boot
      parameters are asked before the profile and the entry. */
  function KeyAttr(e: Entry, env: Env, vis: set<Getter>, spec: KeySpec): Result<Option<string>, Error>
    decreases Unvisited(vis), 3, 0
  {
    var have := (spec.bp.Some? && e.bp.Some?) || (spec.osp.Some? && e.osp.Some?) || spec.be.Some?;
    if !have then Ok(None)
    else
      var value :- SourceValue(e, env, vis, spec);
      Ok(if value.Some? then Some(spec.valPrefix + value.value) else None)
  }

  function SourceValue(e: Entry, env: Env, vis: set<Getter>, spec: KeySpec): Result<Option<string>, Error>
    requires (spec.bp.Some? && e.bp.Some?) || (spec.osp.Some? && e.osp.Some?) || spec.be.Some?
    decreases Unvisited(vis), 2, 1
  {
    if spec.bp.Some? && e.bp.Some? then Ok(BpValue(e.bp.value, spec.bp.value))
    else if spec.osp.Some? then
      if e.osp.Some? then OspValue(e.osp.value, spec.osp.value)
      else Err(AttributeError("'NoneType' object has no attribute"))
    else EntryAttr(e, env, vis, spec.be.value)
  }

  /** The entry attribute named by a `BE_ATTR` source. */
  function EntryAttr(e: Entry, env: Env, vis: set<Getter>, a: BeAttr): Result<Option<string>, Error>
    decreases Unvisited(vis), 2, 0
  {
    match a
    case BeVersion => Ok(VersionOf(e))
    case BeRootOpts => var s :- RootOpts(e, env, vis); Ok(Some(s))
    case BeLinux => LinuxOf(e, env, vis)
    case BeInitrd => InitrdOf(e, env, vis)
  }

  /** The `version` getter: the boot parameters' version unless the entry
      stores its own. */
  function VersionOf(e: Entry): Option<string> {
    if e.bp.Some? && Version !in e.data then e.bp.value.version else Field(e, Version)
  }

  /** The `root_opts` getter: the profile's LVM2 root options when a
      logical volume is set, its Btrfs root options when a subvolume is,
      each expanded, with one space between them when both are non-empty. */
  function RootOpts(e: Entry, env: Env, vis: set<Getter>): Result<string, Error>
    decreases Unvisited(vis), 1, 0
  {
    if !HasProfile(e.osp) || e.bp.None? then Ok("")
    else if RootOptsGetter in vis then Err(RecursionError)
    else
      var lvm :- LvmPart(e, env, vis + {RootOptsGetter});
      var btrfs :- BtrfsPart(e, env, vis + {RootOptsGetter});
      Ok(lvm + (if lvm != "" && btrfs != "" then " " else "") + btrfs)
  }

  function LvmPart(e: Entry, env: Env, vis: set<Getter>): Result<string, Error>
    requires e.osp.Some? && e.bp.Some?
    decreases Unvisited(vis), 6, 1
  {
    if Truthy(e.bp.value.lvmRootLv) then ApplyFormat(e, env, vis, Get(e.osp.value, RootOptsLvm2Key).GetOr(""))
    else Ok("")
  }

  function BtrfsPart(e: Entry, env: Env, vis: set<Getter>): Result<string, Error>
    requires e.osp.Some? && e.bp.Some?
    decreases Unvisited(vis), 6, 1
  {
    if HasBtrfs(e.bp.value) then ApplyFormat(e, env, vis, Get(e.osp.value, RootOptsBtrfsKey).GetOr(""))
    else Ok("")
  }

  /** The `linux` getter: the stored image, or the profile's kernel
      pattern expanded. */
  function LinuxOf(e: Entry, env: Env, vis: set<Getter>): Result<Option<string>, Error>
    decreases Unvisited(vis), 1, 0
  {
    if !HasProfile(e.osp) || Linux in e.data then Ok(Field(e, Linux))
    else if LinuxGetter in vis then Err(RecursionError)
    else
      var pattern :- Attr(e.osp.value, KernelPatternKey);
      var s :- ApplyFormat(e, env, vis + {LinuxGetter}, pattern);
      Ok(Some(s))
  }

  /** The `initrd` getter: the stored image, or the profile's initramfs
      pattern expanded. */
  function InitrdOf(e: Entry, env: Env, vis: set<Getter>): Result<Option<string>, Error>
    decreases Unvisited(vis), 1, 0
  {
    if !HasProfile(e.osp) || Initrd in e.data then Ok(Field(e, Initrd))
    else if InitrdGetter in vis then Err(RecursionError)
    else
      var pattern :- Attr(e.osp.value, InitramfsPatternKey);
      var s :- ApplyFormat(e, env, vis + {InitrdGetter}, pattern);
      Ok(Some(s))
  }

  // ---------------------------------------------------------------------
  // The other getters

  /** The `title` getter. A profile has no `title` attribute, so an entry
      with a profile and boot parameters but no stored title raises
      `AttributeError`. */
  function TitleOf(e: Entry): Result<Option<string>, Error> {
    if Title in e.data then Ok(Some(e.data[Title]))
    else if !HasProfile(e.osp) || e.bp.None? then Ok(Some(""))
    else Err(AttributeError("'OsProfile' object has no attribute 'title'"))
  }

  /** The `options` getter: the stored or templated command line, with the
      boot parameters' `add_opts` appended and their `del_opts` dropped. */
  function OptionsOf(e: Entry, env: Env): Result<string, Error> {
    if Options in e.data then
      if e.bp.Some? then Ok(DelOpts(AddOpts(e.data[Options], e.bp.value.addOpts), e.bp.value.delOpts))
      else Ok(e.data[Options])
    else if HasProfile(e.osp) && e.bp.Some? then
      var opts :- ApplyFormat(e, env, {}, Get(e.osp.value, OptionsKey).GetOr(""));
      Ok(DelOpts(AddOpts(opts, e.bp.value.addOpts), e.bp.value.delOpts))
    else Ok("")
  }

  /** `getattr(entry, KEY_MAP[k])`. */
  function GetField(e: Entry, env: Env, k: EntryKey): Result<Option<string>, Error> {
    match k
    case Title => TitleOf(e)
    case MachineId => Ok(Field(e, MachineId))
    case Version => Ok(VersionOf(e))
    case Linux => LinuxOf(e, env, {})
    case Efi => Ok(Field(e, Efi))
    case Initrd => InitrdOf(e, env, {})
    case Options => var o :- OptionsOf(e, env); Ok(Some(o))
    case Devicetree => Ok(Field(e, Devicetree))
  }

  // ---------------------------------------------------------------------
  // Serialisation and identity

  /** The formatting arguments of `__str`. */
  datatype StrStyle = StrStyle(quote: bool, prefix: string, suffix: string, tail: string, sep: string, bls: bool)

  /** `str(entry)`: BLS key names, one `key value` line per field. */
  const BlsStyle := StrStyle(false, "", "", "\n", " ", true)

  /** `repr(entry)`. */
  const ReprStyle := StrStyle(true, "BootEntry(entry_data={", "})", ", ", ": ", false)

  function Record(st: StrStyle, name: string, value: string): string {
    name + st.sep + (if st.quote then "\"" + value + "\"" else value) + st.tail
  }

  function RecordName(st: StrStyle, k: EntryKey): string {
    if st.bls then BlsKey(k) else EntryKeys.KeyName(k)
  }

  /** The records of the set fields among `keys`, in order. */
  function Records(e: Entry, env: Env, st: StrStyle, keys: seq<EntryKey>): Result<string, Error> {
    if keys == [] then Ok("")
    else
      var v :- GetField(e, env, keys[0]);
      var rest :- Records(e, env, st, keys[1..]);
      Ok((if Truthy(v) then Record(st, RecordName(st, keys[0]), v.value) else "") + rest)
  }

  function CharSet(s: string): set<char> {
    set i | 0 <= i < |s| :: s[i]
  }

  /** `__str(...)`. The boot id record is written only in the non-BLS form
      and not while computing the boot id; `bootId` is the value of the
      `boot_id` property at that moment. */
  function EntryStr(e: Entry, env: Env, st: StrStyle, noBootId: bool, bootId: string): Result<string, Error> {
    var body :- Records(e, env, st, EntryKeyOrder);
    var idRecord := if !st.bls && !noBootId then Record(st, "BOOM_ENTRY_BOOT_ID", bootId) else "";
    Ok(RStripChars(st.prefix + body + idRecord, CharSet(st.tail)) + st.suffix)
  }

  /** `__generate_boot_id`: the digest of the BLS text. */
  function BootIdOf(e: Entry, env: Env): Result<string, Error> {
    var text :- EntryStr(e, env, BlsStyle, true, "");
    Ok(env.digest(text))
  }

  /** `boot_id[0:7]`. */
  function ShortId(id: string): string {
    if |id| <= 7 then id else id[..7]
  }

  /** `BOOT_ENTRIES_FORMAT % (machine_id, boot_id[0:7], version)`. */
  function FileName(machineId: Option<string>, bootId: string, version: Option<string>): string {
    PyStrOf(machineId) + "-" + ShortId(bootId) + "-" + PyStrOf(version) + ".conf"
  }

  /** `os.path.join(dir, name)` for one name. */
  function PathJoin(dir: string, name: string): string {
    if name != [] && name[0] == '/' then name
    else if dir == [] || dir[|dir| - 1] == '/' then dir + name
    else dir + "/" + name
  }

  /** `_entry_path`, given the entries directory and the boot id. */
  function EntryPathOf(e: Entry, entriesDir: string, bootId: string): string {
    PathJoin(entriesDir, FileName(Field(e, MachineId), bootId, VersionOf(e)))
  }

  // ---------------------------------------------------------------------
  // The placeholder engine, key by key

  /** What one key of the table stands for, stated directly: the boot
      parameters' value before the entry's for `%{version}`, a subvolume
      id before a subvolume path, and the profile's `os_version_id` for
      `%{os_name}`. Keys outside the table have no value. */
  function KeyValue(e: Entry, env: Env, vis: set<Getter>, k: FormatKey): Result<Option<string>, Error>
    decreases Unvisited(vis), 2, 2
  {
    match k
    case FmtVersion => Ok(if e.bp.Some? then e.bp.value.version else Field(e, Version))
    case FmtLvmRootLv => Ok(if e.bp.Some? then e.bp.value.lvmRootLv else None)
    case FmtLvmRootOpts => Ok(if e.osp.Some? then Get(e.osp.value, RootOptsLvm2Key) else None)
    case FmtBtrfsRootOpts => Ok(if e.osp.Some? then Get(e.osp.value, RootOptsBtrfsKey) else None)
    case FmtBtrfsSubvolume =>
      Ok(if e.bp.None? then None
         else if e.bp.value.btrfsSubvolId.Some? then Some("subvolid=" + e.bp.value.btrfsSubvolId.value)
         else if e.bp.value.btrfsSubvolPath.Some? then Some("subvol=" + e.bp.value.btrfsSubvolPath.value)
         else None)
    case FmtRootDevice => Ok(if e.bp.Some? then e.bp.value.rootDevice else None)
    case FmtRootOpts => var s :- RootOpts(e, env, vis); Ok(Some(s))
    case FmtKernel => LinuxOf(e, env, vis)
    case FmtInitramfs => InitrdOf(e, env, vis)
    case FmtOsName =>
      if e.osp.None? then Ok(None) else var v :- Attr(e.osp.value, OsVersionIdKey); Ok(Some(v))
    case _ => Ok(None)
  }

  /** The value the inner loop leaves in place of a key: that of the first
      spec with one. Every spec is evaluated, so an error of a later spec
      still surfaces. */
  function FirstValue(e: Entry, env: Env, vis: set<Getter>, specs: seq<KeySpec>): Result<Option<string>, Error> {
    if specs == [] then Ok(None)
    else
      var v :- KeyAttr(e, env, vis, specs[0]);
      var rest :- FirstValue(e, env, vis, specs[1..]);
      Ok(if v.Some? then v else rest)
  }

  /** The position of a key in the table. */
  function KeyIndex(k: FormatKey): Option<nat> {
    match k
    case FmtVersion => Some(0)
    case FmtLvmRootLv => Some(1)
    case FmtLvmRootOpts => Some(2)
    case FmtBtrfsRootOpts => Some(3)
    case FmtBtrfsSubvolume => Some(4)
    case FmtRootDevice => Some(5)
    case FmtRootOpts => Some(6)
    case FmtKernel => Some(7)
    case FmtInitramfs => Some(8)
    case FmtOsName => Some(9)
    case _ => None
  }

  predicate DistinctKeys(t: seq<(FormatKey, seq<KeySpec>)>) {
    forall i, j :: 0 <= i < j < |t| ==> t[i].0 != t[j].0
  }

  lemma TableKeys(k: FormatKey)
    ensures DistinctKeys(FormatKeySpecs)
    ensures KeyIndex(k).Some? ==> KeyIndex(k).value < |FormatKeySpecs| && FormatKeySpecs[KeyIndex(k).value].0 == k
    ensures KeyIndex(k).None? ==> forall i :: 0 <= i < |FormatKeySpecs| ==> FormatKeySpecs[i].0 != k
  {
  }

  /** The table means what KeyValue says, key by key. */
  lemma TableMeaning(e: Entry, env: Env, vis: set<Getter>, k: FormatKey)
    requires KeyIndex(k).Some?
    ensures KeyIndex(k).value < |FormatKeySpecs|
    ensures FirstValue(e, env, vis, FormatKeySpecs[KeyIndex(k).value].1) == KeyValue(e, env, vis, k)
  {
    var specs := FormatKeySpecs[KeyIndex(k).value].1;
    if k == FmtBtrfsSubvolume {
      assert specs == [KeySpec(Some(BpBtrfsSubvolId), None, None, "subvolid="),
                       KeySpec(Some(BpBtrfsSubvolPath), None, None, "subvol=")];
      assert specs[1..] == [specs[1]] && specs[1..][1..] == [];
      assert FirstValue(e, env, vis, specs[1..][1..]) == Ok(None);
      assert FirstValue(e, env, vis, specs[1..]) == KeyAttr(e, env, vis, specs[1]);
      if e.bp.Some? {
        var p := e.bp.value;
        assert KeyAttr(e, env, vis, specs[0]) == Ok(if p.btrfsSubvolId.Some? then Some("subvolid=" + p.btrfsSubvolId.value) else None);
        assert KeyAttr(e, env, vis, specs[1]) == Ok(if p.btrfsSubvolPath.Some? then Some("subvol=" + p.btrfsSubvolPath.value) else None);
      }
    } else {
      assert specs == [specs[0]] && specs[1..] == [];
      match k {
        case FmtVersion =>
          if e.bp.None? {
            KeyAttrUnprefixed(e, env, vis, specs[0]);
          } else {
            assert specs[0] == KeySpec(Some(BpVersion), None, Some(BeVersion), "");
            assert SourceValue(e, env, vis, specs[0]) == Ok(e.bp.value.version);
            if e.bp.value.version.Some? {
              var v := e.bp.value.version.value;
              assert "" + v == v;
            }
            assert KeyAttr(e, env, vis, specs[0]) == Ok(e.bp.value.version);
          }
        case FmtOsName =>
          KeyAttrOsp(e, env, vis, OspVersionId);
        case FmtLvmRootLv =>
          KeyAttrBp(e, env, vis, BpLvmRootLv);
        case FmtRootDevice =>
          KeyAttrBp(e, env, vis, BpRootDevice);
        case FmtLvmRootOpts =>
          KeyAttrOsp(e, env, vis, OspRootOptsLvm2);
        case FmtBtrfsRootOpts =>
          KeyAttrOsp(e, env, vis, OspRootOptsBtrfs);
        case FmtRootOpts =>
          KeyAttrUnprefixed(e, env, vis, specs[0]);
        case FmtKernel =>
          KeyAttrUnprefixed(e, env, vis, specs[0]);
        case FmtInitramfs =>
          KeyAttrUnprefixed(e, env, vis, specs[0]);
        case _ =>
      }
    }
  }

  lemma KeyAttrUnprefixed(e: Entry, env: Env, vis: set<Getter>, spec: KeySpec)
    requires spec.valPrefix == "" && spec.be.Some? && spec.osp.None? && !(spec.bp.Some? && e.bp.Some?)
    ensures KeyAttr(e, env, vis, spec) == EntryAttr(e, env, vis, spec.be.value)
  {
    var r := EntryAttr(e, env, vis, spec.be.value);
    if r.Ok? && r.value.Some? {
      assert "" + r.value.value == r.value.value;
    }
  }

  lemma KeyAttrBp(e: Entry, env: Env, vis: set<Getter>, a: BpAttr)
    ensures KeyAttr(e, env, vis, BpSpec(a)) == Ok(if e.bp.Some? then BpValue(e.bp.value, a) else None)
  {
    if e.bp.Some? && BpValue(e.bp.value, a).Some? {
      assert "" + BpValue(e.bp.value, a).value == BpValue(e.bp.value, a).value;
    }
  }

  lemma KeyAttrOsp(e: Entry, env: Env, vis: set<Getter>, a: OspAttr)
    ensures KeyAttr(e, env, vis, OspSpec(a)) == if e.osp.Some? then OspValue(e.osp.value, a) else Ok(None)
  {
    if e.osp.Some? {
      var r := OspValue(e.osp.value, a);
      if r.Ok? && r.value.Some? {
        assert "" + r.value.value == r.value.value;
      }
    }
  }

  /** The result of the inner loop on a template whose placeholders are all
      `%{k}`: every occurrence replaced by the key's value, or the text left
      as it is when there is none. */
  function Substituted(env: Env, ps: seq<Piece>, k: FormatKey, fv: Result<Option<string>, Error>): Result<string, Error> {
    if fv.Err? then Err(fv.error)
    else if fv.value.Some? then Ok(Render(env, SubstPieces(ps, k, fv.value.value)))
    else Ok(Render(env, ps))
  }

  lemma {:induction false} ContainsHead(s: string, p: string)
    requires p != [] && Contains(s, p)
    ensures p[0] in s
    decreases |s|
  {
    if !StartsWith(s, p) {
      ContainsHead(s[1..], p);
    }
  }

  /** Once none of the placeholders is in the text, the rest of the table
      changes nothing. */
  lemma {:induction false} FormatFromSkipAll(e: Entry, env: Env, vis: set<Getter>, fmt: string,
                                            table: seq<(FormatKey, seq<KeySpec>)>)
    requires forall k :: !Contains(fmt, Placeholder(env, k))
    ensures FormatFrom(e, env, vis, fmt, table) == Ok(fmt)
    decreases |table|
  {
    if table != [] {
      FormatFromSkipAll(e, env, vis, fmt, table[1..]);
    }
  }

  /** A pattern without `%` comes back unchanged. */
  lemma ApplyFormatPlain(e: Entry, env: Env, vis: set<Getter>, fmt: string)
    requires '%' !in fmt
    ensures ApplyFormat(e, env, vis, fmt) == Ok(fmt)
  {
    forall k ensures !Contains(fmt, Placeholder(env, k)) {
      if Contains(fmt, Placeholder(env, k)) {
        ContainsHead(fmt, Placeholder(env, k));
      }
    }
    FormatFromSkipAll(e, env, vis, fmt, FormatKeySpecs);
  }

  /** The inner loop fails exactly when evaluating some spec fails, with
      that error, whatever the text. */
  lemma {:induction false} ReplaceSpecsErr(e: Entry, env: Env, vis: set<Getter>, fmt: string, key: string,
                                          specs: seq<KeySpec>)
    requires key != [] && FirstValue(e, env, vis, specs).Err?
    ensures ReplaceSpecs(e, env, vis, fmt, key, specs) == Err(FirstValue(e, env, vis, specs).error)
    decreases |specs|
  {
    var v := KeyAttr(e, env, vis, specs[0]);
    if v.Ok? {
      ReplaceSpecsErr(e, env, vis, if v.value.Some? then Replace(fmt, key, v.value.value) else fmt, key, specs[1..]);
    }
  }

  /** On text without the placeholder the inner loop only evaluates. */
  lemma {:induction false} ReplaceSpecsAbsent(e: Entry, env: Env, vis: set<Getter>, fmt: string, key: string,
                                             specs: seq<KeySpec>)
    requires key != [] && !Contains(fmt, key) && FirstValue(e, env, vis, specs).Ok?
    ensures ReplaceSpecs(e, env, vis, fmt, key, specs) == Ok(fmt)
    decreases |specs|
  {
    if specs != [] {
      ReplaceSpecsAbsent(e, env, vis, fmt, key, specs[1..]);
    }
  }

  lemma {:induction false} ReplaceSpecsOneKey(e: Entry, env: Env, vis: set<Getter>, ps: seq<Piece>, k: FormatKey,
                                             specs: seq<KeySpec>)
    requires WellFormedEnv(env) && PlainPieces(ps) && OnlyKey(ps, k)
    requires var fv := FirstValue(e, env, vis, specs); fv.Ok? && fv.value.Some? ==> '%' !in fv.value.value
    ensures ReplaceSpecs(e, env, vis, Render(env, ps), Placeholder(env, k), specs)
         == Substituted(env, ps, k, FirstValue(e, env, vis, specs))
    decreases |specs|
  {
    var fmt, key := Render(env, ps), Placeholder(env, k);
    if specs != [] {
      var v := KeyAttr(e, env, vis, specs[0]);
      var rest := FirstValue(e, env, vis, specs[1..]);
      if v.Ok? {
        if v.value.Some? {
          var x := v.value.value;
          RenderReplace(env, ps, k, x);
          if rest.Err? {
            ReplaceSpecsErr(e, env, vis, Replace(fmt, key, x), key, specs[1..]);
          } else {
            SubstitutedIsPlain(env, ps, k, x, k);
            ReplaceSpecsAbsent(e, env, vis, Render(env, SubstPieces(ps, k, x)), key, specs[1..]);
          }
        } else {
          ReplaceSpecsOneKey(e, env, vis, ps, k, specs[1..]);
        }
      }
    }
  }

  lemma {:induction false} FormatFromOneKey(e: Entry, env: Env, vis: set<Getter>, ps: seq<Piece>, k: FormatKey,
                                           table: seq<(FormatKey, seq<KeySpec>)>, i: nat)
    requires WellFormedEnv(env) && PlainPieces(ps) && OnlyKey(ps, k) && Ph(k) in ps
    requires DistinctKeys(table) && i < |table| && table[i].0 == k
    requires var fv := FirstValue(e, env, vis, table[i].1); fv.Ok? && fv.value.Some? ==> '%' !in fv.value.value
    ensures FormatFrom(e, env, vis, Render(env, ps), table) == Substituted(env, ps, k, FirstValue(e, env, vis, table[i].1))
    decreases |table|
  {
    var fmt := Render(env, ps);
    if i > 0 {
      OtherKeyAbsent(env, ps, k, table[0].0);
      assert DistinctKeys(table[1..]) by {
        forall a, b | 0 <= a < b < |table[1..]| ensures table[1..][a].0 != table[1..][b].0 {
          assert table[1..][a] == table[a + 1] && table[1..][b] == table[b + 1];
        }
      }
      FormatFromOneKey(e, env, vis, ps, k, table[1..], i - 1);
    } else {
      RenderContains(env, ps, k);
      ReplaceSpecsOneKey(e, env, vis, ps, k, table[0].1);
      var r := Substituted(env, ps, k, FirstValue(e, env, vis, table[0].1));
      if r.Ok? {
        forall k2 ensures !Contains(r.value, Placeholder(env, k2)) || k2 == k {
          if k2 != k {
            if r.value == fmt {
              OtherKeyAbsent(env, ps, k, k2);
            } else {
              SubstitutedIsPlain(env, ps, k, FirstValue(e, env, vis, table[0].1).value.value, k2);
            }
          }
        }
        if r.value == fmt && FirstValue(e, env, vis, table[0].1).value.None? {
          FormatFromOtherKeys(e, env, vis, fmt, k, table[1..]);
        } else {
          SubstitutedIsPlain(env, ps, k, FirstValue(e, env, vis, table[0].1).value.value, k);
          FormatFromSkipAll(e, env, vis, r.value, table[1..]);
        }
      }
    }
  }

  /** Text holding only the placeholder of a key the rest of the table
      does not list passes through unchanged. */
  lemma {:induction false} FormatFromOtherKeys(e: Entry, env: Env, vis: set<Getter>, fmt: string, k: FormatKey,
                                              table: seq<(FormatKey, seq<KeySpec>)>)
    requires forall k2 :: k2 != k ==> !Contains(fmt, Placeholder(env, k2))
    requires forall j :: 0 <= j < |table| ==> table[j].0 != k
    ensures FormatFrom(e, env, vis, fmt, table) == Ok(fmt)
    decreases |table|
  {
    if table != [] {
      FormatFromOtherKeys(e, env, vis, fmt, k, table[1..]);
    }
  }

  // ---------------------------------------------------------------------
  // What the engine computes

  /** A template whose placeholders are all `%{k}` comes out with every
      occurrence replaced by the value `k` stands for, or unchanged when
      that value is `None` (also for a key outside the table); an error
      raised while finding the value is the result. */
  lemma ApplyFormatOneKey(e: Entry, env: Env, vis: set<Getter>, ps: seq<Piece>, k: FormatKey)
    requires WellFormedEnv(env) && PlainPieces(ps) && OnlyKey(ps, k) && Ph(k) in ps
    requires var fv := KeyValue(e, env, vis, k); fv.Ok? && fv.value.Some? ==> '%' !in fv.value.value
    ensures ApplyFormat(e, env, vis, Render(env, ps)) == Substituted(env, ps, k, KeyValue(e, env, vis, k))
  {
    var fmt := Render(env, ps);
    TableKeys(k);
    RenderContains(env, ps, k);
    ContainsHead(fmt, Placeholder(env, k));
    if KeyIndex(k).Some? {
      TableMeaning(e, env, vis, k);
      FormatFromOneKey(e, env, vis, ps, k, FormatKeySpecs, KeyIndex(k).value);
    } else {
      forall k2 | k2 != k ensures !Contains(fmt, Placeholder(env, k2)) {
        OtherKeyAbsent(env, ps, k, k2);
      }
      FormatFromOtherKeys(e, env, vis, fmt, k, FormatKeySpecs);
    }
  }

  /** A pattern made of literal text followed by one placeholder. */
  lemma TextThenKey(e: Entry, env: Env, vis: set<Getter>, text: string, k: FormatKey)
    requires WellFormedEnv(env) && '%' !in text
    requires var v := KeyValue(e, env, vis, k); v.Ok? && v.value.Some? ==> '%' !in v.value.value
    ensures var v := KeyValue(e, env, vis, k);
            ApplyFormat(e, env, vis, text + Placeholder(env, k))
            == if v.Err? then Err(v.error) else Ok(text + v.value.GetOr(Placeholder(env, k)))
  {
    var ps := [Lit(text), Ph(k)];
    assert ps[1..][1..] == [];
    assert Render(env, ps[1..]) == Placeholder(env, k) + [];
    assert Render(env, ps) == text + Placeholder(env, k);
    ApplyFormatOneKey(e, env, vis, ps, k);
    var v := KeyValue(e, env, vis, k);
    if v.Ok? && v.value.Some? {
      var x := v.value.value;
      var qs := SubstPieces(ps, k, x);
      assert qs == [Lit(text), Lit(x)];
      assert qs[1..][1..] == [];
      assert Render(env, qs[1..]) == x + [];
      assert Render(env, qs) == text + x;
    }
  }

  /** The default kernel pattern `/vmlinuz-%{version}`: the version is
      filled in when there is one, and the pattern is left as written
      otherwise. */
  lemma VmlinuzPattern(e: Entry, env: Env, vis: set<Getter>)
    requires WellFormedEnv(env) && StandardNames(env)
    requires var v := KeyValue(e, env, vis, FmtVersion).value; v.Some? ==> '%' !in v.value
    ensures var v := if e.bp.Some? then e.bp.value.version else Field(e, Version);
            ApplyFormat(e, env, vis, "/vmlinuz-%{version}")
            == Ok(if v.Some? then "/vmlinuz-" + v.value else "/vmlinuz-%{version}")
  {
    assert "/vmlinuz-%{version}" == "/vmlinuz-" + Placeholder(env, FmtVersion);
    assert '%' !in "/vmlinuz-";
    TextThenKey(e, env, vis, "/vmlinuz-", FmtVersion);
  }

  /** `root_opts`: empty without a profile or boot parameters; the LVM2
      part is empty unless `lvm_root_lv` is set and the btrfs part is empty
      unless a subvolume is. */
  lemma RootOptsParts(e: Entry, env: Env, vis: set<Getter>)
    ensures !HasProfile(e.osp) || e.bp.None? ==> RootOpts(e, env, vis) == Ok("")
    ensures HasProfile(e.osp) && e.bp.Some? && RootOptsGetter in vis ==> RootOpts(e, env, vis) == Err(RecursionError)
    ensures HasProfile(e.osp) && e.bp.Some? && !Truthy(e.bp.value.lvmRootLv) ==> LvmPart(e, env, vis + {RootOptsGetter}) == Ok("")
    ensures HasProfile(e.osp) && e.bp.Some? && !HasBtrfs(e.bp.value) ==> BtrfsPart(e, env, vis + {RootOptsGetter}) == Ok("")
  {
  }

  /** The two parts of `root_opts` are joined by one space when both are
      non-empty, so its words are those of the LVM2 part followed by those
      of the btrfs part. */
  lemma RootOptsWords(e: Entry, env: Env, vis: set<Getter>)
    requires HasProfile(e.osp) && e.bp.Some? && RootOptsGetter !in vis && RootOpts(e, env, vis).Ok?
    ensures var vis' := vis + {RootOptsGetter};
      var lvm, btrfs := LvmPart(e, env, vis'), BtrfsPart(e, env, vis');
      && lvm.Ok? && btrfs.Ok?
      && RootOpts(e, env, vis).value in {lvm.value, btrfs.value, lvm.value + " " + btrfs.value}
      && Words(RootOpts(e, env, vis).value) == Words(lvm.value) + Words(btrfs.value)
  {
    var vis' := vis + {RootOptsGetter};
    var lvm, btrfs := LvmPart(e, env, vis').value, BtrfsPart(e, env, vis').value;
    if lvm == "" {
      assert lvm + "" + btrfs == btrfs;
    } else if btrfs == "" {
      assert lvm + "" + btrfs == lvm;
    } else {
      WordsOfSpaced(lvm, btrfs);
    }
  }

  /** `options`: the words of the result are the surviving words of the
      stored or templated command line followed by the surviving added
      options; no word a delete spec matches survives. */
  lemma OptionsWords(e: Entry, env: Env)
    requires e.bp.Some? && AllWords(e.bp.value.addOpts) && OptionsOf(e, env).Ok?
    requires Options !in e.data ==> HasProfile(e.osp)
    ensures var base := if Options in e.data then e.data[Options]
                        else ApplyFormat(e, env, {}, Get(e.osp.value, OptionsKey).GetOr("")).value;
            var add, del := e.bp.value.addOpts, e.bp.value.delOpts;
            && Words(OptionsOf(e, env).value) == Kept(Words(base), del) + Kept(add, del)
            && (forall w :: w in Words(OptionsOf(e, env).value) <==> (w in Words(base) || w in add) && !DelOpt(w, del))
  {
    var base := if Options in e.data then e.data[Options]
                else ApplyFormat(e, env, {}, Get(e.osp.value, OptionsKey).GetOr("")).value;
    var add, del := e.bp.value.addOpts, e.bp.value.delOpts;
    EditOptions(base, add, del);
  }
}
