/** The `BootEntry` class of boom/bootloader.py and the module's list of
    loaded entries: building an entry from data, from the lines of an entry
    file or from keyword arguments; the property setters and the dirty
    flag; the cached `boot_id`; writing, updating and deleting the entry
    file; and `select_entry` / `find_entries` over the list. */
module BootEntries {
  import opened Wrappers
  import opened PyStr
  import opened Externals
  import opened EntryKeys
  import opened Profiles
  import opened Selections
  import opened Params
  import opened Templating
  import opened Serialization
  import opened Recovery
  import OP = OsProfiles

  // ---------------------------------------------------------------------
  // Selection

  /** `select_params(s, be.bp)`: an entry without boot parameters raises
      `AttributeError` at the first set criterion. */
  function SelectParamsOf(s: Selection, bp: Option<Params>): Result<bool, Error> {
    if bp.Some? then Ok(SelectParams(s, bp.value))
    else if s.rootDevice != "" then Err(AttributeError("root_device"))
    else if s.lvmRootLv != "" then Err(AttributeError("lvm_root_lv"))
    else if s.btrfsSubvolPath != "" then Err(AttributeError("btrfs_subvol_path"))
    else if s.btrfsSubvolId != "" then Err(AttributeError("btrfs_subvol_id"))
    else Ok(true)
  }

  /** `select_entry(s, be)`: the profile first (an entry without one fails
      in `_is_null_profile`), then the boot id as a prefix, the title,
      version and machine id exactly, then the boot parameters. */
  function SelectEntry(s: Selection, e: Entry, env: Env): Result<bool, Error> {
    if e.osp.None? then Err(AttributeError("os_id"))
    else
      var profileOk :- SelectProfile(s, e.osp.value, env);
      if !profileOk then Ok(false)
      else
        var idOk :- if s.bootId == "" then Ok(true)
                    else (var id :- BootIdOf(e, env); Ok(StartsWith(id, s.bootId)));
        if !idOk then Ok(false)
        else
          var titleOk :- if s.title == "" then Ok(true)
                         else (var t :- TitleOf(e); Ok(t == Some(s.title)));
          if !titleOk then Ok(false)
          else if s.version != "" && VersionOf(e) != Some(s.version) then Ok(false)
          else if s.machineId != "" && Field(e, MachineId) != Some(s.machineId) then Ok(false)
          else SelectParamsOf(s, e.bp)
  }

  /** An entry passes exactly when every set criterion holds. */
  lemma SelectEntryMeaning(s: Selection, e: Entry, env: Env)
    ensures SelectEntry(s, e, env) == Ok(true) <==>
      && e.osp.Some? && SelectProfile(s, e.osp.value, env) == Ok(true)
      && (s.bootId != "" ==> BootIdOf(e, env).Ok? && StartsWith(BootIdOf(e, env).value, s.bootId))
      && (s.title != "" ==> TitleOf(e) == Ok(Some(s.title)))
      && (s.version != "" ==> VersionOf(e) == Some(s.version))
      && (s.machineId != "" ==> Field(e, MachineId) == Some(s.machineId))
      && (e.bp.Some? ==> SelectParams(s, e.bp.value))
      && (e.bp.None? ==> s.rootDevice == "" && s.lvmRootLv == "" && s.btrfsSubvolPath == "" && s.btrfsSubvolId == "")
  {
  }

  /** Dropping criteria never rejects an entry that passed. */
  lemma SelectEntryMonotone(weak: Selection, strong: Selection, e: Entry, env: Env)
    requires Relaxes(weak, strong) && SelectEntry(strong, e, env) == Ok(true)
    ensures SelectEntry(weak, e, env) == Ok(true)
  {
    SelectEntryMeaning(strong, e, env);
    SelectProfileMonotone(weak, strong, e.osp.value, env);
    if e.bp.Some? {
      SelectParamsMonotone(weak, strong, e.bp.value);
    }
    SelectEntryMeaning(weak, e, env);
  }

  /** With no criteria every entry passes except one with the null
      profile. */
  lemma SelectEntryNoCriteria(e: Entry, env: Env)
    requires e.osp.Some? && Get(e.osp.value, OsIdKey).Some?
    ensures SelectEntry(NoCriteria, e, env) == Ok(!IsNullProfile(e.osp.value, env))
  {
  }

  // ---------------------------------------------------------------------
  // The entry file as `write_entry` writes it

  /** What `write_entry` writes for one field: the comment read with it,
      right-stripped, then the `key value` line. */
  function FieldText(f: (EntryKey, string), comments: map<EntryKey, string>): string {
    (if f.0 in comments then RStripSpace(comments[f.0]) + "\n" else "") + BlsLine(f) + "\n"
  }

  function FieldsText(fs: seq<(EntryKey, string)>, comments: map<EntryKey, string>): string {
    if fs == [] then "" else FieldText(fs[0], comments) + FieldsText(fs[1..], comments)
  }

  /** The `#OsIdentifier:` line an entry with a profile starts with. */
  function Header(osp: Option<Profile>): Result<string, Error> {
    if !HasProfile(osp) then Ok("")
    else
      var id :- Attr(osp.value, OsIdKey);
      Ok("#OsIdentifier: " + id + "\n")
  }

  /** The whole text of the entry file. */
  function FileText(e: Entry, env: Env, comments: map<EntryKey, string>): Result<string, Error> {
    var header :- Header(e.osp);
    var fs :- SetFields(e, env, EntryKeyOrder);
    Ok(header + FieldsText(fs, comments))
  }

  lemma {:induction false} FieldsTextPlain(fs: seq<(EntryKey, string)>)
    ensures FieldsText(fs, map[]) == Terminated(BlsLines(fs))
  {
    if fs != [] {
      FieldsTextPlain(fs[1..]);
      assert BlsLines(fs)[1..] == BlsLines(fs[1..]);
      assert "" + BlsLine(fs[0]) == BlsLine(fs[0]);
    }
  }

  /** Without comments the file holds, after its header, exactly the text
      that `str(entry)` returns and whose digest is the boot id, followed
      by a newline. */
  lemma FileHoldsEntryText(e: Entry, env: Env)
    requires Header(e.osp).Ok? && SetFields(e, env, EntryKeyOrder).Ok?
    requires var fs := SetFields(e, env, EntryKeyOrder).value;
             fs != [] && forall i :: 0 <= i < |fs| ==> '\n' !in fs[i].1
    ensures EntryStr(e, env, BlsStyle, false, "").Ok?
    ensures var text := EntryStr(e, env, BlsStyle, false, "").value;
            && FileText(e, env, map[]) == Ok(Header(e.osp).value + text + "\n")
            && BootIdOf(e, env) == Ok(env.digest(text))
  {
    var fs := SetFields(e, env, EntryKeyOrder).value;
    var text := Join(BlsLines(fs), "\n");
    var header := Header(e.osp).value;
    BlsText(e, env, false, "");
    FieldsTextPlain(fs);
    TerminatedJoin(BlsLines(fs));
    assert FileText(e, env, map[]) == Ok(header + FieldsText(fs, map[]));
    assert header + (text + "\n") == header + text + "\n";
  }

  // ---------------------------------------------------------------------
  // Reading an entry file

  /** `str.splitlines()` for text whose only line break is `\n`. */
  function SplitLines(s: string): (ls: seq<string>)
    ensures forall i :: 0 <= i < |ls| ==> '\n' !in ls[i]
  {
    var ps := SplitOn(s, '\n');
    if ps[|ps| - 1] == "" then ps[..|ps| - 1] else ps
  }

  /** The length of the first line of `s`, its `\n` included. */
  function LineEnd(s: string): (n: nat)
    requires s != []
    ensures 1 <= n <= |s| && '\n' !in s[..n - 1]
    ensures n < |s| ==> s[n - 1] == '\n'
  {
    if s[0] == '\n' || |s| == 1 then 1
    else
      var n := 1 + LineEnd(s[1..]);
      assert s[..n - 1] == [s[0]] + s[1..][..n - 2];
      n
  }

  /** A line as iterating over a text file yields it: non-empty, with a
      `\n` at most at its end. */
  predicate FileLine(l: string) {
    l != [] && '\n' !in l[..|l| - 1]
  }

  predicate EndsLine(l: string) {
    l != [] && l[|l| - 1] == '\n'
  }

  /** `for line in ef`: the lines of the file's text, each keeping its
      `\n`; only the last may lack one. */
  function FileLines(s: string): (ls: seq<string>)
    ensures Concat(ls) == s
    ensures forall i :: 0 <= i < |ls| ==> FileLine(ls[i])
    ensures forall i :: 0 <= i < |ls| - 1 ==> EndsLine(ls[i])
    decreases |s|
  {
    if s == [] then []
    else
      var n := LineEnd(s);
      var rest := FileLines(s[n..]);
      assert s == s[..n] + s[n..];
      assert ([s[..n]] + rest)[1..] == rest;
      [s[..n]] + rest
  }

  /** A comment gathered from whole lines of the file splits back into
      those lines, so `__os_id_from_comment` sees each comment line on its
      own. */
  lemma SplitLinesOfTerminated(bodies: seq<string>)
    requires forall i :: 0 <= i < |bodies| ==> '\n' !in bodies[i]
    ensures SplitLines(Terminated(bodies)) == bodies
  {
    if bodies == [] {
      assert SplitOn("", '\n') == [""];
    } else {
      TerminatedJoin(bodies);
      JoinThenEmpty(bodies);
      var ls := bodies + [""];
      SplitOnOfJoin(ls, '\n');
      assert ls[..|ls| - 1] == bodies;
    }
  }

  lemma {:induction false} JoinThenEmpty(b: seq<string>)
    requires b != []
    ensures Join(b + [""], "\n") == Join(b, "\n") + "\n"
  {
    if |b| == 1 {
      assert (b + [""])[1..] == [""];
    } else {
      assert (b + [""])[1..] == b[1..] + [""];
      JoinThenEmpty(b[1..]);
    }
  }

  const OsIdTag := "OsIdentifier:"

  /** The loop of `__os_id_from_comment` over the lines of a comment: a
      line must split at `:` into exactly two parts; the first identifier
      that names a profile while the entry has none attaches that profile,
      and every other line is kept. */
  function CommentLines(lines: seq<string>, osp: Option<Profile>, byId: string -> Option<Profile>, kept: string)
    : Result<(string, Option<Profile>), Error>
  {
    if lines == [] then Ok((kept, osp))
    else
      var parts := SplitOn(lines[0], ':');
      if |parts| < 2 then Err(ValueError("not enough values to unpack"))
      else if |parts| > 2 then Err(ValueError("too many values to unpack"))
      else
        var found := byId(Strip(parts[1]));
        if !HasProfile(osp) && HasProfile(found) then CommentLines(lines[1..], found, byId, kept)
        else CommentLines(lines[1..], osp, byId, kept + lines[0] + "\n")
  }

  /** What `__os_id_from_comment` returns and the profile it leaves:
      `None` for a comment without an `OsIdentifier:` tag, otherwise the
      lines not consumed. */
  function ScanComment(comment: string, osp: Option<Profile>, byId: string -> Option<Profile>)
    : Result<(Option<string>, Option<Profile>), Error>
  {
    if !Contains(comment, OsIdTag) then Ok((None, osp))
    else
      var r :- CommentLines(SplitLines(comment), osp, byId, "");
      Ok((Some(r.0), r.1))
  }

  /** An entry that already has a profile keeps every line of the comment,
      identifier lines included. */
  lemma {:induction false} CommentKeptWhole(lines: seq<string>, osp: Option<Profile>, byId: string -> Option<Profile>, kept: string)
    requires HasProfile(osp)
    requires forall i :: 0 <= i < |lines| ==> |SplitOn(lines[i], ':')| == 2
    ensures CommentLines(lines, osp, byId, kept) == Ok((kept + Terminated(lines), osp))
  {
    if lines == [] {
      assert kept + "" == kept;
    } else {
      CommentKeptWhole(lines[1..], osp, byId, kept + lines[0] + "\n");
      assert kept + lines[0] + "\n" + Terminated(lines[1..]) == kept + Terminated(lines);
    }
  }

  /** The profile changes only for an entry without one, and only to a
      profile that one of the comment's identifiers names. */
  lemma {:induction false} CommentProfile(lines: seq<string>, osp: Option<Profile>, byId: string -> Option<Profile>, kept: string)
    requires CommentLines(lines, osp, byId, kept).Ok?
    ensures var r := CommentLines(lines, osp, byId, kept).value.1;
            r != osp ==> && !HasProfile(osp) && HasProfile(r)
                         && exists i :: 0 <= i < |lines| && |SplitOn(lines[i], ':')| == 2
                                        && byId(Strip(SplitOn(lines[i], ':')[1])) == r
  {
    if lines != [] {
      var parts := SplitOn(lines[0], ':');
      var found := byId(Strip(parts[1]));
      if !HasProfile(osp) && HasProfile(found) {
        CommentProfile(lines[1..], found, byId, kept);
        assert |SplitOn(lines[0], ':')| == 2 && byId(Strip(SplitOn(lines[0], ':')[1])) == found;
      } else {
        CommentProfile(lines[1..], osp, byId, kept + lines[0] + "\n");
        var r := CommentLines(lines, osp, byId, kept).value.1;
        if r != osp {
          var i :| 0 <= i < |lines[1..]| && |SplitOn(lines[1..][i], ':')| == 2
                   && byId(Strip(SplitOn(lines[1..][i], ':')[1])) == r;
          assert lines[1..][i] == lines[i + 1];
        }
      }
    }
  }

  /** `blank_or_comment` and `parse_name_value`, which the `boom` package
      defines outside this model. */
  datatype LineParser = LineParser(
    blankOrComment: string -> bool,
    parseNameValue: string -> Result<(string, string), Error>)

  /** The variables of the `__from_file` loop: `entry_data`, `comments`,
      the pending `comment` (`None` after a comment without an identifier)
      and the profile attached so far. */
  datatype ReadState = ReadState(
    data: map<EntryKey, string>,
    comments: map<EntryKey, string>,
    comment: Option<string>,
    osp: Option<Profile>)

  /** One line of an entry file. A comment line after a comment without an
      identifier adds text to `None` and raises `TypeError`; an unknown key
      raises `LookupError`; a pending comment is attached to the field
      that follows it only when it held an identifier and something else
      besides. */
  function ReadLine(line: string, st: ReadState, parser: LineParser, byId: string -> Option<Profile>)
    : Result<ReadState, Error>
  {
    if parser.blankOrComment(line) then
      if st.comment.None? then Err(TypeError("unsupported operand type(s) for +=: 'NoneType' and 'str'"))
      else Ok(st.(comment := Some(st.comment.value + line)))
    else
      var nv :- parser.parseNameValue(line);
      var key := MapKey(TransformKey(nv.0));
      if key.None? then Err(LookupError(nv.0))
      else
        var st1 := st.(data := st.data[key.value := nv.1]);
        if !Truthy(st.comment) then Ok(st1)
        else
          var c :- ScanComment(st.comment.value, st.osp, byId);
          if !Truthy(c.0) then Ok(st1.(comment := c.0, osp := c.1))
          else Ok(st1.(comments := st1.comments[key.value := c.0.value], comment := Some(""), osp := c.1))
  }

  function ReadLines(lines: seq<string>, st: ReadState, parser: LineParser, byId: string -> Option<Profile>)
    : Result<ReadState, Error>
  {
    if lines == [] then Ok(st)
    else
      var st1 :- ReadLine(lines[0], st, parser, byId);
      ReadLines(lines[1..], st1, parser, byId)
  }

  /** The key a field line names, when it parses. */
  function LineKey(line: string, parser: LineParser): Option<EntryKey> {
    var nv := parser.parseNameValue(line);
    if parser.blankOrComment(line) || nv.Err? then None else MapKey(TransformKey(nv.value.0))
  }

  lemma ReadLineFields(line: string, st: ReadState, parser: LineParser, byId: string -> Option<Profile>)
    requires st.comments.Keys <= st.data.Keys
    requires ReadLine(line, st, parser, byId).Ok?
    ensures var r := ReadLine(line, st, parser, byId).value;
      && r.comments.Keys <= r.data.Keys
      && forall k :: k in r.data ==> k in st.data || LineKey(line, parser) == Some(k)
  {
  }

  /** Every field read comes from a line of the file that names it, and
      every comment kept belongs to a field read. */
  lemma {:induction false} ReadLinesFields(lines: seq<string>, st: ReadState, parser: LineParser, byId: string -> Option<Profile>)
    requires st.comments.Keys <= st.data.Keys
    requires ReadLines(lines, st, parser, byId).Ok?
    ensures var r := ReadLines(lines, st, parser, byId).value;
      && r.comments.Keys <= r.data.Keys
      && forall k :: k in r.data ==> k in st.data || exists i :: 0 <= i < |lines| && LineKey(lines[i], parser) == Some(k)
  {
    if lines != [] {
      var st1 := ReadLine(lines[0], st, parser, byId).value;
      ReadLineFields(lines[0], st, parser, byId);
      ReadLinesFields(lines[1..], st1, parser, byId);
      var r := ReadLines(lines, st, parser, byId).value;
      forall k | k in r.data
        ensures k in st.data || exists i :: 0 <= i < |lines| && LineKey(lines[i], parser) == Some(k)
      {
        if k !in st1.data {
          var i :| 0 <= i < |lines[1..]| && LineKey(lines[1..][i], parser) == Some(k);
          assert lines[1..][i] == lines[i + 1];
        } else if k !in st.data {
          assert LineKey(lines[0], parser) == Some(k);
        }
      }
    }
  }

  /** A comment without an identifier before a field is dropped, and the
      next comment line then fails the whole read. */
  lemma DroppedCommentBreaksRead(field: string, next: string, st: ReadState, parser: LineParser,
                                 byId: string -> Option<Profile>)
    requires !parser.blankOrComment(field) && parser.parseNameValue(field).Ok?
    requires MapKey(TransformKey(parser.parseNameValue(field).value.0)).Some?
    requires Truthy(st.comment) && !Contains(st.comment.value, OsIdTag)
    requires parser.blankOrComment(next)
    ensures ReadLine(field, st, parser, byId).Ok?
    ensures ReadLine(field, st, parser, byId).value.comment.None?
    ensures ReadLine(field, st, parser, byId).value.comments == st.comments
    ensures ReadLines([field, next], st, parser, byId).Err?
    ensures ReadLines([field, next], st, parser, byId).error.TypeError?
  {
    var st1 := ReadLine(field, st, parser, byId).value;
    assert [field, next][1..] == [next];
    assert [next][1..] == [];
  }

  // ---------------------------------------------------------------------
  // `__from_data`

  /** The loop of `__from_data` that keeps, among `keys`, those whose name
      the data holds, with their values. */
  function CopyKnown(m: map<string, string>, keys: seq<EntryKey>): (r: map<EntryKey, string>)
    ensures forall k :: k in r <==> k in keys && EntryKeys.KeyName(k) in m
    ensures forall k :: k in r ==> r[k] == m[EntryKeys.KeyName(k)]
  {
    if keys == [] then map[]
    else
      var k := keys[|keys| - 1];
      var r0 := CopyKnown(m, keys[..|keys| - 1]);
      assert forall j :: j in keys <==> j in keys[..|keys| - 1] || j == k;
      if EntryKeys.KeyName(k) in m then r0[k := m[EntryKeys.KeyName(k)]] else r0
  }

  /** Fields under their `BOOM_ENTRY_*` names, as `__from_file` hands them
      to `__from_data`. */
  function Named(d: map<EntryKey, string>): (m: map<string, string>)
    ensures forall k :: k in d <==> EntryKeys.KeyName(k) in m
    ensures forall k :: k in d ==> m[EntryKeys.KeyName(k)] == d[k]
  {
    forall j, k | EntryKeys.KeyName(j) == EntryKeys.KeyName(k) ensures j == k {
      EntryKeys.KeyOfNameInvertsKeyName(j, EntryKeys.KeyName(k));
    }
    map k | k in d :: EntryKeys.KeyName(k) := d[k]
  }

  /** Every key is an `ENTRY_KEYS` member, so the fields read from a file
      reach `__from_data` unchanged. */
  lemma CopyNamed(d: map<EntryKey, string>)
    ensures CopyKnown(Named(d), EntryKeyOrder) == d
  {
    var r := CopyKnown(Named(d), EntryKeyOrder);
    forall k ensures k in EntryKeyOrder {
      InKeyOrder(k);
    }
    assert r.Keys == d.Keys;
  }

  /** `_entry_data[BOOM_ENTRY_VERSION] = bp.version`; a `None` version is
      stored as an absent key, which every getter reads the same way. */
  function StoreVersion(d: map<EntryKey, string>, v: Option<string>): map<EntryKey, string> {
    if v.Some? then d[Version := v.value] else d - {Version}
  }

  /** The keys whose stored value `__from_data` drops when the template
      already yields it. */
  predicate Templated(k: EntryKey) {
    k == Version || k == Linux || k == Initrd || k == Options
  }

  /** `_pop_if_set(key)`, where `v` is what the getter of `key` gives
      for the entry with no stored data; it is looked at only when the key
      is stored. */
  function PopIfSame(d: map<EntryKey, string>, k: EntryKey, v: Result<Option<string>, Error>)
    : (r: Result<map<EntryKey, string>, Error>)
    ensures r.Ok? <==> k !in d || v.Ok?
    ensures r.Ok? ==> forall j :: j in r.value <==> j in d && !(j == k && v == Ok(Some(d[k])))
    ensures r.Ok? ==> forall j :: j in r.value ==> r.value[j] == d[j]
  {
    if k !in d then Ok(d)
    else
      var value :- v;
      Ok(if value == Some(d[k]) then d - {k} else d)
  }

  /** The four `_pop_if_set` calls, in order. */
  function PopTemplated(d: map<EntryKey, string>, osp: Option<Profile>, p: Params, env: Env)
    : Result<map<EntryKey, string>, Error>
  {
    var blank := Entry(map[], osp, Some(p));
    var d1 :- PopIfSame(d, Version, GetField(blank, env, Version));
    var d2 :- PopIfSame(d1, Linux, GetField(blank, env, Linux));
    var d3 :- PopIfSame(d2, Initrd, GetField(blank, env, Initrd));
    PopIfSame(d3, Options, GetField(blank, env, Options))
  }

  /** A stored field is dropped exactly when it is templated and equal to
      what the profile and the boot parameters alone give; the rest keep
      their values. It fails exactly when the getter of a stored templated
      field fails. */
  lemma PopTemplatedMeaning(d: map<EntryKey, string>, osp: Option<Profile>, p: Params, env: Env)
    ensures var r := PopTemplated(d, osp, p, env);
            var blank := Entry(map[], osp, Some(p));
      && (r.Ok? <==> forall k :: k in d && Templated(k) ==> GetField(blank, env, k).Ok?)
      && (r.Ok? ==> forall k :: k in r.value <==>
            k in d && !(Templated(k) && GetField(blank, env, k) == Ok(Some(d[k]))))
      && (r.Ok? ==> forall k :: k in r.value ==> r.value[k] == d[k])
  {
    var blank := Entry(map[], osp, Some(p));
    var r1 := PopIfSame(d, Version, GetField(blank, env, Version));
    if r1.Ok? {
      var r2 := PopIfSame(r1.value, Linux, GetField(blank, env, Linux));
      if r2.Ok? {
        var r3 := PopIfSame(r2.value, Initrd, GetField(blank, env, Initrd));
      }
    }
  }

  /** What `__from_data` leaves: the fields, the profile and the boot
      parameters. `given` is the `boot_params` argument; without it the
      parameters are recovered from the entry by `BootParams.from_entry`.
      A missing title, or a missing `linux` with no `efi` either, raises
      `ValueError`. `probe` is what `match_os_profile` returns for the
      entry. */
  function FromDataSpec(m: map<string, string>, osp0: Option<Profile>, given: Option<Params>, probe: Profile, env: Env)
    : Result<(map<EntryKey, string>, Option<Profile>, Option<Params>), Error>
  {
    if EntryKeys.KeyName(Title) !in m then Err(ValueError("BootEntry missing BOOM_ENTRY_TITLE"))
    else if EntryKeys.KeyName(Linux) !in m && EntryKeys.KeyName(Efi) !in m then
      Err(ValueError("BootEntry missing BOOM_ENTRY_LINUX or BOOM_ENTRY_EFI"))
    else
      var osp := if HasProfile(osp0) then osp0 else Some(probe);
      var r :- ParamsStage(CopyKnown(m, EntryKeyOrder), osp, given, env);
      Ok((r.0, osp, r.1))
  }

  /** The second half of `__from_data`, once the fields are copied and the
      profile chosen: the boot parameters given, whose version replaces
      the stored one, or those recovered from the entry; with boot
      parameters, the templated fields they already yield are dropped. */
  function ParamsStage(d0: map<EntryKey, string>, osp: Option<Profile>, given: Option<Params>, env: Env)
    : Result<(map<EntryKey, string>, Option<Params>), Error>
  {
    var bp :- if given.Some? then Ok(given) else FromEntry(Entry(d0, osp, None), env);
    var d1 := if given.Some? then StoreVersion(d0, given.value.version) else d0;
    if bp.None? then Ok((d1, None))
    else
      var d2 :- PopTemplated(d1, osp, bp.value, env);
      Ok((d2, bp))
  }

  /** An entry built from data keeps every field it was given that no
      template can supply, with its value, and holds no field it was not
      given; the profile given wins over the probed one. */
  lemma FromDataKeeps(m: map<string, string>, osp0: Option<Profile>, given: Option<Params>, probe: Profile, env: Env)
    requires FromDataSpec(m, osp0, given, probe, env).Ok?
    ensures var r := FromDataSpec(m, osp0, given, probe, env).value;
      && EntryKeys.KeyName(Title) in m
      && (EntryKeys.KeyName(Linux) in m || EntryKeys.KeyName(Efi) in m)
      && (forall k :: EntryKeys.KeyName(k) in m && !Templated(k) ==> k in r.0 && r.0[k] == m[EntryKeys.KeyName(k)])
      && (forall k :: k in r.0 && k != Version ==> EntryKeys.KeyName(k) in m && r.0[k] == m[EntryKeys.KeyName(k)])
      && (given.Some? ==> r.2 == given && (Version in r.0 ==> Some(r.0[Version]) == given.value.version))
      && r.1 == (if HasProfile(osp0) then osp0 else Some(probe))
  {
    var d0 := CopyKnown(m, EntryKeyOrder);
    forall k ensures k in EntryKeyOrder {
      InKeyOrder(k);
    }
    var osp := if HasProfile(osp0) then osp0 else Some(probe);
    var bpr := if given.Some? then Ok(given) else FromEntry(Entry(d0, osp, None), env);
    var r := FromDataSpec(m, osp0, given, probe, env).value;
    assert ParamsStage(d0, osp, given, env).Ok?;
    assert bpr.Ok?;
    var d1 := if given.Some? then StoreVersion(d0, given.value.version) else d0;
    if bpr.value.Some? {
      PopTemplatedMeaning(d1, osp, bpr.value.value, env);
      assert r == (PopTemplated(d1, osp, bpr.value.value, env).value, osp, bpr.value);
    } else {
      assert r == (d1, osp, None);
    }
  }

  /** `ENTRY_KEYS` lists every key. */
  lemma InKeyOrder(k: EntryKey)
    ensures k in EntryKeyOrder
  {
    match k
    case Title => assert EntryKeyOrder[0] == k;
    case MachineId => assert EntryKeyOrder[1] == k;
    case Version => assert EntryKeyOrder[2] == k;
    case Linux => assert EntryKeyOrder[3] == k;
    case Efi => assert EntryKeyOrder[4] == k;
    case Initrd => assert EntryKeyOrder[5] == k;
    case Options => assert EntryKeyOrder[6] == k;
    case Devicetree => assert EntryKeyOrder[7] == k;
  }

  lemma {:induction false} FieldsTextAppend(fs: seq<(EntryKey, string)>, f: (EntryKey, string), comments: map<EntryKey, string>)
    ensures FieldsText(fs + [f], comments) == FieldsText(fs, comments) + FieldText(f, comments)
  {
    if fs == [] {
      assert [] + [f] == [f];
      assert [f][1..] == [];
    } else {
      assert (fs + [f])[1..] == fs[1..] + [f];
      FieldsTextAppend(fs[1..], f, comments);
    }
  }

  /** One more field moves from the text left to the text written. */
  lemma FieldsTextStep(fs: seq<(EntryKey, string)>, text: string, comments: map<EntryKey, string>)
    requires fs != []
    ensures text + FieldsText(fs, comments) == (text + FieldText(fs[0], comments)) + FieldsText(fs[1..], comments)
  {
    var a, b := FieldText(fs[0], comments), FieldsText(fs[1..], comments);
    assert FieldsText(fs, comments) == a + b;
    ConcatAssoc(text, a, b);
  }

  lemma ConcatAssoc(a: string, b: string, c: string)
    ensures a + (b + c) == (a + b) + c
  {
  }

  /** A text computed so far, in front of the text of what is left. */
  function Prefixed(s: string, r: Result<string, Error>): Result<string, Error> {
    if r.Ok? then Ok(s + r.value) else r
  }

  /** One more record of `__str` moves from the text left to the text
      computed so far. */
  lemma RecordsStep(e: Entry, env: Env, st: StrStyle, keys: seq<EntryKey>, s: string)
    requires keys != [] && GetField(e, env, keys[0]).Ok?
    ensures var v := GetField(e, env, keys[0]).value;
            Prefixed(s, Records(e, env, st, keys))
            == Prefixed(s + (if Truthy(v) then Record(st, RecordName(st, keys[0]), v.value) else ""),
                        Records(e, env, st, keys[1..]))
  {
    var v := GetField(e, env, keys[0]).value;
    var rec := if Truthy(v) then Record(st, RecordName(st, keys[0]), v.value) else "";
    var rest := Records(e, env, st, keys[1..]);
    assert Records(e, env, st, keys) == if rest.Err? then rest else Ok(rec + rest.value);
    if rest.Ok? {
      assert s + (rec + rest.value) == (s + rec) + rest.value;
    }
  }
}
