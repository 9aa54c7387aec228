/** The `BootEntry` objects of boom/bootloader.py and the module's list of
    loaded entries `_entries`: the dirty flag and the cached `boot_id`,
    the property setters, the three ways `__init__` builds an entry, and
    writing, updating and deleting the entry file. The file system is a
    map from paths to file contents. */
module Entries {
  import opened Wrappers
  import opened PyStr
  import opened Externals
  import opened EntryKeys
  import opened Profiles
  import opened Selections
  import opened Params
  import opened Templating
  import opened Serialization
  import opened Recovery
  import opened BootEntries
  import OP = OsProfiles

  /** The entry files under `boom_entries_path()`, by path. */
  class FileSystem {
    var files: map<string, string>

    constructor (files: map<string, string>)
      ensures this.files == files
    {
      this.files := files;
    }
  }

  /** The attributes of a `BootParams` object, if there is one. */
  function ParamsOf(b: BootParams?): Option<Params>
    reads b
  {
    if b == null then None else Some(b.Value())
  }

  /** A `BootParams` object holding `q`, as `from_entry` builds it. */
  method ParamsObject(q: Params) returns (bp: BootParams)
    ensures fresh(bp) && bp.Value() == q
  {
    bp := new BootParams.Defaults();
    bp.SetVersion(q.version);
    bp.SetRootDevice(q.rootDevice);
    bp.SetLvmRootLv(q.lvmRootLv);
    bp.SetBtrfsSubvolPath(q.btrfsSubvolPath);
    bp.SetBtrfsSubvolId(q.btrfsSubvolId);
    bp.SetAddOpts(q.addOpts);
    bp.SetDelOpts(q.delOpts);
  }

  /** The loop of `__from_data` over `ENTRY_KEYS`: the fields among `keys`
      that `m` names. */
  method CopyFields(m: map<string, string>, keys: seq<EntryKey>) returns (d: map<EntryKey, string>)
    ensures d == CopyKnown(m, keys)
  {
    d := map[];
    for i := 0 to |keys|
      invariant d == CopyKnown(m, keys[..i])
    {
      assert keys[..i + 1][..i] == keys[..i];
      var k := keys[i];
      if EntryKeys.KeyName(k) in m {
        d := d[k := m[EntryKeys.KeyName(k)]];
      }
    }
    assert keys[..|keys|] == keys;
  }

  /** `_entry_path`: the file under `dir` named after the machine id, the
      short boot id and the version. */
  function PathFor(e: Entry, env: Env, dir: string): Result<string, Error> {
    var id :- BootIdOf(e, env);
    Ok(EntryPathOf(e, dir, id))
  }

  /** The loop of `write_entry` over the set fields. */
  method WriteFields(fs: seq<(EntryKey, string)>, comments: map<EntryKey, string>) returns (text: string)
    ensures text == FieldsText(fs, comments)
  {
    text := "";
    for i := 0 to |fs|
      invariant text + FieldsText(fs[i..], comments) == FieldsText(fs, comments)
    {
      FieldsTextStep(fs[i..], text, comments);
      assert fs[i..][1..] == fs[i + 1..];
      text := text + FieldText(fs[i], comments);
    }
    assert fs[|fs|..] == [];
  }

  /** `__generate_boot_id` and `__str`: the records of the set fields in
      `ENTRY_KEYS` order, the boot id record in the non-BLS form when it
      is asked for, trailing separators stripped. */
  method FormatEntry(e: Entry, env: Env, st: StrStyle, noBootId: bool, bootId: string) returns (r: Result<string, Error>)
    ensures r == EntryStr(e, env, st, noBootId, bootId)
  {
    var text := st.prefix;
    for i := 0 to |EntryKeyOrder|
      invariant Prefixed(text, Records(e, env, st, EntryKeyOrder[i..])) == Prefixed(st.prefix, Records(e, env, st, EntryKeyOrder))
    {
      var k := EntryKeyOrder[i];
      var v := GetField(e, env, k);
      if v.Err? {
        return Err(v.error);
      }
      RecordsStep(e, env, st, EntryKeyOrder[i..], text);
      assert EntryKeyOrder[i..][1..] == EntryKeyOrder[i + 1..];
      if Truthy(v.value) {
        text := text + Record(st, RecordName(st, k), v.value.value);
      } else {
        assert text + "" == text;
      }
    }
    assert Records(e, env, st, EntryKeyOrder[|EntryKeyOrder|..]) == Ok("");
    assert text + "" == text;
    var idRecord := if !st.bls && !noBootId then Record(st, "BOOM_ENTRY_BOOT_ID", bootId) else "";
    r := Ok(RStripChars(text + idRecord, CharSet(st.tail)) + st.suffix);
  }

  class BootEntry {
    /** The format keys, digest and regular expressions the templates use. */
    const env: Env
    /** `_entry_data`. */
    var data: map<EntryKey, string>
    /** `_osp`. */
    var osp: Option<Profile>
    /** `_bp`. */
    var bp: BootParams?
    /** `_bp_generation`: the generation of `bp` last seen. */
    var bpGeneration: int
    /** `__boot_id`. */
    var bootIdCache: Option<string>
    /** `_unwritten`: the dirty flag. */
    var unwritten: bool
    /** `_last_path`. */
    var lastPath: Option<string>
    /** `_comments`: the comment lines read before each field. */
    var comments: map<EntryKey, string>

    /** The values the getters read. */
    function Snapshot(): Entry
      reads this, bp
    {
      Entry(data, osp, ParamsOf(bp))
    }

    /** The boot parameters' generation never runs behind the one the entry
        saw, and a cached boot id that `boot_id` would return unchanged is
        the boot id of the current values. */
    ghost predicate Valid()
      reads this, bp
    {
      && (bp != null ==> bpGeneration <= bp.generation)
      && (Truthy(bootIdCache) && !unwritten && (bp == null || bp.generation == bpGeneration)
          ==> BootIdOf(Snapshot(), env) == Ok(bootIdCache.value))
    }

    /** The attributes other than the dirty flag, the cache and the
        generation hold the given values. */
    ghost predicate Holds(d: map<EntryKey, string>, o: Option<Profile>, b: BootParams?, lp: Option<string>,
                          cm: map<EntryKey, string>)
      reads this
    {
      data == d && osp == o && bp == b && lastPath == lp && comments == cm
    }

    /** What reading `boot_id` leaves, from the generation, dirty flag and
        cache it found, when it returned `r`: parameters changed in place
        make the entry dirty and drop the cache; a computed id is cached. */
    ghost predicate Refreshed(g0: int, u0: bool, c0: Option<string>, r: Result<string, Error>)
      reads this, bp
    {
      var changed := bp != null && bp.generation != g0;
      && unwritten == (u0 || changed)
      && bpGeneration == (if changed then bp.generation else g0)
      && bootIdCache == (if r.Ok? then Some(r.value) else if changed then None else c0)
    }

    /** The class defaults, with the `osprofile` argument. */
    constructor Blank(env: Env, osprofile: Option<Profile>)
      ensures this.env == env && Holds(map[], osprofile, null, None, map[])
      ensures bpGeneration == 0 && bootIdCache == None && !unwritten
      ensures Valid()
    {
      this.env := env;
      data, osp, bp, lastPath, comments := map[], osprofile, null, None, map[];
      bpGeneration, bootIdCache, unwritten := 0, None, false;
    }

    /** `__os_id_from_comment(comment)`: `None` for a comment without an
        `OsIdentifier:` tag; otherwise, line by line, the first identifier
        that names a profile while the entry has none attaches it, and the
        other lines are returned. */
    method OsIdFromComment(comment: string, byId: string -> Option<Profile>) returns (r: Result<Option<string>, Error>)
      modifies this`osp
      ensures var s := ScanComment(comment, old(osp), byId);
        && (s.Err? ==> r == Err(s.error))
        && (s.Ok? ==> r == Ok(s.value.0) && osp == s.value.1)
    {
      if !Contains(comment, OsIdTag) {
        return Ok(None);
      }
      var lines := SplitLines(comment);
      var kept := "";
      for i := 0 to |lines|
        invariant CommentLines(lines[i..], osp, byId, kept) == CommentLines(lines, old(osp), byId, "")
      {
        assert lines[i..][0] == lines[i] && lines[i..][1..] == lines[i + 1..];
        var parts := SplitOn(lines[i], ':');
        if |parts| < 2 {
          return Err(ValueError("not enough values to unpack"));
        }
        if |parts| > 2 {
          return Err(ValueError("too many values to unpack"));
        }
        var found := byId(Strip(parts[1]));
        if !HasProfile(osp) && HasProfile(found) {
          osp := found;
        } else {
          kept := kept + lines[i] + "\n";
        }
      }
      assert lines[|lines|..] == [];
      r := Ok(Some(kept));
    }

    /** The loop of `__from_file` over the lines of the file: the fields,
        the comments kept before them and the profile a comment names. */
    method ReadEntryLines(lines: seq<string>, parser: LineParser, byId: string -> Option<Profile>)
      returns (r: Result<ReadState, Error>)
      modifies this`osp
      ensures r == ReadLines(lines, ReadState(map[], map[], Some(""), old(osp)), parser, byId)
      ensures r.Ok? ==> osp == r.value.osp
    {
      var d: map<EntryKey, string> := map[];
      var cm: map<EntryKey, string> := map[];
      var comment: Option<string> := Some("");
      for i := 0 to |lines|
        invariant ReadLines(lines[i..], ReadState(d, cm, comment, osp), parser, byId)
               == ReadLines(lines, ReadState(map[], map[], Some(""), old(osp)), parser, byId)
      {
        assert lines[i..][0] == lines[i] && lines[i..][1..] == lines[i + 1..];
        ghost var st := ReadState(d, cm, comment, osp);
        var line := lines[i];
        if parser.blankOrComment(line) {
          if comment.None? {
            return Err(TypeError("unsupported operand type(s) for +=: 'NoneType' and 'str'"));
          }
          comment := Some(comment.value + line);
        } else {
          var nv := parser.parseNameValue(line);
          if nv.Err? {
            return Err(nv.error);
          }
          var key := MapKey(TransformKey(nv.value.0));
          if key.None? {
            return Err(LookupError(nv.value.0));
          }
          d := d[key.value := nv.value.1];
          if Truthy(comment) {
            var c := OsIdFromComment(comment.value, byId);
            if c.Err? {
              return Err(c.error);
            }
            comment := c.value;
            if Truthy(c.value) {
              cm := cm[key.value := c.value.value];
              comment := Some("");
            }
          }
        }
        assert ReadLine(line, st, parser, byId) == Ok(ReadState(d, cm, comment, osp));
      }
      assert lines[|lines|..] == [];
      r := Ok(ReadState(d, cm, comment, osp));
    }

    /** `__from_data(entry_data, boot_params)` on a new entry: the fields
        named in `m`, the profile (probed when there is none), the boot
        parameters given or recovered from the entry, and the templated
        fields that the template already yields dropped. The entry is left
        dirty. */
    method FromData(m: map<string, string>, bootParams: BootParams?, probe: Profile) returns (err: Option<Error>)
      requires bp == null
      modifies this
      ensures var spec := FromDataSpec(m, old(osp), ParamsOf(bootParams), probe, env);
        && (spec.Err? ==> err == Some(spec.error))
        && (spec.Ok? ==> err.None? && spec.value == (data, osp, ParamsOf(bp)))
      ensures err.None? ==> && (bootParams != null ==> bp == bootParams)
                            && (bootParams == null && bp != null ==> fresh(bp))
                            && unwritten && bootIdCache == None && Valid()
      ensures lastPath == old(lastPath) && comments == old(comments)
    {
      if EntryKeys.KeyName(Title) !in m {
        return Some(ValueError("BootEntry missing BOOM_ENTRY_TITLE"));
      }
      if EntryKeys.KeyName(Linux) !in m && EntryKeys.KeyName(Efi) !in m {
        return Some(ValueError("BootEntry missing BOOM_ENTRY_LINUX or BOOM_ENTRY_EFI"));
      }
      data := CopyFields(m, EntryKeyOrder);
      if !HasProfile(osp) {
        osp := Some(probe);
      }
      err := SetUpParams(bootParams);
    }

    /** The boot parameters of `__from_data`: attach them, then drop the
        templated fields they already yield. */
    method SetUpParams(bootParams: BootParams?) returns (err: Option<Error>)
      requires bp == null
      modifies this
      ensures var spec := ParamsStage(old(data), osp, ParamsOf(bootParams), env);
        && (spec.Err? ==> err == Some(spec.error))
        && (spec.Ok? ==> err.None? && spec.value == (data, ParamsOf(bp)))
      ensures err.None? ==> && (bootParams != null ==> bp == bootParams)
                            && (bootParams == null && bp != null ==> fresh(bp))
                            && unwritten && bootIdCache == None && Valid()
      ensures osp == old(osp) && lastPath == old(lastPath) && comments == old(comments)
    {
      err := AttachParams(bootParams);
      if err.Some? {
        return;
      }
      err := DropTemplated();
    }

    /** The boot parameters `__from_data` attaches through the `bp`
        setter: the object given, whose version then replaces the stored
        one, or what `BootParams.from_entry` recovers from the entry. */
    method AttachParams(bootParams: BootParams?) returns (err: Option<Error>)
      requires bp == null
      modifies this
      ensures var given := ParamsOf(bootParams);
        var recovered := if given.Some? then Ok(given) else FromEntry(Entry(old(data), old(osp), None), env);
        && (recovered.Err? ==> err == Some(recovered.error))
        && (recovered.Ok? ==> && err.None? && ParamsOf(bp) == recovered.value
                              && data == (if given.Some? then StoreVersion(old(data), given.value.version) else old(data))
                              && (bootParams != null ==> bp == bootParams)
                              && (bootParams == null && bp != null ==> fresh(bp))
                              && unwritten && bootIdCache == None && Valid())
      ensures osp == old(osp) && lastPath == old(lastPath) && comments == old(comments)
    {
      if bootParams != null {
        SetBp(bootParams);
        data := StoreVersion(data, bootParams.version);
        return None;
      }
      var recovered := RecoverParams(Snapshot(), env);
      if recovered.Err? {
        return Some(recovered.error);
      }
      if recovered.value.Some? {
        var obj := ParamsObject(recovered.value.value);
        SetBp(obj);
      } else {
        SetBp(null);
      }
      err := None;
    }

    /** The four `_pop_if_set` calls of `__from_data`, made only when the
        entry has boot parameters. */
    method DropTemplated() returns (err: Option<Error>)
      requires Valid() && bootIdCache == None
      modifies this`data
      ensures bp == null ==> err.None? && data == old(data)
      ensures bp != null ==>
        var popped := PopTemplated(old(data), osp, bp.Value(), env);
        && (popped.Err? ==> err == Some(popped.error))
        && (popped.Ok? ==> err.None? && data == popped.value)
      ensures Valid()
    {
      if bp != null {
        var popped := PopTemplated(data, osp, bp.Value(), env);
        if popped.Err? {
          return Some(popped.error);
        }
        data := popped.value;
      }
      err := None;
    }

    /** `__from_file(entry_file, boot_params)` on a new entry, given the
        text of the file: read its lines, each with its line break, for the
        fields and comments, build the entry
        from them, read `boot_id` when the file name has the form of an
        entry name, and leave the entry clean with the file as its last
        path. */
    method FromFile(path: string, text: string, bootParams: BootParams?, probe: Profile, parser: LineParser,
                    byId: string -> Option<Profile>, nameMatches: bool) returns (err: Option<Error>)
      requires bp == null
      modifies this
      ensures var rd := ReadLines(FileLines(text), ReadState(map[], map[], Some(""), old(osp)), parser, byId);
        rd.Err? ==> err == Some(rd.error)
      ensures var rd := ReadLines(FileLines(text), ReadState(map[], map[], Some(""), old(osp)), parser, byId);
        rd.Ok? ==>
          var spec := FromDataSpec(Named(rd.value.data), rd.value.osp, ParamsOf(bootParams), probe, env);
          && (spec.Err? ==> err == Some(spec.error))
          && (spec.Ok? ==> comments == rd.value.comments && spec.value == (data, osp, ParamsOf(bp)))
          && (spec.Ok? && (!nameMatches || BootIdOf(Snapshot(), env).Ok?) ==> err.None?)
      ensures err.None? ==> lastPath == Some(path) && !unwritten && Valid()
      ensures err.None? && nameMatches ==> BootIdOf(Snapshot(), env).Ok?
    {
      var rd := ReadEntryLines(FileLines(text), parser, byId);
      if rd.Err? {
        return Some(rd.error);
      }
      comments := rd.value.comments;
      err := FromData(Named(rd.value.data), bootParams, probe);
      if err.None? {
        err := Loaded(path, nameMatches);
      }
    }

    /** The end of `__from_file`: `boot_id` is read when the file name has
        the form of an entry name, and the entry is left clean with the
        file as its last path. */
    method Loaded(path: string, nameMatches: bool) returns (err: Option<Error>)
      requires Valid() && bootIdCache == None
      modifies this
      ensures Holds(old(data), old(osp), old(bp), if err.None? then Some(path) else old(lastPath), old(comments))
      ensures nameMatches && BootIdOf(Snapshot(), env).Err? ==> err == Some(BootIdOf(Snapshot(), env).error)
      ensures err.None? ==> !unwritten && Valid() && (nameMatches ==> BootIdOf(Snapshot(), env).Ok?)
      ensures !nameMatches || BootIdOf(Snapshot(), env).Ok? ==> err.None?
    {
      if nameMatches {
        var id := BootId();
        if id.Err? {
          return Some(id.error);
        }
      }
      lastPath := Some(path);
      unwritten := false;
      err := None;
    }

    /** The keyword form of `__init__`, once the profile is attached: a
        machine id is required, the boot parameters and the title are set
        through their setters, an empty title is refused, and an entry
        without a profile is probed for one. */
    method InitFields(title: string, machineId: string, bootParams: BootParams?, probe: Profile) returns (err: Option<Error>)
      modifies this
      ensures machineId == "" ==> err == Some(ValueError("BootEntry machine_id cannot be None"))
      ensures machineId != "" && title == "" && HasProfile(old(osp)) ==>
        err == Some(AttributeError("'OsProfile' object has no attribute 'title'"))
      ensures machineId != "" && title == "" && !HasProfile(old(osp)) ==>
        err == Some(ValueError("BootEntry title cannot be empty"))
      ensures machineId != "" && title != "" ==>
        && err.None? && data == map[Title := title, MachineId := machineId] && bp == bootParams
        && osp == (if HasProfile(old(osp)) then old(osp) else Some(probe))
        && unwritten && bootIdCache == None && Valid()
    {
      unwritten := true;
      if machineId == "" {
        return Some(ValueError("BootEntry machine_id cannot be None"));
      }
      SetBp(bootParams);
      data := map[];
      if title != "" {
        err := SetTitle(title);
      } else if HasProfile(osp) {
        return Some(AttributeError("'OsProfile' object has no attribute 'title'"));
      } else {
        return Some(ValueError("BootEntry title cannot be empty"));
      }
      SetField(MachineId, machineId);
      if !HasProfile(osp) {
        osp := Some(probe);
      }
    }

    /** `_dirty()`. */
    method Dirty()
      modifies this
      ensures bootIdCache == None && unwritten && bpGeneration == old(bpGeneration)
      ensures Holds(old(data), old(osp), old(bp), old(lastPath), old(comments))
    {
      bootIdCache := None;
      unwritten := true;
    }

    /** The `boot_id` property: a change made through the boot parameters
        makes the entry dirty; a dirty entry or an empty cache computes the
        id afresh. What it returns is always the boot id of the current
        values. */
    method BootId() returns (r: Result<string, Error>)
      requires Valid()
      modifies this
      ensures Valid() && r == BootIdOf(Snapshot(), env)
      ensures Holds(old(data), old(osp), old(bp), old(lastPath), old(comments))
      ensures Refreshed(old(bpGeneration), old(unwritten), old(bootIdCache), r)
    {
      if bp != null && bp.generation != bpGeneration {
        bpGeneration := bp.generation;
        Dirty();
      }
      if !Truthy(bootIdCache) || unwritten {
        var text := FormatEntry(Snapshot(), env, BlsStyle, true, "");
        if text.Err? {
          return Err(text.error);
        }
        bootIdCache := Some(env.digest(text.value));
      }
      r := Ok(bootIdCache.value);
    }

    /** The setters of `machine_id`, `version`, `options`, `linux`,
        `initrd`, `efi` and `devicetree`: store the value and mark the
        entry dirty. */
    method SetField(k: EntryKey, v: string)
      requires Valid() && k != Title
      modifies this
      ensures Valid()
      ensures data == old(data)[k := v] && unwritten && bootIdCache == None
      ensures Holds(data, old(osp), old(bp), old(lastPath), old(comments)) && bpGeneration == old(bpGeneration)
    {
      data := data[k := v];
      Dirty();
    }

    /** The `title` setter: an empty title raises, `ValueError` without a
        profile and `AttributeError` with one, whose `title` it looks up. */
    method SetTitle(title: string) returns (err: Option<Error>)
      requires Valid()
      modifies this
      ensures Valid() && Holds(data, old(osp), old(bp), old(lastPath), old(comments))
      ensures title == "" && !HasProfile(osp) ==> err == Some(ValueError("Entry title cannot be empty")) && unchanged(this)
      ensures title == "" && HasProfile(osp) ==>
        err == Some(AttributeError("'OsProfile' object has no attribute 'title'")) && unchanged(this)
      ensures title != "" ==> err.None? && data == old(data)[Title := title] && unwritten && bootIdCache == None
    {
      if title == "" {
        if !HasProfile(osp) {
          return Some(ValueError("Entry title cannot be empty"));
        }
        return Some(AttributeError("'OsProfile' object has no attribute 'title'"));
      }
      data := data[Title := title];
      Dirty();
      err := None;
    }

    /** The `bp` setter: mark the entry dirty, attach the object and record
        its generation. */
    method SetBp(p: BootParams?)
      modifies this
      ensures Valid() && bp == p && unwritten && bootIdCache == None
      ensures bpGeneration == (if p != null then p.generation else 0)
      ensures Holds(old(data), old(osp), p, old(lastPath), old(comments))
    {
      Dirty();
      bp := p;
      bpGeneration := if p != null then p.generation else 0;
    }

    /** The `_entry_path` property, which reads `boot_id`. */
    method EntryPath(dir: string) returns (r: Result<string, Error>)
      requires Valid()
      modifies this
      ensures Valid() && r == PathFor(Snapshot(), env, dir)
      ensures Holds(old(data), old(osp), old(bp), old(lastPath), old(comments))
      ensures Refreshed(old(bpGeneration), old(unwritten), old(bootIdCache), BootIdOf(Snapshot(), env))
    {
      var id := BootId();
      if id.Err? {
        return Err(id.error);
      }
      r := Ok(EntryPathOf(Snapshot(), dir, id.value));
    }

    /** The text `write_entry` writes: the `#OsIdentifier:` line, then each
        set field in `ENTRY_KEYS` order after the comment read with it. */
    method WriteText() returns (r: Result<string, Error>)
      ensures r == FileText(Snapshot(), env, comments)
    {
      var header := Header(osp);
      if header.Err? {
        return Err(header.error);
      }
      var fields := SetFields(Snapshot(), env, EntryKeyOrder);
      if fields.Err? {
        return Err(fields.error);
      }
      var text := WriteFields(fields.value, comments);
      r := Ok(header.value + text);
    }

    /** `write_entry(force)`: a clean entry is not written unless forced;
        otherwise the file at the entry's path gets the entry's text, the
        entry becomes clean and is added to the loaded entries. */
    method WriteEntry(fs: FileSystem, dir: string, list: EntryList, force: bool) returns (err: Option<Error>)
      requires Valid()
      modifies this, fs, list
      ensures Valid()
      ensures data == old(data) && osp == old(osp) && bp == old(bp) && comments == old(comments)
      ensures !old(unwritten) && !force ==> err.None? && unchanged(this) && unchanged(fs) && unchanged(list)
      ensures old(unwritten) || force ==>
        var path, text := PathFor(Snapshot(), env, dir), FileText(Snapshot(), env, comments);
        && (bp != null ==> bpGeneration == bp.generation)
        && (path.Err? ==> err == Some(path.error) && unchanged(fs) && unchanged(list) && lastPath == old(lastPath))
        && (path.Ok? && text.Err? ==> err == Some(text.error) && unchanged(fs) && unchanged(list) && lastPath == old(lastPath))
        && (path.Ok? && text.Ok? ==>
              && fs.files == old(fs.files)[path.value := text.value]
              && lastPath == Some(path.value) && !unwritten && bootIdCache == Some(BootIdOf(Snapshot(), env).value)
              && Added(old(list.entries), list.entries, this, err))
    {
      if !unwritten && !force {
        return None;
      }
      var path := EntryPath(dir);
      if path.Err? {
        return Some(path.error);
      }
      var text := WriteText();
      if text.Err? {
        return Some(text.error);
      }
      err := Store(fs, list, path.value, text.value);
    }

    /** The end of `write_entry`, once the text is written to `path`: the
        entry remembers the path, becomes clean and is added to the loaded
        entries. */
    method Store(fs: FileSystem, list: EntryList, path: string, text: string) returns (err: Option<Error>)
      requires Valid() && bootIdCache.Some? && (bp != null ==> bpGeneration == bp.generation)
      requires BootIdOf(Snapshot(), env) == Ok(bootIdCache.value)
      modifies this, fs, list
      ensures Valid()
      ensures Holds(old(data), old(osp), old(bp), Some(path), old(comments))
      ensures !unwritten && bootIdCache == old(bootIdCache) && bpGeneration == old(bpGeneration)
      ensures fs.files == old(fs.files)[path := text]
      ensures Added(old(list.entries), list.entries, this, err)
    {
      fs.files := fs.files[path := text];
      lastPath := Some(path);
      unwritten := false;
      err := list.AddEntry(this);
    }

    /** `update_entry(force)` as written: remember the last path, write,
        then unlink the remembered file when the entry's path is another.
        A clean entry is not written, so when its path has moved (its boot
        parameters were changed in place, or it was read from a file under
        another name) its only file is unlinked. */
    method UpdateEntry(fs: FileSystem, dir: string, list: EntryList, force: bool) returns (err: Option<Error>)
      requires Valid()
      modifies this, fs, list
      ensures Valid()
      ensures data == old(data) && osp == old(osp) && bp == old(bp) && comments == old(comments)
      ensures err.None? ==> PathFor(Snapshot(), env, dir).Ok? && (old(unwritten) || force ==> FileText(Snapshot(), env, comments).Ok?)
      ensures err.None? ==>
        var path := PathFor(Snapshot(), env, dir).value;
        var written := if old(unwritten) || force then old(fs.files)[path := FileText(Snapshot(), env, comments).value] else old(fs.files);
        fs.files == written - Moved(old(lastPath), path)
      ensures err.None? && !old(unwritten) && !force && old(lastPath).Some? && old(lastPath).value in old(fs.files) ==>
        var path := PathFor(Snapshot(), env, dir).value;
        old(lastPath).value != path && path !in old(fs.files) ==>
          old(lastPath).value !in fs.files && path !in fs.files
      ensures PathFor(Snapshot(), env, dir).Ok?
              && (old(unwritten) || force ==> FileText(Snapshot(), env, comments).Ok? && Member(old(list.entries), this).Ok?)
              ==> err.None?
    {
      var toUnlink := lastPath;
      ghost var files := fs.files;
      err := WriteEntry(fs, dir, list, force);
      if err.Some? {
        return;
      }
      err := UnlinkMoved(fs, dir, toUnlink);
      if err.None? && !old(unwritten) && !force && toUnlink.Some? && toUnlink.value in files {
        var path := PathFor(Snapshot(), env, dir).value;
        if toUnlink.value != path && path !in files {
          CleanMovedUpdateLosesEntry(files, toUnlink.value, path);
        }
      }
    }

    /** The end of `update_entry`: unlink `toUnlink` when the entry's path,
        read again through `boot_id`, is another. */
    method UnlinkMoved(fs: FileSystem, dir: string, toUnlink: Option<string>) returns (err: Option<Error>)
      requires Valid()
      modifies this, fs
      ensures Valid()
      ensures Holds(old(data), old(osp), old(bp), old(lastPath), old(comments))
      ensures var path := PathFor(Snapshot(), env, dir);
        && (path.Err? ==> err == Some(path.error) && fs.files == old(fs.files))
        && (path.Ok? ==> err.None? && fs.files == old(fs.files) - Moved(toUnlink, path.value))
    {
      var path := EntryPath(dir);
      if path.Err? {
        return Some(path.error);
      }
      if toUnlink.Some? && toUnlink.value != path.value {
        fs.files := fs.files - {toUnlink.value};
      }
      err := None;
    }

    /** `update_entry(force)` as its documentation describes it: the old
        file is unlinked only once the entry has been written under its new
        path. The boot id is read first, so a change made through the boot
        parameters counts as a change, and an entry whose path moves is
        written there. */
    method UpdateEntryWritingFirst(fs: FileSystem, dir: string, list: EntryList, force: bool) returns (err: Option<Error>)
      requires Valid()
      modifies this, fs, list
      ensures Valid()
      ensures data == old(data) && osp == old(osp) && bp == old(bp) && comments == old(comments)
      ensures err.None? ==> PathFor(Snapshot(), env, dir).Ok? && lastPath == Some(PathFor(Snapshot(), env, dir).value)
      ensures err.None? && old(lastPath).Some? && old(lastPath).value in old(fs.files) ==> lastPath.value in fs.files
      ensures err.None? && (old(unwritten) || force || (old(bp) != null && old(bp.generation) != old(bpGeneration))) ==>
        var path, text := PathFor(Snapshot(), env, dir).value, FileText(Snapshot(), env, comments);
        text.Ok? && path in fs.files && fs.files[path] == text.value
      ensures forall p :: p in old(fs.files) && p !in fs.files ==> err.None? && Some(p) == old(lastPath)
      ensures PathFor(Snapshot(), env, dir).Ok? && FileText(Snapshot(), env, comments).Ok? && Member(old(list.entries), this).Ok?
              ==> err.None?
    {
      var toUnlink := lastPath;
      var path := EntryPath(dir);
      if path.Err? {
        return Some(path.error);
      }
      err := WriteEntry(fs, dir, list, force || toUnlink != Some(path.value));
      if err.Some? {
        return;
      }
      if toUnlink.Some? && toUnlink.value != path.value {
        fs.files := fs.files - {toUnlink.value};
      }
    }

    /** `delete_entry()`: the file at the entry's path must exist; it is
        removed, and an entry that was written or read from disk leaves the
        loaded entries. */
    method DeleteEntry(fs: FileSystem, dir: string, list: EntryList) returns (err: Option<Error>)
      requires Valid()
      modifies this, fs, list
      ensures Valid()
      ensures Holds(old(data), old(osp), old(bp), old(lastPath), old(comments))
      ensures PathFor(Snapshot(), env, dir).Err? ==> err == Some(PathFor(Snapshot(), env, dir).error) && unchanged(fs) && unchanged(list)
      ensures PathFor(Snapshot(), env, dir).Ok? && PathFor(Snapshot(), env, dir).value !in old(fs.files) ==>
        err == Some(ValueError("Entry does not exist: " + PathFor(Snapshot(), env, dir).value)) && unchanged(fs) && unchanged(list)
      ensures PathFor(Snapshot(), env, dir).Ok? && PathFor(Snapshot(), env, dir).value in old(fs.files) ==>
        && fs.files == old(fs.files) - {PathFor(Snapshot(), env, dir).value}
        && (unwritten ==> err.None? && unchanged(list))
        && (!unwritten ==> Removed(old(list.entries), list.entries, this, err))
    {
      var path := EntryPath(dir);
      if path.Err? {
        return Some(path.error);
      }
      if path.value !in fs.files {
        return Some(ValueError("Entry does not exist: " + path.value));
      }
      fs.files := fs.files - {path.value};
      err := None;
      if !unwritten {
        err := list.DelEntry(this);
      }
    }
  }

  /** `BootEntry(title, machine_id, osprofile, boot_params, entry_file,
      entry_data)`: the `osprofile` argument is attached first; non-empty
      `entry_data` builds the entry from data, else a non-empty
      `entry_file` builds it from the file's `text` (`nameMatches` says
      whether the file name has the form of an entry name), else the
      keyword form applies. */
  method NewBootEntry(env: Env, title: string, machineId: string, osprofile: Option<Profile>, bootParams: BootParams?,
                      entryFile: string, entryData: map<string, string>, text: string, nameMatches: bool,
                      probe: Profile, parser: LineParser, byId: string -> Option<Profile>)
    returns (r: Result<BootEntry, Error>)
    ensures r.Ok? ==> fresh(r.value) && r.value.env == env && r.value.Valid()
    ensures entryData != map[] ==>
      var spec := FromDataSpec(entryData, osprofile, ParamsOf(bootParams), probe, env);
      && (spec.Err? ==> r == Err(spec.error))
      && (spec.Ok? ==> r.Ok? && r.value.unwritten && spec.value == (r.value.data, r.value.osp, ParamsOf(r.value.bp)))
    ensures entryData == map[] && entryFile != "" ==>
      var rd := ReadLines(FileLines(text), ReadState(map[], map[], Some(""), osprofile), parser, byId);
      && (rd.Err? ==> r == Err(rd.error))
      && (rd.Ok? ==>
            var spec := FromDataSpec(Named(rd.value.data), rd.value.osp, ParamsOf(bootParams), probe, env);
            && (spec.Err? ==> r == Err(spec.error))
            && (spec.Ok? && (!nameMatches || BootIdOf(Entry(spec.value.0, spec.value.1, spec.value.2), env).Ok?) ==> r.Ok?)
            && (r.Ok? ==> && spec.Ok? && spec.value == (r.value.data, r.value.osp, ParamsOf(r.value.bp))
                          && r.value.comments == rd.value.comments && r.value.lastPath == Some(entryFile)
                          && !r.value.unwritten))
    ensures entryData == map[] && entryFile == "" ==>
      && (machineId == "" ==> r == Err(ValueError("BootEntry machine_id cannot be None")))
      && (machineId != "" && title == "" && HasProfile(osprofile) ==>
            r == Err(AttributeError("'OsProfile' object has no attribute 'title'")))
      && (machineId != "" && title == "" && !HasProfile(osprofile) ==> r == Err(ValueError("BootEntry title cannot be empty")))
      && (machineId != "" && title != "" ==>
            && r.Ok? && r.value.data == map[Title := title, MachineId := machineId] && r.value.bp == bootParams
            && r.value.osp == (if HasProfile(osprofile) then osprofile else Some(probe)) && r.value.unwritten)
  {
    var be := new BootEntry.Blank(env, osprofile);
    var err: Option<Error>;
    if entryData != map[] {
      err := be.FromData(entryData, bootParams, probe);
    } else if entryFile != "" {
      err := be.FromFile(entryFile, text, bootParams, probe, parser, byId, nameMatches);
    } else {
      err := be.InitFields(title, machineId, bootParams, probe);
    }
    r := if err.Some? then Err(err.value) else Ok(be);
  }

  /** Edits made directly on the attached boot parameters keep an entry
      valid: each setter of `BootParams` advances `generation`, so a cached
      boot id is no longer trusted once the values change. */
  twostate lemma ParamsEditKeepsValid(be: BootEntry)
    requires old(be.Valid()) && unchanged(be)
    requires be.bp != null ==> old(be.bp.generation) <= be.bp.generation
    requires be.bp != null && old(be.bp.generation) == be.bp.generation ==> be.bp.Value() == old(be.bp.Value())
    ensures be.Valid()
  {
  }

  /** The old path an update unlinks: the one it had, when the entry's
      path is now another. */
  function Moved(lastPath: Option<string>, path: string): (r: set<string>)
    ensures r == {} || (lastPath.Some? && r == {lastPath.value} && lastPath.value != path)
  {
    if lastPath.Some? && lastPath.value != path then {lastPath.value} else {}
  }

  /** The files `UpdateEntry` leaves for a clean entry updated without
      `force` whose path has moved away from the file it was read from
      (nothing is written, so the files are as they were, minus the moved
      path): that file is unlinked, nothing exists under the new path, and
      the entry is left with no file at all. */
  lemma CleanMovedUpdateLosesEntry(files: map<string, string>, last: string, path: string)
    requires last in files && last != path && path !in files
    ensures var after := files - Moved(Some(last), path);
      && last !in after && path !in after
      && after.Keys == files.Keys - {last}
  {
  }

  /** `a == b` for entries: `__eq__` of `a` first asks `hasattr(b,
      "boot_id")`, which hides an `AttributeError` of `b`'s boot id, then
      compares the two boot ids. */
  function EntryEq(a: BootEntry, b: BootEntry): Result<bool, Error>
    reads a, a.bp, b, b.bp
  {
    var other := BootIdOf(b.Snapshot(), b.env);
    if other.Err? then (if other.error.AttributeError? then Ok(false) else Err(other.error))
    else
      var mine :- BootIdOf(a.Snapshot(), a.env);
      Ok(mine == other.value)
  }

  /** The first position where `list.remove` and `in` find `be`: the same
      object, or an entry equal to it, compared with `be` on the left. */
  function FirstEqual(es: seq<BootEntry>, be: BootEntry): (r: Result<Option<nat>, Error>)
    reads set x | x in es, set x | x in es :: x.bp, be, be.bp
    ensures r.Ok? && r.value.Some? ==>
      r.value.value < |es| && (es[r.value.value] == be || EntryEq(be, es[r.value.value]) == Ok(true))
    ensures r.Ok? ==> forall j :: 0 <= j < |es| && (r.value.None? || j < r.value.value) ==>
      es[j] != be && EntryEq(be, es[j]) == Ok(false)
  {
    if es == [] then Ok(None)
    else if es[0] == be then Ok(Some(0))
    else
      var eq :- EntryEq(be, es[0]);
      if eq then Ok(Some(0))
      else
        var i :- FirstEqual(es[1..], be);
        Ok(if i.Some? then Some(i.value + 1) else None)
  }

  /** `be in es`. */
  function Member(es: seq<BootEntry>, be: BootEntry): Result<bool, Error>
    reads set x | x in es, set x | x in es :: x.bp, be, be.bp
  {
    var i :- FirstEqual(es, be);
    Ok(i.Some?)
  }

  /** What `_add_entry(be)` does to the list: append the entry unless it is
      already in it. */
  ghost predicate Added(before: seq<BootEntry>, after: seq<BootEntry>, be: BootEntry, err: Option<Error>)
    reads set x | x in before, set x | x in before :: x.bp, be, be.bp
  {
    var m := Member(before, be);
    && (m.Err? ==> err == Some(m.error) && after == before)
    && (m.Ok? ==> err.None? && after == if m.value then before else before + [be])
  }

  /** What `_del_entry(be)` does to the list: remove the first entry equal
      to it, or raise `ValueError` when there is none. */
  ghost predicate Removed(before: seq<BootEntry>, after: seq<BootEntry>, be: BootEntry, err: Option<Error>)
    reads set x | x in before, set x | x in before :: x.bp, be, be.bp
  {
    var i := FirstEqual(before, be);
    && (i.Err? ==> err == Some(i.error) && after == before)
    && (i.Ok? && i.value.None? ==> err == Some(ValueError("list.remove(x): x not in list")) && after == before)
    && (i.Ok? && i.value.Some? ==> err.None? && after == before[..i.value.value] + before[i.value.value + 1..])
  }

  /** The entries of `es` that `select_entry` accepts, in order. */
  function Found(es: seq<BootEntry>, s: Selection): (r: Result<seq<BootEntry>, Error>)
    reads set x | x in es, set x | x in es :: x.bp
    ensures r.Ok? ==> |r.value| <= |es|
  {
    if es == [] then Ok([])
    else
      var keep :- SelectEntry(s, es[0].Snapshot(), es[0].env);
      var rest :- Found(es[1..], s);
      Ok(if keep then [es[0]] + rest else rest)
  }

  /** `_entries`. */
  class EntryList {
    var entries: seq<BootEntry>

    /** `drop_entries()`'s empty list. */
    constructor ()
      ensures entries == []
    {
      entries := [];
    }

    /** `_add_entry(be)`. */
    method AddEntry(be: BootEntry) returns (err: Option<Error>)
      modifies this
      ensures Added(old(entries), entries, be, err)
    {
      var m := Member(entries, be);
      if m.Err? {
        return Some(m.error);
      }
      if !m.value {
        entries := entries + [be];
      }
      err := None;
    }

    /** `_del_entry(be)`. */
    method DelEntry(be: BootEntry) returns (err: Option<Error>)
      modifies this
      ensures Removed(old(entries), entries, be, err)
    {
      var i := FirstEqual(entries, be);
      if i.Err? {
        return Some(i.error);
      }
      if i.value.None? {
        return Some(ValueError("list.remove(x): x not in list"));
      }
      entries := entries[..i.value.value] + entries[i.value.value + 1..];
      err := None;
    }

    /** `drop_entries()`. */
    method DropEntries()
      modifies this
      ensures entries == []
    {
      entries := [];
    }

    /** `find_entries(selection)` over the loaded entries: those the
        selection accepts, in list order; no selection selects with no
        criteria. */
    method FindEntries(selection: Option<Selection>) returns (r: Result<seq<BootEntry>, Error>)
      ensures r == Found(entries, selection.GetOr(NoCriteria))
    {
      var s := selection.GetOr(NoCriteria);
      var matches: seq<BootEntry> := [];
      OP.ThenNil(Found(entries, s));
      for i := 0 to |entries|
        invariant OP.Then(matches, Found(entries[i..], s)) == Found(entries, s)
      {
        var be := entries[i];
        assert entries[i..][0] == be && entries[i..][1..] == entries[i + 1..];
        var keep := SelectEntry(s, be.Snapshot(), be.env);
        if keep.Err? {
          return Err(keep.error);
        }
        if keep.value {
          OP.ThenAppend(matches, be, Found(entries[i + 1..], s));
          matches := matches + [be];
        }
      }
      assert Found(entries[|entries|..], s) == Ok([]);
      assert matches + [] == matches;
      r := Ok(matches);
    }
  }

  /** An entry the list did not hold is in it once added. */
  lemma AddedIsMember(before: seq<BootEntry>, after: seq<BootEntry>, be: BootEntry)
    requires Added(before, after, be, None)
    ensures Member(after, be) == Ok(true)
  {
    if Member(before, be) == Ok(false) {
      var es := before + [be];
      assert es[|before|] == be;
      forall j | 0 <= j < |es| && es[j] != be
        ensures EntryEq(be, es[j]).Ok?
      {
        assert j < |before| && es[j] == before[j];
      }
      FirstEqualSame(es, be);
    }
  }

  /** `be in es` holds for a list that holds `be` itself, whatever the boot
      ids, when nothing before it raises. */
  lemma {:induction false} FirstEqualSame(es: seq<BootEntry>, be: BootEntry)
    requires be in es
    requires forall j :: 0 <= j < |es| && es[j] != be ==> EntryEq(be, es[j]).Ok?
    ensures FirstEqual(es, be).Ok? && FirstEqual(es, be).value.Some?
  {
    if es[0] != be {
      FirstEqualSame(es[1..], be);
    }
  }

  /** The entries found are exactly the listed entries the selection
      accepts. */
  lemma {:induction false} FoundMembers(es: seq<BootEntry>, s: Selection)
    requires Found(es, s).Ok?
    ensures forall x :: x in Found(es, s).value <==> x in es && SelectEntry(s, x.Snapshot(), x.env) == Ok(true)
  {
    if es != [] {
      FoundMembers(es[1..], s);
      assert forall x :: x in es <==> x == es[0] || x in es[1..];
    }
  }
}
