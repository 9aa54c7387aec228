/** `BootParams.from_entry` (boom/bootloader.py): boot parameters recovered
    from an entry's options line by matching its words against the
    `(key, regex)` pairs of the profile's options template. The regular
    expression engine is the `search` / `matchStart` oracle of `Env`. */
module Recovery {
  import opened Wrappers
  import opened PyStr
  import opened Externals
  import opened Profiles
  import opened FormatRegexes
  import opened Params
  import opened Templating

  /** The options that `is_del` never reports as deleted: they are only
      templated when the matching boot parameter is set. */
  predicate Ignored(name: string) {
    name == "rootflags" || name == "rd.lvm.lv" || name == "subvol" || name == "subvolid"
  }

  /** `re.search(exp, word)` for a keyed pair, `re.match(exp, word)` for a
      plain word. */
  function RegexTest(env: Env, rw: RegexWord, word: string): RegexMatch {
    if rw.key.Some? then env.search(rw.expr, word) else env.matchStart(rw.expr, word)
  }

  /** `setattr(bp, name, value)`: the attributes of `BootParams` a pair can
      name; any other name sets an attribute nothing reads. */
  function SetParam(p: Params, key: Option<FormatKey>, value: string): (q: Params)
    ensures q.addOpts == p.addOpts && q.delOpts == p.delOpts
  {
    if key == Some(FmtVersion) then p.(version := Some(value))
    else if key == Some(FmtLvmRootLv) then p.(lvmRootLv := Some(value))
    else if key == Some(FmtBtrfsSubvolId) then p.(btrfsSubvolId := Some(value))
    else if key == Some(FmtBtrfsSubvolPath) then p.(btrfsSubvolPath := Some(value))
    else if key == Some(FmtRootDevice) then p.(rootDevice := Some(value))
    else p
  }

  /** The state of the inner loop: the parameters so far, the words matched
      so far (the keys of `matches`) and the last captured `value`. */
  datatype Scan = Scan(p: Params, matched: set<string>, value: string)

  /** The inner loop: one pair against every word of the options line. A
      match records the word, takes group 1 as the value when there is one,
      and assigns the value to the pair's attribute. */
  function MatchWords(env: Env, rw: RegexWord, words: seq<string>, st: Scan): Scan
    decreases |words|
  {
    if words == [] then st
    else
      var m := RegexTest(env, rw, words[0]);
      var st' := if m.NoMatch? then st
                 else
                   var v := if m.group1.Some? then m.group1.value else st.value;
                   Scan(SetParam(st.p, rw.key, v), st.matched + {words[0]}, v);
      MatchWords(env, rw, words[1..], st')
  }

  /** The outer loop over the pairs; a `root_device` pair that captured
      nothing sets the root device to `""`. */
  function MatchRegexes(env: Env, rws: seq<RegexWord>, words: seq<string>, p: Params, matched: set<string>): (Params, set<string>)
    decreases |rws|
  {
    if rws == [] then (p, matched)
    else
      var st := MatchWords(env, rws[0], words, Scan(p, matched, ""));
      var p' := if rws[0].key == Some(FmtRootDevice) && st.value == "" then SetParam(st.p, rws[0].key, "") else st.p;
      MatchRegexes(env, rws[1..], words, p', st.matched)
  }

  /** `[opt for opt in words if is_add(opt)]`. */
  function Unmatched(words: seq<string>, matched: set<string>): (r: seq<string>)
    ensures forall w :: w in r <==> w in words && w !in matched
  {
    if words == [] then []
    else (if words[0] in matched then [] else [words[0]]) + Unmatched(words[1..], matched)
  }

  /** `is_del(opt)`: the name of `opt` is not the name of any matched word,
      nor an optional boot parameter. */
  predicate IsDel(opt: string, matched: set<string>) {
    var name := BeforeFirst(opt, '=');
    (forall w :: w in matched ==> BeforeFirst(w, '=') != name) && !Ignored(name)
  }

  /** `[o for o in [r[1] for r in opts_regexes] if is_del(o)]`. */
  function Deleted(rws: seq<RegexWord>, matched: set<string>): (r: seq<string>)
    ensures forall o :: o in r <==> exists i :: 0 <= i < |rws| && rws[i].expr == o && IsDel(o, matched)
  {
    if rws == [] then []
    else
      var rest := Deleted(rws[1..], matched);
      assert forall o :: (exists i :: 0 <= i < |rws[1..]| && rws[1..][i].expr == o && IsDel(o, matched))
                     <==> (exists i :: 1 <= i < |rws| && rws[i].expr == o && IsDel(o, matched)) by {
        forall o | exists i :: 1 <= i < |rws| && rws[i].expr == o && IsDel(o, matched)
          ensures exists i :: 0 <= i < |rws[1..]| && rws[1..][i].expr == o && IsDel(o, matched)
        {
          var i :| 1 <= i < |rws| && rws[i].expr == o && IsDel(o, matched);
          assert rws[1..][i - 1] == rws[i];
        }
      }
      (if IsDel(rws[0].expr, matched) then [rws[0].expr] else []) + rest
  }

  /** The pairs of the profile's options template; the templates the pairs
      are expanded from must be present. A missing kernel or initramfs
      pattern raises `KeyError` as `key_exp` is built. A missing LVM2 or
      Btrfs template raises `TypeError` in the source only when a word
      uses one of the root-option keys; here it fails for any template.
      Every constructor fills both templates, so the two agree on every
      profile that can be built. */
  function OptionRegexes(env: Env, p: Profile): Result<seq<RegexWord>, Error> {
    var fmt := Get(p, OptionsKey).GetOr("");
    if fmt == "" then Ok([])
    else if KernelPatternKey !in p.data then Err(KeyError(Profiles.KeyName(KernelPatternKey)))
    else if InitramfsPatternKey !in p.data then Err(KeyError(Profiles.KeyName(InitramfsPatternKey)))
    else if !HasTemplates(p) then Err(TypeError("argument of type 'NoneType' is not iterable"))
    else FormatRegexes.FormatRegexes(env, p, fmt)
  }

  /** `BootParams.from_entry(be)`: `None` when the options template yields
      no pairs; otherwise the parameters matched from the options line,
      with the unmatched words (each once) as `add_opts` and the template
      words whose option is missing as `del_opts`. */
  function FromEntry(e: Entry, env: Env): Result<Option<Params>, Error> {
    var p0 :- NewParams(VersionOf(e).GetOr(""), "", "", "", "", [], []);
    var _ :- BootIdOf(e, env);
    if e.osp.None? then Err(AttributeError("make_format_regexes"))
    else
      var rws :- OptionRegexes(env, e.osp.value);
      if rws == [] then Ok(None)
      else
        var opts :- OptionsOf(e, env);
        var words := Words(opts);
        var (q, matched) := MatchRegexes(env, rws, words, p0, {});
        Ok(Some(q.(addOpts := Dedup(Unmatched(words, matched)), delOpts := Deleted(rws, matched))))
  }

  /** The two loops of `from_entry`: each pair against each word, the
      captured `value` reset for every pair. */
  method MatchLoop(env: Env, rws: seq<RegexWord>, words: seq<string>, p0: Params) returns (p: Params, matched: set<string>)
    ensures (p, matched) == MatchRegexes(env, rws, words, p0, {})
  {
    p, matched := p0, {};
    for i := 0 to |rws|
      invariant MatchRegexes(env, rws[i..], words, p, matched) == MatchRegexes(env, rws, words, p0, {})
    {
      assert rws[i..][1..] == rws[i + 1..];
      var rw := rws[i];
      var value := "";
      ghost var st0 := Scan(p, matched, value);
      for j := 0 to |words|
        invariant MatchWords(env, rw, words[j..], Scan(p, matched, value)) == MatchWords(env, rw, words, st0)
      {
        assert words[j..][1..] == words[j + 1..];
        var m := RegexTest(env, rw, words[j]);
        if m.Matched? {
          matched := matched + {words[j]};
          if m.group1.Some? {
            value := m.group1.value;
          }
          p := SetParam(p, rw.key, value);
        }
      }
      assert words[|words|..] == [];
      if rw.key == Some(FmtRootDevice) && value == "" {
        p := SetParam(p, rw.key, "");
      }
    }
    assert rws[|rws|..] == [];
  }

  /** `from_entry` as the source writes it: a loop over the pairs around
      a loop over the words of the options line. */
  method RecoverParams(e: Entry, env: Env) returns (r: Result<Option<Params>, Error>)
    ensures r == FromEntry(e, env)
  {
    var p0 := NewParams(VersionOf(e).GetOr(""), "", "", "", "", [], []);
    if p0.Err? {
      return Err(p0.error);
    }
    var id := BootIdOf(e, env);
    if id.Err? {
      return Err(id.error);
    }
    if e.osp.None? {
      return Err(AttributeError("make_format_regexes"));
    }
    var regexes := OptionRegexes(env, e.osp.value);
    if regexes.Err? {
      return Err(regexes.error);
    }
    var rws := regexes.value;
    if rws == [] {
      return Ok(None);
    }
    var opts := OptionsOf(e, env);
    if opts.Err? {
      return Err(opts.error);
    }
    var words := Words(opts.value);
    var p, matched := MatchLoop(env, rws, words, p0.value);
    return Ok(Some(p.(addOpts := Dedup(Unmatched(words, matched)), delOpts := Deleted(rws, matched))));
  }

  // ---------------------------------------------------------------------
  // What the loops compute

  /** The words some pair matches. */
  function MatchedBy(env: Env, rws: seq<RegexWord>, words: seq<string>): set<string> {
    set i, w | 0 <= i < |rws| && w in words && RegexTest(env, rws[i], w).Matched? :: w
  }

  lemma {:induction false} MatchWordsMatched(env: Env, rw: RegexWord, words: seq<string>, st: Scan)
    ensures MatchWords(env, rw, words, st).matched
         == st.matched + (set w | w in words && RegexTest(env, rw, w).Matched?)
    decreases |words|
  {
    if words != [] {
      var m := RegexTest(env, rw, words[0]);
      var st' := if m.NoMatch? then st
                 else
                   var v := if m.group1.Some? then m.group1.value else st.value;
                   Scan(SetParam(st.p, rw.key, v), st.matched + {words[0]}, v);
      MatchWordsMatched(env, rw, words[1..], st');
      assert words == [words[0]] + words[1..];
    }
  }

  lemma {:induction false} MatchRegexesMatched(env: Env, rws: seq<RegexWord>, words: seq<string>, p: Params, matched: set<string>)
    ensures MatchRegexes(env, rws, words, p, matched).1 == matched + MatchedBy(env, rws, words)
    decreases |rws|
  {
    if rws != [] {
      var st := MatchWords(env, rws[0], words, Scan(p, matched, ""));
      var p' := if rws[0].key == Some(FmtRootDevice) && st.value == "" then SetParam(st.p, rws[0].key, "") else st.p;
      MatchWordsMatched(env, rws[0], words, Scan(p, matched, ""));
      MatchRegexesMatched(env, rws[1..], words, p', st.matched);
      forall w ensures w in MatchedBy(env, rws, words) <==>
                       (w in words && RegexTest(env, rws[0], w).Matched?) || w in MatchedBy(env, rws[1..], words)
      {
        if w in MatchedBy(env, rws, words) {
          var i :| 0 <= i < |rws| && w in words && RegexTest(env, rws[i], w).Matched?;
          if i > 0 {
            assert rws[1..][i - 1] == rws[i];
          }
        }
        if w in MatchedBy(env, rws[1..], words) {
          var i :| 0 <= i < |rws[1..]| && w in words && RegexTest(env, rws[1..][i], w).Matched?;
          assert rws[i + 1] == rws[1..][i];
        }
      }
    }
  }

  /** The inner loop assigns only the attribute its pair names. */
  lemma {:induction false} MatchWordsFields(env: Env, rw: RegexWord, words: seq<string>, st: Scan)
    ensures var q := MatchWords(env, rw, words, st).p;
      && q.addOpts == st.p.addOpts && q.delOpts == st.p.delOpts
      && (rw.key != Some(FmtVersion) ==> q.version == st.p.version)
      && (rw.key != Some(FmtLvmRootLv) ==> q.lvmRootLv == st.p.lvmRootLv)
      && (rw.key != Some(FmtBtrfsSubvolId) ==> q.btrfsSubvolId == st.p.btrfsSubvolId)
      && (rw.key != Some(FmtBtrfsSubvolPath) ==> q.btrfsSubvolPath == st.p.btrfsSubvolPath)
      && (rw.key != Some(FmtRootDevice) ==> q.rootDevice == st.p.rootDevice)
      && (st.p.rootDevice.Some? ==> q.rootDevice.Some?)
    decreases |words|
  {
    if words != [] {
      var m := RegexTest(env, rw, words[0]);
      var st' := if m.NoMatch? then st
                 else
                   var v := if m.group1.Some? then m.group1.value else st.value;
                   Scan(SetParam(st.p, rw.key, v), st.matched + {words[0]}, v);
      MatchWordsFields(env, rw, words[1..], st');
    }
  }

  /** A key that labels a pair of the list. */
  predicate Labels(rws: seq<RegexWord>, k: FormatKey) {
    exists i :: 0 <= i < |rws| && rws[i].key == Some(k)
  }

  /** Attributes that no pair names keep the value they started with; the
      root device is always set once a `root_device` pair was seen. */
  lemma {:induction false} MatchRegexesFields(env: Env, rws: seq<RegexWord>, words: seq<string>, p: Params, matched: set<string>)
    ensures var q := MatchRegexes(env, rws, words, p, matched).0;
      && q.addOpts == p.addOpts && q.delOpts == p.delOpts
      && (!Labels(rws, FmtVersion) ==> q.version == p.version)
      && (!Labels(rws, FmtLvmRootLv) ==> q.lvmRootLv == p.lvmRootLv)
      && (!Labels(rws, FmtBtrfsSubvolId) ==> q.btrfsSubvolId == p.btrfsSubvolId)
      && (!Labels(rws, FmtBtrfsSubvolPath) ==> q.btrfsSubvolPath == p.btrfsSubvolPath)
      && (!Labels(rws, FmtRootDevice) ==> q.rootDevice == p.rootDevice)
      && (Labels(rws, FmtRootDevice) || p.rootDevice.Some? ==> q.rootDevice.Some?)
    decreases |rws|
  {
    if rws != [] {
      var st := MatchWords(env, rws[0], words, Scan(p, matched, ""));
      var p' := if rws[0].key == Some(FmtRootDevice) && st.value == "" then SetParam(st.p, rws[0].key, "") else st.p;
      MatchWordsFields(env, rws[0], words, Scan(p, matched, ""));
      MatchRegexesFields(env, rws[1..], words, p', st.matched);
      LabelsTail(rws, FmtVersion);
      LabelsTail(rws, FmtLvmRootLv);
      LabelsTail(rws, FmtBtrfsSubvolId);
      LabelsTail(rws, FmtBtrfsSubvolPath);
      LabelsTail(rws, FmtRootDevice);
      if rws[0].key == Some(FmtRootDevice) {
        assert st.value != "" ==> MatchWords(env, rws[0], words, Scan(p, matched, "")).p.rootDevice.Some? by {
          MatchWordsValue(env, rws[0], words, Scan(p, matched, ""));
        }
      }
    }
  }

  lemma LabelsTail(rws: seq<RegexWord>, k: FormatKey)
    requires rws != []
    ensures Labels(rws, k) <==> rws[0].key == Some(k) || Labels(rws[1..], k)
  {
    if Labels(rws, k) && rws[0].key != Some(k) {
      var i :| 0 <= i < |rws| && rws[i].key == Some(k);
      assert rws[1..][i - 1] == rws[i];
    }
    if Labels(rws[1..], k) {
      var i :| 0 <= i < |rws[1..]| && rws[1..][i].key == Some(k);
      assert rws[i + 1] == rws[1..][i];
    }
  }

  /** A captured value came from a match, which assigned the attribute. */
  lemma {:induction false} MatchWordsValue(env: Env, rw: RegexWord, words: seq<string>, st: Scan)
    requires rw.key == Some(FmtRootDevice) && (st.value != "" ==> st.p.rootDevice.Some?)
    ensures var r := MatchWords(env, rw, words, st);
            r.value != "" ==> r.p.rootDevice.Some?
    decreases |words|
  {
    if words != [] {
      var m := RegexTest(env, rw, words[0]);
      var st' := if m.NoMatch? then st
                 else
                   var v := if m.group1.Some? then m.group1.value else st.value;
                   Scan(SetParam(st.p, rw.key, v), st.matched + {words[0]}, v);
      MatchWordsValue(env, rw, words[1..], st');
    }
  }

  // ---------------------------------------------------------------------
  // Properties of `from_entry`

  /** Without an options template, or with one that holds no words (the
      templates it could expand being present), there is nothing to match
      and no parameters are recovered. */
  lemma FromEntryNoTemplate(e: Entry, env: Env)
    requires e.osp.Some?
    requires var fmt := Get(e.osp.value, OptionsKey).GetOr("");
             fmt == "" || (HasTemplates(e.osp.value) && Words(fmt) == [])
    requires VersionOf(e).GetOr("") != "" && BootIdOf(e, env).Ok?
    ensures FromEntry(e, env) == Ok(None)
  {
    var p := e.osp.value;
    var fmt := Get(p, OptionsKey).GetOr("");
    if fmt != "" && HasTemplates(p) {
      assert FormatRegexes.FormatRegexes(env, p, fmt) == WordsRegexes(env, p, []) == Ok([]);
    }
  }

  /** What the recovered parameters hold: the version when no pair names
      it, nothing for attributes no pair names, a root device whenever the
      template has a `root_device` pair; `add_opts` is each unmatched word
      once, and `del_opts` the template words whose option no word of the
      line carries and that are not optional parameters. */
  lemma FromEntryResult(e: Entry, env: Env)
    requires FromEntry(e, env).Ok? && FromEntry(e, env).value.Some?
    ensures e.osp.Some? && OptionRegexes(env, e.osp.value).Ok? && OptionsOf(e, env).Ok?
    ensures var q := FromEntry(e, env).value.value;
            var rws := OptionRegexes(env, e.osp.value).value;
            var words := Words(OptionsOf(e, env).value);
            var matched := MatchedBy(env, rws, words);
      && (!Labels(rws, FmtVersion) ==> q.version == VersionOf(e) && Truthy(q.version))
      && (!Labels(rws, FmtLvmRootLv) ==> q.lvmRootLv.None?)
      && (!Labels(rws, FmtBtrfsSubvolId) ==> q.btrfsSubvolId.None?)
      && (!Labels(rws, FmtBtrfsSubvolPath) ==> q.btrfsSubvolPath.None?)
      && (Labels(rws, FmtRootDevice) <==> q.rootDevice.Some?)
      && (forall w :: w in q.addOpts <==> w in words && w !in matched)
      && (forall i, j :: 0 <= i < j < |q.addOpts| ==> q.addOpts[i] != q.addOpts[j])
      && (forall o :: o in q.delOpts <==> exists i :: 0 <= i < |rws| && rws[i].expr == o && IsDel(o, matched))
  {
    var p0 := NewParams(VersionOf(e).GetOr(""), "", "", "", "", [], []).value;
    var rws := OptionRegexes(env, e.osp.value).value;
    var words := Words(OptionsOf(e, env).value);
    MatchRegexesMatched(env, rws, words, p0, {});
    MatchRegexesFields(env, rws, words, p0, {});
  }
}
