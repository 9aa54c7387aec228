/** `OsProfile.make_format_regexes` (boom/osprofile.py): the list of
    `(key, regex)` pairs that recovers the values of format keys from the
    words of a boot entry built from a profile template. */
module FormatRegexes {
  import opened Wrappers
  import opened PyStr
  import opened Externals
  import opened Profiles

  /** One `(key, expr)` pair; a word holding no format key has no key. */
  datatype RegexWord = RegexWord(key: Option<FormatKey>, expr: string)

  const CapAll := "(\\S+)"
  const CapNum := "(\\d+)"

  /** The keys `key_exp` expands into further templates. */
  const Expandable: set<FormatKey> :=
    {FmtLvmRootOpts, FmtBtrfsRootOpts, FmtBtrfsSubvolume, FmtRootOpts, FmtKernel, FmtInitramfs}

  /** The pairs of a template, or the error that stops their computation. */
  type Regexes = Result<seq<RegexWord>, Error>

  /** `key_regex`: keys replaced by one capturing group. */
  function KeyRegex(k: FormatKey): (r: Option<string>)
    ensures r.Some? ==> r.value == CapAll || r.value == CapNum
  {
    match k
    case FmtVersion => Some(CapAll)
    case FmtLvmRootLv => Some(CapAll)
    case FmtBtrfsSubvolId => Some(CapNum)
    case FmtBtrfsSubvolPath => Some(CapAll)
    case FmtRootDevice => Some(CapAll)
    case _ => None
  }

  /** The profile templates `key_exp` reads through the property getters;
      each getter fails when its key is absent. */
  predicate HasTemplates(p: Profile) {
    && KernelPatternKey in p.data && InitramfsPatternKey in p.data
    && RootOptsLvm2Key in p.data && RootOptsBtrfsKey in p.data
  }

  /** `key_exp`: keys expanded into further templates. */
  function KeyExp(env: Env, p: Profile, k: FormatKey): (r: Option<seq<string>>)
    requires HasTemplates(p)
    ensures r.Some? <==> k in Expandable
    ensures r.Some? ==> KeyRegex(k).None? && |r.value| > 0
  {
    match k
    case FmtLvmRootOpts => Some([p.data[RootOptsLvm2Key]])
    case FmtBtrfsRootOpts => Some([p.data[RootOptsBtrfsKey]])
    case FmtBtrfsSubvolume =>
      Some(["subvol=" + Placeholder(env, FmtBtrfsSubvolPath), "subvolid=" + Placeholder(env, FmtBtrfsSubvolId)])
    case FmtRootOpts => Some([p.data[RootOptsLvm2Key], p.data[RootOptsBtrfsKey]])
    case FmtKernel => Some([p.data[KernelPatternKey]])
    case FmtInitramfs => Some([p.data[InitramfsPatternKey]])
    case _ => None
  }

  /** `preserve_keys`. */
  predicate Preserved(k: FormatKey) {
    k.FmtKernel? || k.FmtInitramfs?
  }

  /** The key name an expansion of `key` reports under. */
  function ParentKey(keyname: Option<FormatKey>, key: FormatKey): Option<FormatKey> {
    if keyname.None? && Preserved(key) then Some(key) else keyname
  }

  /** `_substitute_keys(fmt, keyname)` called while the expansions of the
      keys in `vis` are on the call stack. A key's expansion reads only the
      profile, which does not change meanwhile, so a key entered again would
      expand the same templates without end: Python stops that with
      `RecursionError`, and so does the model. The guarded setters refuse
      only the one placeholder each guards, so a profile can hold such a
      cycle (`RootOptsLvm2SelfNesting`). Without re-entry, nesting ends
      within the six expandable keys. */
  function Subst(env: Env, p: Profile, vis: set<FormatKey>, fmt: string, keyname: Option<FormatKey>): (r: Regexes)
    requires HasTemplates(p)
    ensures r.Err? ==> r.error == RecursionError
    decreases Expandable - vis, 2, 0
  {
    SubstFrom(env, p, vis, keyname, 0, fmt, [], false)
  }

  /** The loop over `FORMAT_KEYS` from index `i` on, with the text `fmt`
      rewritten so far, the pairs `acc` produced so far and whether any key
      was handled. */
  function SubstFrom(env: Env, p: Profile, vis: set<FormatKey>, keyname: Option<FormatKey>, i: nat,
                     fmt: string, acc: seq<RegexWord>, did: bool): (r: Regexes)
    requires HasTemplates(p) && i <= |env.formatKeys|
    ensures r.Err? ==> r.error == RecursionError
    ensures r.Ok? ==> acc <= r.value
    decreases Expandable - vis, 1, |env.formatKeys| - i
  {
    if i == |env.formatKeys| then
      Ok(if did then acc else acc + [RegexWord(None, fmt)])
    else
      var key := env.formatKeys[i];
      var ph := Placeholder(env, key);
      if Contains(fmt, ph) && KeyRegex(key).Some? then
        var fmt' := Replace(fmt, ph, KeyRegex(key).value);
        var name := if keyname.Some? then keyname else Some(key);
        SubstFrom(env, p, vis, keyname, i + 1, fmt', acc + [RegexWord(name, fmt')], true)
      else if Contains(fmt, ph) && KeyExp(env, p, key).Some? then
        if key in vis then Err(RecursionError)
        else
          var expanded :- ExpandAll(env, p, vis, key, KeyExp(env, p, key).value, ParentKey(keyname, key));
          SubstFrom(env, p, vis, keyname, i + 1, fmt, acc + expanded, true)
      else
        SubstFrom(env, p, vis, keyname, i + 1, fmt, acc, did)
  }

  /** `for e in key_exp[key]: subst += _substitute_keys(e, keyname=pk)`,
      with `key` now on the call stack. */
  function ExpandAll(env: Env, p: Profile, vis: set<FormatKey>, key: FormatKey, es: seq<string>, pk: Option<FormatKey>): (r: Regexes)
    requires HasTemplates(p) && key in Expandable && key !in vis
    ensures r.Err? ==> r.error == RecursionError
    decreases Expandable - vis, 0, |es|
  {
    if es == [] then Ok([])
    else
      var first :- Subst(env, p, vis + {key}, es[0], pk);
      var rest :- ExpandAll(env, p, vis, key, es[1..], pk);
      Ok(first + rest)
  }

  /** The pairs of a sequence of words, one word after the other. */
  function WordsRegexes(env: Env, p: Profile, ws: seq<string>): (r: Regexes)
    requires HasTemplates(p)
    ensures r.Err? ==> r.error == RecursionError
  {
    if ws == [] then Ok([])
    else
      var first :- Subst(env, p, {}, ws[0], None);
      var rest :- WordsRegexes(env, p, ws[1..]);
      Ok(first + rest)
  }

  /** `make_format_regexes(fmt)`. */
  function FormatRegexes(env: Env, p: Profile, fmt: string): Regexes
    requires HasTemplates(p)
  {
    if fmt == [] then Ok([]) else WordsRegexes(env, p, Words(fmt))
  }

  // ---------------------------------------------------------------------
  // The loops of the source

  /** `_substitute_keys`, loop by loop; `vis` is the set of keys whose
      expansion is in progress further up the call stack. */
  method SubstituteKeys(env: Env, p: Profile, vis: set<FormatKey>, fmt: string, keyname: Option<FormatKey>)
    returns (r: Regexes)
    requires HasTemplates(p)
    ensures r == Subst(env, p, vis, fmt, keyname)
    decreases Expandable - vis
  {
    var subst := [];
    var didSubst := 0;
    var cur := fmt;
    for i := 0 to |env.formatKeys|
      invariant didSubst >= 0
      invariant SubstFrom(env, p, vis, keyname, i, cur, subst, didSubst > 0) == Subst(env, p, vis, fmt, keyname)
    {
      var key := env.formatKeys[i];
      var k := Placeholder(env, key);
      if Contains(cur, k) && KeyRegex(key).Some? {
        cur := Replace(cur, k, KeyRegex(key).value);
        subst := subst + [RegexWord(if keyname.Some? then keyname else Some(key), cur)];
        didSubst := didSubst + 1;
      } else if Contains(cur, k) && KeyExp(env, p, key).Some? {
        if key in vis {
          return Err(RecursionError);
        }
        ghost var rest := SubstFrom(env, p, vis, keyname, i, cur, subst, didSubst > 0);
        var pk := ParentKey(keyname, key);
        var es := KeyExp(env, p, key).value;
        ghost var before := subst;
        ghost var got: seq<RegexWord> := [];
        assert es[0..] == es;
        ThenNil(ExpandAll(env, p, vis, key, es, pk));
        for j := 0 to |es|
          invariant subst == before + got
          invariant ExpandAll(env, p, vis, key, es, pk) == Then(got, ExpandAll(env, p, vis, key, es[j..], pk))
        {
          assert es[j..][1..] == es[j + 1..];
          var more := SubstituteKeys(env, p, vis + {key}, es[j], pk);
          if more.Err? {
            return more;
          }
          ThenAssoc(got, more.value, ExpandAll(env, p, vis, key, es[j + 1..], pk));
          subst := subst + more.value;
          got := got + more.value;
        }
        assert es[|es|..] == [];
        assert subst == before + ExpandAll(env, p, vis, key, es, pk).value;
        didSubst := didSubst + 1;
        assert rest == SubstFrom(env, p, vis, keyname, i + 1, cur, subst, didSubst > 0);
      }
    }
    if didSubst == 0 {
      subst := subst + [RegexWord(None, cur)];
    }
    return Ok(subst);
  }

  /** The outcome of an expansion whose first pairs `got` are known and whose
      remaining templates give `rest`. */
  function Then(got: seq<RegexWord>, rest: Regexes): Regexes {
    if rest.Err? then rest else Ok(got + rest.value)
  }

  lemma ThenNil(rest: Regexes)
    ensures Then([], rest) == rest
  {
    if rest.Ok? {
      assert [] + rest.value == rest.value;
    }
  }

  lemma ThenAssoc(got: seq<RegexWord>, more: seq<RegexWord>, rest: Regexes)
    ensures Then(got, Then(more, rest)) == Then(got + more, rest)
  {
    if rest.Ok? {
      assert got + (more + rest.value) == (got + more) + rest.value;
    }
  }

  /** `make_format_regexes`, with its loop over the words of `fmt`. */
  method MakeFormatRegexes(env: Env, p: Profile, fmt: string) returns (r: Regexes)
    requires HasTemplates(p)
    ensures r == FormatRegexes(env, p, fmt)
  {
    var regexWords := [];
    if fmt == [] {
      return Ok(regexWords);
    }
    var words := Words(fmt);
    assert words[0..] == words;
    ThenNil(WordsRegexes(env, p, words));
    for i := 0 to |words|
      invariant FormatRegexes(env, p, fmt) == Then(regexWords, WordsRegexes(env, p, words[i..]))
    {
      assert words[i..][1..] == words[i + 1..];
      var more := SubstituteKeys(env, p, {}, words[i], None);
      if more.Err? {
        return more;
      }
      ThenAssoc(regexWords, more.value, WordsRegexes(env, p, words[i + 1..]));
      regexWords := regexWords + more.value;
    }
    assert words[|words|..] == [];
    assert regexWords + [] == regexWords;
    return Ok(regexWords);
  }

  // ---------------------------------------------------------------------
  // What the pairs mean

  /** No listed key's placeholder occurs in `fmt` from index `i` on. */
  predicate NoKeysFrom(env: Env, fmt: string, i: nat) {
    forall j :: i <= j < |env.formatKeys| ==> !Contains(fmt, Placeholder(env, env.formatKeys[j]))
  }

  /** Keys whose placeholder is absent are passed over. */
  lemma {:induction false} SubstFromSkip(env: Env, p: Profile, vis: set<FormatKey>, keyname: Option<FormatKey>, i: nat, stop: nat,
                                         fmt: string, acc: seq<RegexWord>, did: bool)
    requires HasTemplates(p) && i <= stop <= |env.formatKeys|
    requires forall j :: i <= j < stop ==> !Contains(fmt, Placeholder(env, env.formatKeys[j]))
    ensures SubstFrom(env, p, vis, keyname, i, fmt, acc, did) == SubstFrom(env, p, vis, keyname, stop, fmt, acc, did)
    decreases stop - i
  {
    if i < stop {
      SubstFromSkip(env, p, vis, keyname, i + 1, stop, fmt, acc, did);
    }
  }

  /** A word holding no format key comes back as itself, without a key. */
  lemma PlainWordRegex(env: Env, p: Profile, vis: set<FormatKey>, w: string, keyname: Option<FormatKey>)
    requires HasTemplates(p)
    requires NoKeysFrom(env, w, 0)
    ensures Subst(env, p, vis, w, keyname) == Ok([RegexWord(None, w)])
  {
    assert [] + [RegexWord(None, w)] == [RegexWord(None, w)];
    SubstFromSkip(env, p, vis, keyname, 0, |env.formatKeys|, w, [], false);
  }

  /** One step of the loop over a key captured by a single group. */
  lemma SimpleKeyStep(env: Env, p: Profile, vis: set<FormatKey>, keyname: Option<FormatKey>, i: nat,
                      fmt: string, acc: seq<RegexWord>, did: bool)
    requires HasTemplates(p) && i < |env.formatKeys|
    requires Contains(fmt, Placeholder(env, env.formatKeys[i])) && KeyRegex(env.formatKeys[i]).Some?
    ensures var fmt' := Replace(fmt, Placeholder(env, env.formatKeys[i]), KeyRegex(env.formatKeys[i]).value);
      SubstFrom(env, p, vis, keyname, i, fmt, acc, did)
      == SubstFrom(env, p, vis, keyname, i + 1, fmt',
                   acc + [RegexWord(if keyname.Some? then keyname else Some(env.formatKeys[i]), fmt')], true)
  {
  }

  /** A word whose only format key is one captured by a single group gives
      one pair: that key (or the preserved parent) and the word with the
      group in place of every occurrence of the placeholder. */
  lemma SimpleKeyWord(env: Env, p: Profile, vis: set<FormatKey>, ps: seq<Piece>, k: FormatKey, keyname: Option<FormatKey>)
    requires HasTemplates(p) && WellFormedEnv(env)
    requires PlainPieces(ps) && Ph(k) in ps && OnlyKey(ps, k)
    requires KeyRegex(k).Some? && k in env.formatKeys
    ensures Subst(env, p, vis, Render(env, ps), keyname)
         == Ok([RegexWord(if keyname.Some? then keyname else Some(k), Render(env, SubstPieces(ps, k, KeyRegex(k).value)))])
  {
    var keys := env.formatKeys;
    var w, v := Render(env, ps), KeyRegex(k).value;
    var i0 :| 0 <= i0 < |keys| && keys[i0] == k;
    forall j | 0 <= j < i0
      ensures !Contains(w, Placeholder(env, keys[j]))
    {
      OtherKeyAbsent(env, ps, k, keys[j]);
    }
    SubstFromSkip(env, p, vis, keyname, 0, i0, w, [], false);
    RenderContains(env, ps, k);
    RenderReplace(env, ps, k, v);
    var rendered := Render(env, SubstPieces(ps, k, v));
    var first := [RegexWord(if keyname.Some? then keyname else Some(k), rendered)];
    SimpleKeyStep(env, p, vis, keyname, i0, w, [], false);
    assert [] + first == first;
    forall j | i0 + 1 <= j < |keys|
      ensures !Contains(rendered, Placeholder(env, keys[j]))
    {
      SubstitutedIsPlain(env, ps, k, v, keys[j]);
    }
    SubstFromSkip(env, p, vis, keyname, i0 + 1, |keys|, rendered, first, true);
  }

  /** A word whose only format key is `lvm_root_opts`, met while that key is
      already being expanded: `_substitute_keys` would expand it again. */
  lemma {:induction false} LvmRootOptsReentered(env: Env, p: Profile, vis: set<FormatKey>, ps: seq<Piece>, keyname: Option<FormatKey>)
    requires HasTemplates(p) && WellFormedEnv(env)
    requires PlainPieces(ps) && Ph(FmtLvmRootOpts) in ps && OnlyKey(ps, FmtLvmRootOpts)
    requires FmtLvmRootOpts in env.formatKeys
    ensures var keys := env.formatKeys;
      exists i0 :: 0 <= i0 < |keys| && keys[i0] == FmtLvmRootOpts
        && SubstFrom(env, p, vis, keyname, 0, Render(env, ps), [], false) == SubstFrom(env, p, vis, keyname, i0, Render(env, ps), [], false)
        && Contains(Render(env, ps), Placeholder(env, keys[i0]))
  {
    var keys := env.formatKeys;
    var i0 :| 0 <= i0 < |keys| && keys[i0] == FmtLvmRootOpts;
    forall j | 0 <= j < i0
      ensures !Contains(Render(env, ps), Placeholder(env, keys[j]))
    {
      OtherKeyAbsent(env, ps, FmtLvmRootOpts, keys[j]);
    }
    SubstFromSkip(env, p, vis, keyname, 0, i0, Render(env, ps), [], false);
    RenderContains(env, ps, FmtLvmRootOpts);
  }

  /** With `root_opts_lvm2` holding a word whose only key is
      `lvm_root_opts`, that word expands into itself: whatever is on the
      call stack, `_substitute_keys` ends in `RecursionError`. */
  lemma {:induction false} LvmRootOptsCycle(env: Env, p: Profile, vis: set<FormatKey>, ps: seq<Piece>, keyname: Option<FormatKey>)
    requires HasTemplates(p) && WellFormedEnv(env)
    requires PlainPieces(ps) && Ph(FmtLvmRootOpts) in ps && OnlyKey(ps, FmtLvmRootOpts)
    requires FmtLvmRootOpts in env.formatKeys
    requires p.data[RootOptsLvm2Key] == Render(env, ps)
    ensures Subst(env, p, vis, Render(env, ps), keyname) == Err(RecursionError)
    decreases Expandable - vis
  {
    var w := Render(env, ps);
    LvmRootOptsReentered(env, p, vis, ps, keyname);
    var i0 :| 0 <= i0 < |env.formatKeys| && env.formatKeys[i0] == FmtLvmRootOpts
        && SubstFrom(env, p, vis, keyname, 0, w, [], false) == SubstFrom(env, p, vis, keyname, i0, w, [], false)
        && Contains(w, Placeholder(env, env.formatKeys[i0]));
    if FmtLvmRootOpts !in vis {
      var pk := ParentKey(keyname, FmtLvmRootOpts);
      LvmRootOptsCycle(env, p, vis + {FmtLvmRootOpts}, ps, pk);
      assert ExpandAll(env, p, vis, FmtLvmRootOpts, [w], pk) == Err(RecursionError);
    }
  }

  /** A profile can hold such a cycle: the `root_opts_lvm2` setter guards
      only `%{root_opts}`, so it accepts a template that refers to
      `%{lvm_root_opts}`, and `make_format_regexes` then raises
      `RecursionError` on that template. */
  lemma RootOptsLvm2SelfNesting(env: Env, p0: Profile, ps: seq<Piece>)
    requires HasTemplates(p0) && WellFormedEnv(env)
    requires PlainPieces(ps) && Ph(FmtLvmRootOpts) in ps && OnlyKey(ps, FmtLvmRootOpts)
    requires FmtLvmRootOpts in env.formatKeys && IsWord(Render(env, ps))
    ensures var r := SetProperty(p0, RootOptsLvm2Key, Render(env, ps), env);
      && r.Ok? && HasTemplates(r.value)
      && FormatRegexes(env, r.value, Render(env, ps)) == Err(RecursionError)
  {
    assert forall i :: 0 <= i < |ps| ==> ps[i] != Ph(FmtRootOpts);
    SetPropertyAcceptsTemplate(p0, RootOptsLvm2Key, ps, env);
    var p := SetProperty(p0, RootOptsLvm2Key, Render(env, ps), env).value;
    LvmRootOptsCycle(env, p, {}, ps, None);
    SingleWordRegexes(env, p, Render(env, ps));
  }

  /** A key reported to the caller is a key captured by one group, or a
      preserved parent key; below a preserved parent, only that parent. */
  predicate Labelled(e: RegexWord, keyname: Option<FormatKey>) {
    if keyname.Some? then e.key.None? || e.key == keyname
    else e.key.None? || KeyRegex(e.key.value).Some? || Preserved(e.key.value)
  }

  predicate AllLabelled(ws: seq<RegexWord>, keyname: Option<FormatKey>) {
    forall i :: 0 <= i < |ws| ==> Labelled(ws[i], keyname)
  }

  lemma AllLabelledAppend(a: seq<RegexWord>, b: seq<RegexWord>, keyname: Option<FormatKey>)
    requires AllLabelled(a, keyname) && AllLabelled(b, keyname)
    ensures AllLabelled(a + b, keyname)
  {
    forall i | 0 <= i < |a + b|
      ensures Labelled((a + b)[i], keyname)
    {
      if i >= |a| {
        assert (a + b)[i] == b[i - |a|];
      }
    }
  }

  /** Labels under a parent key also satisfy the labelling of the caller
      that chose that parent. */
  lemma ParentLabelling(ws: seq<RegexWord>, keyname: Option<FormatKey>, key: FormatKey)
    requires AllLabelled(ws, ParentKey(keyname, key))
    ensures AllLabelled(ws, keyname)
  {
  }

  lemma {:induction false} SubstLabelled(env: Env, p: Profile, vis: set<FormatKey>, fmt: string, keyname: Option<FormatKey>)
    requires HasTemplates(p)
    ensures var r := Subst(env, p, vis, fmt, keyname); r.Ok? ==> AllLabelled(r.value, keyname)
    decreases Expandable - vis, 2, 0
  {
    SubstFromLabelled(env, p, vis, keyname, 0, fmt, [], false);
  }

  lemma {:induction false} SubstFromLabelled(env: Env, p: Profile, vis: set<FormatKey>, keyname: Option<FormatKey>, i: nat,
                                             fmt: string, acc: seq<RegexWord>, did: bool)
    requires HasTemplates(p) && i <= |env.formatKeys|
    requires AllLabelled(acc, keyname)
    ensures var r := SubstFrom(env, p, vis, keyname, i, fmt, acc, did); r.Ok? ==> AllLabelled(r.value, keyname)
    decreases Expandable - vis, 1, |env.formatKeys| - i
  {
    if i == |env.formatKeys| {
      AllLabelledAppend(acc, [RegexWord(None, fmt)], keyname);
    } else {
      var key := env.formatKeys[i];
      var ph := Placeholder(env, key);
      if Contains(fmt, ph) && KeyRegex(key).Some? {
        var fmt' := Replace(fmt, ph, KeyRegex(key).value);
        var name := if keyname.Some? then keyname else Some(key);
        AllLabelledAppend(acc, [RegexWord(name, fmt')], keyname);
        SubstFromLabelled(env, p, vis, keyname, i + 1, fmt', acc + [RegexWord(name, fmt')], true);
      } else if Contains(fmt, ph) && KeyExp(env, p, key).Some? {
        if key !in vis {
          var pk := ParentKey(keyname, key);
          var expanded := ExpandAll(env, p, vis, key, KeyExp(env, p, key).value, pk);
          ExpandAllLabelled(env, p, vis, key, KeyExp(env, p, key).value, pk);
          if expanded.Ok? {
            ParentLabelling(expanded.value, keyname, key);
            AllLabelledAppend(acc, expanded.value, keyname);
            SubstFromLabelled(env, p, vis, keyname, i + 1, fmt, acc + expanded.value, true);
          }
        }
      } else {
        SubstFromLabelled(env, p, vis, keyname, i + 1, fmt, acc, did);
      }
    }
  }

  lemma {:induction false} ExpandAllLabelled(env: Env, p: Profile, vis: set<FormatKey>, key: FormatKey, es: seq<string>, pk: Option<FormatKey>)
    requires HasTemplates(p) && key in Expandable && key !in vis
    ensures var r := ExpandAll(env, p, vis, key, es, pk); r.Ok? ==> AllLabelled(r.value, pk)
    decreases Expandable - vis, 0, |es|
  {
    if es != [] {
      SubstLabelled(env, p, vis + {key}, es[0], pk);
      ExpandAllLabelled(env, p, vis, key, es[1..], pk);
      var first, rest := Subst(env, p, vis + {key}, es[0], pk), ExpandAll(env, p, vis, key, es[1..], pk);
      if first.Ok? && rest.Ok? {
        AllLabelledAppend(first.value, rest.value, pk);
      }
    }
  }

  /** Every key `make_format_regexes` reports is one captured by a single
      group (`key_regex`) or one of `preserve_keys`. */
  lemma FormatRegexesLabelled(env: Env, p: Profile, fmt: string)
    requires HasTemplates(p)
    ensures var r := FormatRegexes(env, p, fmt); r.Ok? ==> AllLabelled(r.value, None)
  {
    if fmt != [] {
      WordsRegexesLabelled(env, p, Words(fmt));
    }
  }

  lemma {:induction false} WordsRegexesLabelled(env: Env, p: Profile, ws: seq<string>)
    requires HasTemplates(p)
    ensures var r := WordsRegexes(env, p, ws); r.Ok? ==> AllLabelled(r.value, None)
  {
    if ws != [] {
      SubstLabelled(env, p, {}, ws[0], None);
      WordsRegexesLabelled(env, p, ws[1..]);
      var first, rest := Subst(env, p, {}, ws[0], None), WordsRegexes(env, p, ws[1..]);
      if first.Ok? && rest.Ok? {
        AllLabelledAppend(first.value, rest.value, None);
      }
    }
  }

  /** The outcome of two computations run one after the other: the first
      error, or both lists of pairs. */
  function Both(a: Regexes, b: Regexes): Regexes {
    if a.Err? then a else Then(a.value, b)
  }

  lemma {:induction false} WordsRegexesAppend(env: Env, p: Profile, a: seq<string>, b: seq<string>)
    requires HasTemplates(p)
    ensures WordsRegexes(env, p, a + b) == Both(WordsRegexes(env, p, a), WordsRegexes(env, p, b))
  {
    if a == [] {
      assert a + b == b;
      var rb := WordsRegexes(env, p, b);
      if rb.Ok? {
        assert [] + rb.value == rb.value;
      }
    } else {
      assert (a + b)[1..] == a[1..] + b;
      WordsRegexesAppend(env, p, a[1..], b);
      var first, ra, rb := Subst(env, p, {}, a[0], None), WordsRegexes(env, p, a[1..]), WordsRegexes(env, p, b);
      if first.Ok? && ra.Ok? && rb.Ok? {
        assert first.value + (ra.value + rb.value) == (first.value + ra.value) + rb.value;
      }
    }
  }

  /** The pairs of two space-separated texts are the pairs of each, and the
      first to fail decides the error. */
  lemma FormatRegexesAppend(env: Env, p: Profile, a: string, b: string)
    requires HasTemplates(p)
    ensures FormatRegexes(env, p, a + " " + b) == Both(FormatRegexes(env, p, a), FormatRegexes(env, p, b))
  {
    WordsOfSpaced(a, b);
    WordsRegexesAppend(env, p, Words(a), Words(b));
    var ra, rb := FormatRegexes(env, p, a), FormatRegexes(env, p, b);
    if a == [] && rb.Ok? {
      assert [] + rb.value == rb.value;
    }
    if b == [] && ra.Ok? {
      assert ra.value + [] == ra.value;
    }
  }

  /** A word made of text, one key captured by a single group, and more
      text: one pair whose regex puts the group between the two texts. */
  lemma SurroundedKeyWord(env: Env, p: Profile, vis: set<FormatKey>, a: string, k: FormatKey, b: string, keyname: Option<FormatKey>)
    requires HasTemplates(p) && WellFormedEnv(env)
    requires '%' !in a && '%' !in b
    requires KeyRegex(k).Some? && k in env.formatKeys
    ensures Subst(env, p, vis, a + Placeholder(env, k) + b, keyname)
         == Ok([RegexWord(if keyname.Some? then keyname else Some(k), a + KeyRegex(k).value + b)])
  {
    var ps := [Lit(a), Ph(k), Lit(b)];
    assert Render(env, ps[2..]) == b + Render(env, []);
    assert Render(env, ps[1..]) == Placeholder(env, k) + Render(env, ps[2..]);
    assert Render(env, ps) == a + Placeholder(env, k) + b;
    assert ps[1] == Ph(k);
    SimpleKeyWord(env, p, vis, ps, k, keyname);
    var qs := SubstPieces(ps, k, KeyRegex(k).value);
    assert qs == [Lit(a), Lit(KeyRegex(k).value), Lit(b)];
    assert Render(env, qs[2..]) == b + Render(env, []);
    assert Render(env, qs[1..]) == KeyRegex(k).value + Render(env, qs[2..]);
    assert Render(env, qs) == a + Render(env, qs[1..]);
    assert Render(env, qs) == a + KeyRegex(k).value + b;
  }

  /** The default kernel template read as text around the version key. */
  lemma KernelDefaultShape(env: Env)
    requires StandardNames(env)
    ensures KernelDefault == "/vmlinuz-" + Placeholder(env, FmtVersion) + ""
    ensures IsWord(KernelDefault) && '%' !in "/vmlinuz-"
  {
    assert Placeholder(env, FmtVersion) == "%{version}";
  }

  /** The default initramfs template read as text around the version key. */
  lemma InitramfsDefaultShape(env: Env)
    requires StandardNames(env)
    ensures InitramfsDefault == "/initramfs-" + Placeholder(env, FmtVersion) + ".img"
    ensures IsWord(InitramfsDefault) && '%' !in "/initramfs-" && '%' !in ".img"
  {
    assert Placeholder(env, FmtVersion) == "%{version}";
  }

  /** A single word gives the pairs of that word. */
  lemma SingleWordRegexes(env: Env, p: Profile, w: string)
    requires HasTemplates(p) && IsWord(w)
    ensures FormatRegexes(env, p, w) == Subst(env, p, {}, w, None)
  {
    WordsOfSingle(w);
    assert [w][1..] == [];
    assert WordsRegexes(env, p, []) == Ok([]);
    var r := Subst(env, p, {}, w, None);
    if r.Ok? {
      assert r.value + [] == r.value;
      assert WordsRegexes(env, p, [w]) == Ok(r.value + []);
    }
  }

  /** A whole template that is one word around one key captured by a
      single group. */
  lemma SurroundedKeyTemplate(env: Env, p: Profile, a: string, k: FormatKey, b: string)
    requires HasTemplates(p) && WellFormedEnv(env)
    requires '%' !in a && '%' !in b && IsWord(a + Placeholder(env, k) + b)
    requires KeyRegex(k).Some? && k in env.formatKeys
    ensures FormatRegexes(env, p, a + Placeholder(env, k) + b) == Ok([RegexWord(Some(k), a + KeyRegex(k).value + b)])
  {
    SingleWordRegexes(env, p, a + Placeholder(env, k) + b);
    SurroundedKeyWord(env, p, {}, a, k, b, None);
  }

  /** The default kernel template gives one pair capturing the version. */
  lemma KernelDefaultRegex(env: Env, p: Profile)
    requires HasTemplates(p) && WellFormedEnv(env) && StandardNames(env) && FmtVersion in env.formatKeys
    ensures FormatRegexes(env, p, KernelDefault) == Ok([RegexWord(Some(FmtVersion), "/vmlinuz-" + CapAll + "")])
  {
    KernelDefaultShape(env);
    SurroundedKeyTemplate(env, p, "/vmlinuz-", FmtVersion, "");
  }

  /** The default initramfs template gives one pair capturing the version;
      the `.` before `img` stays a regex wildcard. */
  lemma InitramfsDefaultRegex(env: Env, p: Profile)
    requires HasTemplates(p) && WellFormedEnv(env) && StandardNames(env) && FmtVersion in env.formatKeys
    ensures FormatRegexes(env, p, InitramfsDefault) == Ok([RegexWord(Some(FmtVersion), "/initramfs-" + CapAll + ".img")])
  {
    InitramfsDefaultShape(env);
    SurroundedKeyTemplate(env, p, "/initramfs-", FmtVersion, ".img");
  }
}
