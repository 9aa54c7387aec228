/** What `str(entry)` writes and what the boot id is computed from: one
    `key value` line per non-empty field, in `ENTRY_KEYS` order, that reads
    back line by line into the fields it came from. */
module Serialization {
  import opened Wrappers
  import opened PyStr
  import opened Externals
  import opened EntryKeys
  import opened Templating

  /** The fields `__str` writes, in order: each key among `keys` whose
      getter yields a non-empty value, with that value. */
  function SetFields(e: Entry, env: Env, keys: seq<EntryKey>): (r: Result<seq<(EntryKey, string)>, Error>)
    ensures r.Ok? ==> |r.value| <= |keys|
    ensures r.Ok? ==> forall i :: 0 <= i < |r.value| ==> r.value[i].1 != "" && r.value[i].0 in keys
  {
    if keys == [] then Ok([])
    else
      var v :- GetField(e, env, keys[0]);
      var rest :- SetFields(e, env, keys[1..]);
      Ok((if Truthy(v) then [(keys[0], v.value)] else []) + rest)
  }

  /** One line of a BLS entry file. */
  function BlsLine(f: (EntryKey, string)): string {
    BlsKey(f.0) + " " + f.1
  }

  function BlsLines(fs: seq<(EntryKey, string)>): (ls: seq<string>)
    ensures |ls| == |fs| && forall i :: 0 <= i < |fs| ==> ls[i] == BlsLine(fs[i])
  {
    if fs == [] then [] else [BlsLine(fs[0])] + BlsLines(fs[1..])
  }

  /** Lines, each followed by a newline. */
  function Terminated(ls: seq<string>): string {
    if ls == [] then "" else ls[0] + "\n" + Terminated(ls[1..])
  }

  /** The records of the BLS form are the lines of the set fields, each
      newline-terminated; an error of a getter is the error of both. */
  lemma {:induction false} RecordsAreLines(e: Entry, env: Env, keys: seq<EntryKey>)
    ensures var fs := SetFields(e, env, keys);
            Records(e, env, BlsStyle, keys) == if fs.Err? then Err(fs.error) else Ok(Terminated(BlsLines(fs.value)))
  {
    if keys != [] {
      var v := GetField(e, env, keys[0]);
      if v.Ok? {
        RecordsAreLines(e, env, keys[1..]);
        var rest := SetFields(e, env, keys[1..]);
        if rest.Ok? && Truthy(v.value) {
          var f := (keys[0], v.value.value);
          assert ([f] + rest.value)[1..] == rest.value;
          assert Record(BlsStyle, RecordName(BlsStyle, keys[0]), f.1) == BlsLine(f) + "\n";
          calc {
            Terminated(BlsLines([f] + rest.value));
            BlsLine(f) + "\n" + Terminated(BlsLines(rest.value));
          }
        } else if rest.Ok? {
          assert [] + rest.value == rest.value;
          assert "" + Terminated(BlsLines(rest.value)) == Terminated(BlsLines(rest.value));
        }
      }
    }
  }

  lemma {:induction false} TerminatedJoin(ls: seq<string>)
    requires ls != []
    ensures Terminated(ls) == Join(ls, "\n") + "\n"
  {
    if |ls| == 1 {
      assert ls[1..] == [];
    } else {
      TerminatedJoin(ls[1..]);
      calc {
        Terminated(ls);
        ls[0] + "\n" + (Join(ls[1..], "\n") + "\n");
        (ls[0] + "\n" + Join(ls[1..], "\n")) + "\n";
      }
    }
  }

  /** Removing the trailing newline of newline-terminated lines whose last
      one does not end in a newline leaves the lines joined by newlines. */
  lemma StripTerminated(ls: seq<string>)
    requires ls != [] && ls[|ls| - 1] != [] && ls[|ls| - 1][|ls[|ls| - 1]| - 1] != '\n'
    ensures RStripChars(Terminated(ls), {'\n'}) == Join(ls, "\n")
  {
    TerminatedJoin(ls);
    JoinLastChar(ls, "\n");
    var j := Join(ls, "\n");
    assert (j + "\n")[..|j + "\n"| - 1] == j;
  }

  /** The BLS form adds no prefix, suffix or boot id record around the
      records, and strips trailing newlines. */
  lemma EntryStrBls(e: Entry, env: Env, noBootId: bool, bootId: string)
    ensures var b := Records(e, env, BlsStyle, EntryKeyOrder);
            EntryStr(e, env, BlsStyle, noBootId, bootId) == if b.Err? then Err(b.error) else Ok(RStripChars(b.value, {'\n'}))
  {
    var st := BlsStyle;
    assert st.prefix == "" && st.suffix == "" && st.bls && st.tail == "\n";
    assert CharSet("\n") == {'\n'} by {
      assert "\n"[0] == '\n';
    }
    var b := Records(e, env, st, EntryKeyOrder);
    if b.Ok? {
      assert st.prefix + b.value + "" == b.value;
      assert RStripChars(b.value, {'\n'}) + st.suffix == RStripChars(b.value, {'\n'});
    }
  }

  /** `str(entry)`: the lines of the set fields joined by newlines, without
      the boot id, whether or not the boot id is asked for; the boot id is
      the digest of that text. */
  lemma BlsText(e: Entry, env: Env, noBootId: bool, bootId: string)
    requires SetFields(e, env, EntryKeyOrder).Ok?
    requires var fs := SetFields(e, env, EntryKeyOrder).value;
             forall i :: 0 <= i < |fs| ==> '\n' !in fs[i].1
    ensures var text := Join(BlsLines(SetFields(e, env, EntryKeyOrder).value), "\n");
            && EntryStr(e, env, BlsStyle, noBootId, bootId) == Ok(text)
            && BootIdOf(e, env) == Ok(env.digest(text))
  {
    var fs := SetFields(e, env, EntryKeyOrder).value;
    var ls := BlsLines(fs);
    RecordsAreLines(e, env, EntryKeyOrder);
    EntryStrBls(e, env, noBootId, bootId);
    EntryStrBls(e, env, true, "");
    if fs == [] {
      assert Terminated(ls) == "";
    } else {
      var f := fs[|fs| - 1];
      BlsKeyShape(f.0);
      assert ls[|ls| - 1] == BlsKey(f.0) + " " + f.1;
      assert f.1[|f.1| - 1] in f.1;
      StripTerminated(ls);
    }
  }

  /** Reading the text back: it splits at newlines into the lines of the
      set fields, and each line splits at its first blank into a BLS key,
      which `_transform_key` and `MAP_KEY` turn back into the field's key,
      and the field's value. */
  lemma BlsTextReadsBack(fs: seq<(EntryKey, string)>)
    requires fs != [] && forall i :: 0 <= i < |fs| ==> '\n' !in fs[i].1
    ensures SplitOn(Join(BlsLines(fs), "\n"), '\n') == BlsLines(fs)
    ensures forall i :: 0 <= i < |fs| ==>
      var line, k := BlsLines(fs)[i], BlsKey(fs[i].0);
      && BeforeFirst(line, ' ') == k
      && line[|k| + 1..] == fs[i].1
      && MapKey(TransformKey(k)) == Some(fs[i].0)
  {
    var ls := BlsLines(fs);
    forall i | 0 <= i < |ls| ensures '\n' !in ls[i] {
      BlsKeyShape(fs[i].0);
    }
    SplitOnOfJoin(ls, '\n');
    forall i | 0 <= i < |fs|
      ensures BeforeFirst(ls[i], ' ') == BlsKey(fs[i].0)
      ensures ls[i][|BlsKey(fs[i].0)| + 1..] == fs[i].1
      ensures MapKey(TransformKey(BlsKey(fs[i].0))) == Some(fs[i].0)
    {
      var k := BlsKey(fs[i].0);
      BlsKeyShape(fs[i].0);
      BlsKeyReadsBack(fs[i].0);
      assert ls[i] == k + [' '] + fs[i].1;
      BeforeFirstStops(k, ' ', fs[i].1);
    }
  }
}
