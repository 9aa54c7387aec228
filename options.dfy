/** The kernel command line edits of the `BootEntry.options` getter in
    boom/bootloader.py: `add_opts` appends the options a `BootParams` asks
    for, `del_opts` drops the words a drop list names. */
module Options {
  import opened PyStr

  /** `add_opts(opts, append)`: the extra words after one space, or `opts`
      unchanged when there are none. */
  function AddOpts(opts: string, append: seq<string>): string {
    if append == [] then opts else opts + " " + Join(append, " ")
  }

  /** `del_opt(opt, drop)`: the word itself is listed (`name` or
      `name=value`), or its name followed by `=` is (the `name=` wildcard). */
  predicate DelOpt(opt: string, drop: seq<string>) {
    opt in drop || BeforeFirst(opt, '=') + "=" in drop
  }

  /** The words that `del_opt` keeps, in order. */
  function Kept(ws: seq<string>, drop: seq<string>): (r: seq<string>)
    ensures forall w :: w in r <==> w in ws && !DelOpt(w, drop)
    ensures AllWords(ws) ==> AllWords(r)
  {
    if ws == [] then []
    else (if DelOpt(ws[0], drop) then [] else [ws[0]]) + Kept(ws[1..], drop)
  }

  /** `del_opts(opts, drop)`. */
  function DelOpts(opts: string, drop: seq<string>): string {
    Join(Kept(Words(opts), drop), " ")
  }

  // ---------------------------------------------------------------------
  // Lemmas

  lemma {:induction false} KeptAppend(a: seq<string>, b: seq<string>, drop: seq<string>)
    ensures Kept(a + b, drop) == Kept(a, drop) + Kept(b, drop)
  {
    if a != [] {
      assert (a + b)[1..] == a[1..] + b;
      assert (a + b)[0] == a[0];
      KeptAppend(a[1..], b, drop);
      var head := if DelOpt(a[0], drop) then [] else [a[0]];
      calc {
        Kept(a + b, drop);
        head + Kept(a[1..] + b, drop);
        head + (Kept(a[1..], drop) + Kept(b, drop));
        (head + Kept(a[1..], drop)) + Kept(b, drop);
      }
    } else {
      assert a + b == b;
    }
  }

  lemma {:induction false} KeptKept(ws: seq<string>, drop: seq<string>)
    ensures Kept(Kept(ws, drop), drop) == Kept(ws, drop)
  {
    if ws != [] {
      KeptKept(ws[1..], drop);
      var head := if DelOpt(ws[0], drop) then [] else [ws[0]];
      KeptAppend(head, Kept(ws[1..], drop), drop);
      if head != [] {
        assert Kept(head, drop) == head by {
          assert head[1..] == [];
        }
      }
    }
  }

  /** The words of the result are the words of the input that `del_opt`
      does not match, in their order. */
  lemma DelOptsWords(opts: string, drop: seq<string>)
    ensures Words(DelOpts(opts, drop)) == Kept(Words(opts), drop)
  {
    WordsOfJoin(Kept(Words(opts), drop));
  }

  /** A word is in the result exactly when it was in the input and no drop
      entry matches it. */
  lemma DelOptsMembers(opts: string, drop: seq<string>, w: string)
    ensures w in Words(DelOpts(opts, drop)) <==> w in Words(opts) && !DelOpt(w, drop)
  {
    DelOptsWords(opts, drop);
  }

  /** Dropping twice drops nothing more. */
  lemma DelOptsIdempotent(opts: string, drop: seq<string>)
    ensures DelOpts(DelOpts(opts, drop), drop) == DelOpts(opts, drop)
  {
    DelOptsWords(opts, drop);
    KeptKept(Words(opts), drop);
  }

  /** The `name=` wildcard drops the bare `name` and `name=` with any
      value. */
  lemma WildcardDrops(name: string, value: string, drop: seq<string>)
    requires '=' !in name && name + "=" in drop
    ensures DelOpt(name, drop)
    ensures DelOpt(name + "=" + value, drop)
  {
    BeforeFirstAbsent(name, '=');
    BeforeFirstStops(name, '=', value);
  }

  /** A drop entry `name=value` drops only that exact word among the words
      carrying a value (unless a wildcard also applies). */
  lemma ExactDrop(name: string, value: string, other: string, drop: seq<string>)
    requires '=' !in name && drop == [name + "=" + value]
    requires other != value && value != []
    ensures DelOpt(name + "=" + value, drop)
    ensures !DelOpt(name + "=" + other, drop)
  {
    BeforeFirstStops(name, '=', other);
    assert (name + "=" + other)[|name| + 1..] == other;
    assert (name + "=" + value)[|name| + 1..] == value;
    assert |name + "="| < |name + "=" + value|;
  }

  /** Appending splits into the words already there followed by the
      appended ones. */
  lemma AddOptsWords(opts: string, append: seq<string>)
    requires AllWords(append)
    ensures Words(AddOpts(opts, append)) == Words(opts) + append
  {
    if append != [] {
      WordsOfSpaced(opts, Join(append, " "));
      WordsOfJoin(append);
    }
  }

  /** The options of an entry with boot parameters: the stored or templated
      words, then the `add_opts` words, less every word a `del_opts` entry
      matches. An added word is kept unless it is dropped, and no dropped
      word survives. */
  lemma EditOptions(opts: string, add: seq<string>, del: seq<string>)
    requires AllWords(add)
    ensures Words(DelOpts(AddOpts(opts, add), del)) == Kept(Words(opts), del) + Kept(add, del)
    ensures forall w :: w in add && !DelOpt(w, del) ==> w in Words(DelOpts(AddOpts(opts, add), del))
    ensures forall w :: w in Words(DelOpts(AddOpts(opts, add), del)) ==> !DelOpt(w, del)
  {
    AddOptsWords(opts, add);
    DelOptsWords(AddOpts(opts, add), del);
    KeptAppend(Words(opts), add, del);
  }
}
