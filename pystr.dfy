/** The Python string builtins the modelled code relies on, as functions on
    `seq<char>`: `str.split()`, `sep.join`, `in`, `startswith`, `replace`,
    `rstrip(chars)`, `strip()`, `split(c)` and first-occurrence de-duplication. */
module PyStr {

  /** Python's `str.isspace` for one code point: the characters on which
      `str.split()` with no argument breaks words. */
  predicate IsSpace(c: char) {
    var n := c as int;
    n == 32 || 9 <= n <= 13 || 28 <= n <= 31 || n == 0x85 || n == 0xA0
    || n == 0x1680 || 0x2000 <= n <= 0x200A || n == 0x2028 || n == 0x2029
    || n == 0x202F || n == 0x205F || n == 0x3000
  }

  predicate NoSpace(s: string) {
    forall i :: 0 <= i < |s| ==> !IsSpace(s[i])
  }

  /** A token as `str.split()` yields it: non-empty and free of whitespace. */
  predicate IsWord(w: string) {
    w != [] && NoSpace(w)
  }

  predicate AllWords(ws: seq<string>) {
    forall i :: 0 <= i < |ws| ==> IsWord(ws[i])
  }

  /** Length of the run of non-space characters that starts `s`. */
  function WordLen(s: string): (n: nat)
    ensures n <= |s|
    ensures forall i :: 0 <= i < n ==> !IsSpace(s[i])
    ensures n < |s| ==> IsSpace(s[n])
  {
    if s == [] || IsSpace(s[0]) then 0 else 1 + WordLen(s[1..])
  }

  /** `s.split()`: the maximal runs of non-space characters, in order. */
  function Words(s: string): (ws: seq<string>)
    ensures AllWords(ws)
    decreases |s|
  {
    if s == [] then []
    else if IsSpace(s[0]) then Words(s[1..])
    else
      var n := WordLen(s);
      [s[..n]] + Words(s[n..])
  }

  /** `sep.join(ws)`. */
  function Join(ws: seq<string>, sep: string): string {
    if ws == [] then []
    else if |ws| == 1 then ws[0]
    else ws[0] + sep + Join(ws[1..], sep)
  }

  /** `"".join(ws)`. */
  function Concat(ws: seq<string>): string {
    if ws == [] then [] else ws[0] + Concat(ws[1..])
  }

  predicate StartsWith(s: string, p: string) {
    |p| <= |s| && s[..|p|] == p
  }

  /** Python's substring test `p in s`. */
  predicate Contains(s: string, p: string)
    decreases |s|
  {
    StartsWith(s, p) || (s != [] && Contains(s[1..], p))
  }

  /** `s.replace(p, r)`: every non-overlapping occurrence of `p`, scanning
      left to right, becomes `r`. */
  function Replace(s: string, p: string, r: string): (res: string)
    requires p != []
    ensures !Contains(s, p) ==> res == s
    decreases |s|
  {
    if s == [] then []
    else if StartsWith(s, p) then r + Replace(s[|p|..], p, r)
    else [s[0]] + Replace(s[1..], p, r)
  }

  /** `s.rstrip(chars)`: strips a trailing run of characters drawn from the
      SET `cs`, not a suffix string. */
  function RStripChars(s: string, cs: set<char>): (r: string)
    ensures r <= s
    ensures r == [] || r[|r| - 1] !in cs
    ensures forall i :: |r| <= i < |s| ==> s[i] in cs
  {
    if s != [] && s[|s| - 1] in cs then RStripChars(s[..|s| - 1], cs) else s
  }

  function LStripSpace(s: string): (r: string)
    ensures r == [] || !IsSpace(r[0])
    ensures |r| <= |s| && r == s[|s| - |r|..]
  {
    if s != [] && IsSpace(s[0]) then LStripSpace(s[1..]) else s
  }

  function RStripSpace(s: string): (r: string)
    ensures r == [] || !IsSpace(r[|r| - 1])
    ensures r <= s
  {
    if s != [] && IsSpace(s[|s| - 1]) then RStripSpace(s[..|s| - 1]) else s
  }

  /** `s.strip()` with no argument: whitespace removed at both ends. */
  function Strip(s: string): string {
    RStripSpace(LStripSpace(s))
  }

  /** `s.split(c)` for a one-character separator: the pieces between the
      occurrences of `c`; there is always at least one piece. */
  function SplitOn(s: string, c: char): (ps: seq<string>)
    ensures |ps| >= 1
    ensures forall i :: 0 <= i < |ps| ==> c !in ps[i]
  {
    if s == [] then [[]]
    else
      var rest := SplitOn(s[1..], c);
      if s[0] == c then [[]] + rest
      else [[s[0]] + rest[0]] + rest[1..]
  }

  /** `s.split(c)[0]`. */
  function BeforeFirst(s: string, c: char): string {
    SplitOn(s, c)[0]
  }

  /** Without the separator the whole string is the first piece. */
  lemma {:induction false} BeforeFirstAbsent(s: string, c: char)
    requires c !in s
    ensures BeforeFirst(s, c) == s
  {
    if s != [] {
      assert c !in s[1..];
      BeforeFirstAbsent(s[1..], c);
      assert s == [s[0]] + s[1..];
    }
  }

  /** The first piece ends at the first separator. */
  lemma {:induction false} BeforeFirstStops(n: string, c: char, rest: string)
    requires c !in n
    ensures BeforeFirst(n + [c] + rest, c) == n
  {
    var s := n + [c] + rest;
    if n != [] {
      assert c !in n[1..];
      assert s[1..] == n[1..] + [c] + rest;
      BeforeFirstStops(n[1..], c, rest);
      assert n == [n[0]] + n[1..];
    } else {
      assert s == [c] + rest;
    }
  }

  /** `s.replace(a, b)` for one-character `a` and `b`. */
  function MapChar(s: string, a: char, b: char): (r: string)
    ensures |r| == |s|
    ensures forall i :: 0 <= i < |s| ==> r[i] == (if s[i] == a then b else s[i])
  {
    if s == [] then [] else [if s[0] == a then b else s[0]] + MapChar(s[1..], a, b)
  }

  /** `xs` without repeats, each element kept at its first occurrence. */
  function Dedup(xs: seq<string>): (r: seq<string>)
    ensures forall x :: x in r <==> x in xs
    ensures forall i, j :: 0 <= i < j < |r| ==> r[i] != r[j]
    decreases |xs|
  {
    if xs == [] then []
    else
      var d := Dedup(xs[..|xs| - 1]);
      if xs[|xs| - 1] in d then d else d + [xs[|xs| - 1]]
  }

  // ---------------------------------------------------------------------
  // Lemmas

  lemma {:induction false} WordLenOfPrefix(a: string, t: string)
    requires WordLen(a) < |a| || (t != [] && IsSpace(t[0]))
    ensures WordLen(a + t) == WordLen(a)
    decreases |a|
  {
    if a == [] {
    } else if IsSpace(a[0]) {
    } else {
      assert (a + t)[1..] == a[1..] + t;
      WordLenOfPrefix(a[1..], t);
    }
  }

  /** Splitting text in which two pieces are separated by a space gives the
      words of the first followed by the words of the second. */
  lemma {:induction false} WordsOfSpaced(a: string, b: string)
    ensures Words(a + " " + b) == Words(a) + Words(b)
    decreases |a|
  {
    var s := a + " " + b;
    if a == [] {
      assert s == " " + b;
      WordsAfterSpace(b);
    } else if IsSpace(a[0]) {
      assert s[1..] == a[1..] + " " + b;
      WordsOfSpaced(a[1..], b);
    } else {
      var m := WordLen(a);
      WordsOfSpacedStep(a, b);
      WordsOfSpaced(a[m..], b);
    }
  }

  lemma WordsAfterSpace(b: string)
    ensures Words(" " + b) == Words(b)
  {
    assert (" " + b)[1..] == b;
  }

  /** One word-step of WordsOfSpaced: the first word of `a` is the first
      word of the joined text. */
  lemma WordsOfSpacedStep(a: string, b: string)
    requires a != [] && !IsSpace(a[0])
    ensures WordLen(a) <= |a|
    ensures Words(a + " " + b) == [a[..WordLen(a)]] + Words(a[WordLen(a)..] + " " + b)
    ensures Words(a) == [a[..WordLen(a)]] + Words(a[WordLen(a)..])
  {
    var s, m := a + " " + b, WordLen(a);
    WordLenOfPrefix(a, " " + b);
    assert s == a + (" " + b);
    assert s[..m] == a[..m];
    assert s[m..] == a[m..] + " " + b;
  }

  /** `" ".join` of words splits back into the same words. */
  lemma {:induction false} WordsOfJoin(ws: seq<string>)
    requires AllWords(ws)
    ensures Words(Join(ws, " ")) == ws
  {
    if ws == [] {
    } else {
      var w := ws[0];
      assert IsWord(w);
      if |ws| == 1 {
        WordsOfSingle(w);
      } else {
        WordsOfJoin(ws[1..]);
        WordsOfSpaced(w, Join(ws[1..], " "));
        WordsOfSingle(w);
        assert ws == [w] + ws[1..];
      }
    }
  }

  lemma WordsOfSingle(w: string)
    requires IsWord(w)
    ensures Words(w) == [w]
  {
    assert WordLen(w) == |w|;
    assert w[..|w|] == w;
    assert w[|w|..] == [];
  }

  /** Text made only of space characters holds no words. */
  lemma {:induction false} WordsOfBlank(s: string)
    requires forall i :: 0 <= i < |s| ==> IsSpace(s[i])
    ensures Words(s) == []
    decreases |s|
  {
    if s != [] {
      WordsOfBlank(s[1..]);
    }
  }

  lemma {:induction false} ContainsAfterPrefix(a: string, s: string, p: string)
    requires Contains(s, p)
    ensures Contains(a + s, p)
    decreases |a|
  {
    if a != [] {
      assert (a + s)[1..] == a[1..] + s;
      ContainsAfterPrefix(a[1..], s, p);
    } else {
      assert a + s == s;
    }
  }

  lemma ContainsOwnPrefix(s: string, p: string)
    requires StartsWith(s, p)
    ensures Contains(s, p)
  {
  }

  /** `p in a + p + b`. */
  lemma ContainsMiddle(a: string, p: string, b: string)
    ensures Contains(a + p + b, p)
  {
    assert a + p + b == a + (p + b);
    assert (p + b)[..|p|] == p;
    ContainsAfterPrefix(a, p + b, p);
  }

  /** An occurrence of `p` cannot start inside text that lacks `p`'s first
      character, so such a prefix can be skipped. */
  lemma {:induction false} ContainsSkipsPrefix(t: string, y: string, p: string)
    requires p != []
    requires forall i :: 0 <= i < |t| ==> t[i] != p[0]
    ensures Contains(t + y, p) <==> Contains(y, p)
    decreases |t|
  {
    if t == [] {
      assert t + y == y;
    } else {
      assert !StartsWith(t + y, p) by {
        assert (t + y)[0] == t[0];
      }
      assert (t + y)[1..] == t[1..] + y;
      ContainsSkipsPrefix(t[1..], y, p);
    }
  }

  lemma {:induction false} ReplaceSkipsPrefix(t: string, y: string, p: string, r: string)
    requires p != []
    requires forall i :: 0 <= i < |t| ==> t[i] != p[0]
    ensures Replace(t + y, p, r) == t + Replace(y, p, r)
    decreases |t|
  {
    if t == [] {
      assert t + y == y;
    } else {
      assert !StartsWith(t + y, p) by {
        assert (t + y)[0] == t[0];
      }
      assert (t + y)[1..] == t[1..] + y;
      ReplaceSkipsPrefix(t[1..], y, p, r);
    }
  }

  /** Replacing at an occurrence that starts the text. */
  lemma ReplaceAtStart(p: string, y: string, r: string)
    requires p != []
    ensures Replace(p + y, p, r) == r + Replace(y, p, r)
  {
    assert (p + y)[..|p|] == p;
    assert (p + y)[|p|..] == y;
  }

  lemma ConcatAppend(ws: seq<string>, w: string)
    ensures Concat(ws + [w]) == Concat(ws) + w
  {
    if ws == [] {
      assert ws + [w] == [w];
    } else {
      assert (ws + [w])[1..] == ws[1..] + [w];
      ConcatAppend(ws[1..], w);
    }
  }

  lemma {:induction false} ConcatSplit(a: seq<string>, b: seq<string>)
    ensures Concat(a + b) == Concat(a) + Concat(b)
  {
    if a == [] {
      assert a + b == b;
    } else {
      assert (a + b)[1..] == a[1..] + b;
      ConcatSplit(a[1..], b);
    }
  }

  /** Joining the pieces of `s.split(c)` with `c` gives `s` back. */
  lemma {:induction false} SplitOnJoin(s: string, c: char)
    ensures Join(SplitOn(s, c), [c]) == s
  {
    if s != [] {
      SplitOnJoin(s[1..], c);
      var rest := SplitOn(s[1..], c);
      if s[0] != c {
        if |rest| == 1 {
        } else {
          assert ([[s[0]] + rest[0]] + rest[1..])[1..] == rest[1..];
        }
      }
    }
  }

  /** Text without the separator is a single piece. */
  lemma {:induction false} SplitOnAbsent(s: string, c: char)
    requires c !in s
    ensures SplitOn(s, c) == [s]
  {
    if s != [] {
      assert c !in s[1..];
      SplitOnAbsent(s[1..], c);
      assert s == [s[0]] + s[1..];
    }
  }

  /** The first separator ends the first piece. */
  lemma {:induction false} SplitOnAfter(a: string, c: char, b: string)
    requires c !in a
    ensures SplitOn(a + [c] + b, c) == [a] + SplitOn(b, c)
  {
    var s := a + [c] + b;
    if a == [] {
      assert s == [c] + b && s[1..] == b;
    } else {
      assert c !in a[1..];
      assert s[1..] == a[1..] + [c] + b;
      SplitOnAfter(a[1..], c, b);
      assert a == [a[0]] + a[1..];
    }
  }

  /** Splitting lines joined by a separator none of them holds gives the
      lines back. */
  lemma {:induction false} SplitOnOfJoin(ls: seq<string>, c: char)
    requires ls != [] && forall i :: 0 <= i < |ls| ==> c !in ls[i]
    ensures SplitOn(Join(ls, [c]), c) == ls
  {
    if |ls| == 1 {
      SplitOnAbsent(ls[0], c);
    } else {
      SplitOnOfJoin(ls[1..], c);
      SplitOnAfter(ls[0], c, Join(ls[1..], [c]));
      assert ls == [ls[0]] + ls[1..];
    }
  }

  /** The joined text ends the way its last piece does. */
  lemma {:induction false} JoinLastChar(ls: seq<string>, sep: string)
    requires ls != [] && ls[|ls| - 1] != []
    ensures Join(ls, sep) != [] && Join(ls, sep)[|Join(ls, sep)| - 1] == ls[|ls| - 1][|ls[|ls| - 1]| - 1]
  {
    if |ls| > 1 {
      JoinLastChar(ls[1..], sep);
      assert ls[1..][|ls[1..]| - 1] == ls[|ls| - 1];
    }
  }

  /** `p` occurs in `s` at index `i`. */
  predicate OccursAt(s: string, p: string, i: int) {
    0 <= i <= |s| - |p| && s[i..i + |p|] == p
  }

  /** `p in s` holds exactly when `p` occurs at some index of `s`. */
  lemma {:induction false} ContainsAt(s: string, p: string)
    ensures Contains(s, p) <==> exists i :: OccursAt(s, p, i)
    decreases |s|
  {
    if StartsWith(s, p) {
      assert OccursAt(s, p, 0);
    }
    if s != [] {
      ContainsAt(s[1..], p);
      if Contains(s[1..], p) {
        var i :| OccursAt(s[1..], p, i);
        assert s[i + 1..i + 1 + |p|] == s[1..][i..i + |p|];
        assert OccursAt(s, p, i + 1);
      }
      if exists i :: OccursAt(s, p, i) {
        var i :| OccursAt(s, p, i);
        if i > 0 {
          assert s[1..][i - 1..i - 1 + |p|] == s[i..i + |p|];
          assert OccursAt(s[1..], p, i - 1);
        } else {
          assert StartsWith(s, p);
        }
      }
    } else if exists i :: OccursAt(s, p, i) {
      var i :| OccursAt(s, p, i);
      assert p == [];
      assert StartsWith(s, p);
    }
  }

  /** A text holding `q` holds every piece of `q`. */
  lemma ContainsTransitive(s: string, q: string, p: string)
    requires Contains(s, q) && Contains(q, p)
    ensures Contains(s, p)
  {
    ContainsAt(s, q);
    ContainsAt(q, p);
    var i :| OccursAt(s, q, i);
    var j :| OccursAt(q, p, j);
    forall t | i + j <= t < i + j + |p|
      ensures s[t] == p[t - i - j]
    {
      assert s[t] == q[t - i];
      assert q[t - i] == q[j..j + |p|][t - i - j];
    }
    assert OccursAt(s, p, i + j);
    ContainsAt(s, p);
  }

  lemma ContainsNoLonger(s: string, p: string)
    requires Contains(s, p)
    ensures |p| <= |s|
  {
    ContainsAt(s, p);
    var i :| OccursAt(s, p, i);
  }
}
