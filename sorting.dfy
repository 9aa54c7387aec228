/** Python's `list.sort(key=...)` for the `(os_name, os_version)` keys that
    `find_profiles` sorts by: string comparison by code point, tuples
    compared field by field, and a stable sort. */
module Sorting {

  /** Python's `a < b` on strings. */
  predicate StrLess(a: string, b: string)
    decreases |a|
  {
    if a == [] then b != []
    else if b == [] then false
    else if a[0] != b[0] then a[0] < b[0]
    else StrLess(a[1..], b[1..])
  }

  lemma {:induction false} StrLessIrreflexive(a: string)
    ensures !StrLess(a, a)
    decreases |a|
  {
    if a != [] {
      StrLessIrreflexive(a[1..]);
    }
  }

  lemma {:induction false} StrLessTransitive(a: string, b: string, c: string)
    requires StrLess(a, b) && StrLess(b, c)
    ensures StrLess(a, c)
    decreases |a|
  {
    if a != [] && b != [] && c != [] && a[0] == b[0] && b[0] == c[0] {
      StrLessTransitive(a[1..], b[1..], c[1..]);
    }
  }

  lemma {:induction false} StrLessTotal(a: string, b: string)
    ensures a == b || StrLess(a, b) || StrLess(b, a)
    decreases |a|
  {
    if a != [] && b != [] && a[0] == b[0] {
      StrLessTotal(a[1..], b[1..]);
      if a[1..] == b[1..] {
        assert a == [a[0]] + a[1..] && b == [b[0]] + b[1..];
      }
    }
  }

  /** The sort key of one profile: `(os_name, os_version)`. */
  type Key = (string, string)

  /** Python's `<` on two-element tuples of strings. */
  predicate KeyLess(x: Key, y: Key) {
    StrLess(x.0, y.0) || (x.0 == y.0 && StrLess(x.1, y.1))
  }

  lemma KeyLessIrreflexive(x: Key)
    ensures !KeyLess(x, x)
  {
    StrLessIrreflexive(x.0);
    StrLessIrreflexive(x.1);
  }

  lemma KeyLessTransitive(x: Key, y: Key, z: Key)
    requires KeyLess(x, y) && KeyLess(y, z)
    ensures KeyLess(x, z)
  {
    if StrLess(x.0, y.0) && StrLess(y.0, z.0) {
      StrLessTransitive(x.0, y.0, z.0);
    } else if StrLess(x.1, y.1) && StrLess(y.1, z.1) {
      StrLessTransitive(x.1, y.1, z.1);
    }
  }

  lemma KeyLessTotal(x: Key, y: Key)
    ensures x == y || KeyLess(x, y) || KeyLess(y, x)
  {
    StrLessTotal(x.0, y.0);
    StrLessTotal(x.1, y.1);
  }

  /** "Not greater" is transitive, so a sort by `<` alone orders all pairs. */
  lemma KeyNotLessTransitive(x: Key, y: Key, z: Key)
    requires !KeyLess(y, x) && !KeyLess(z, y)
    ensures !KeyLess(z, x)
  {
    if KeyLess(z, x) {
      KeyLessTotal(x, y);
      if x != y {
        KeyLessTransitive(z, x, y);
      }
    }
  }

  /** Items carried with their key. */
  predicate SortedByKey<T>(s: seq<(Key, T)>) {
    forall i, j :: 0 <= i < j < |s| ==> !KeyLess(s[j].0, s[i].0)
  }

  /** Inserting `x` behind every item it is not less than: one step of a
      stable insertion sort. */
  function Insert<T>(s: seq<(Key, T)>, x: (Key, T)): (r: seq<(Key, T)>)
    ensures multiset(r) == multiset(s) + multiset{x}
    ensures |r| == |s| + 1
  {
    if s == [] then [x]
    else if !KeyLess(x.0, s[|s| - 1].0) then s + [x]
    else
      assert s == s[..|s| - 1] + [s[|s| - 1]];
      Insert(s[..|s| - 1], x) + [s[|s| - 1]]
  }

  /** A stable sort by key (`list.sort(key=...)`). */
  function Sort<T>(xs: seq<(Key, T)>): (r: seq<(Key, T)>)
    ensures multiset(r) == multiset(xs)
  {
    if xs == [] then []
    else
      assert xs == xs[..|xs| - 1] + [xs[|xs| - 1]];
      Insert(Sort(xs[..|xs| - 1]), xs[|xs| - 1])
  }

  lemma {:induction false} InsertSorted<T>(s: seq<(Key, T)>, x: (Key, T))
    requires SortedByKey(s)
    ensures SortedByKey(Insert(s, x))
    decreases |s|
  {
    if s != [] {
      var init, last := s[..|s| - 1], s[|s| - 1];
      var r := Insert(s, x);
      if !KeyLess(x.0, last.0) {
        forall i, j | 0 <= i < j < |r|
          ensures !KeyLess(r[j].0, r[i].0)
        {
          if j == |s| {
            if i < |s| - 1 {
              KeyNotLessTransitive(s[i].0, last.0, x.0);
            }
          }
        }
      } else {
        InsertSorted(init, x);
        var r' := Insert(init, x);
        assert r == r' + [last];
        forall i | 0 <= i < |r'|
          ensures !KeyLess(last.0, r'[i].0)
        {
          assert r'[i] in multiset(r');
          if r'[i] == x {
            KeyLessTotal(x.0, last.0);
            if KeyLess(last.0, x.0) {
              KeyLessTransitive(x.0, last.0, x.0);
              KeyLessIrreflexive(x.0);
            }
          } else {
            assert r'[i] in init;
          }
        }
      }
    }
  }

  lemma {:induction false} SortSorted<T>(xs: seq<(Key, T)>)
    ensures SortedByKey(Sort(xs))
  {
    if xs != [] {
      SortSorted(xs[..|xs| - 1]);
      InsertSorted(Sort(xs[..|xs| - 1]), xs[|xs| - 1]);
    }
  }
}
