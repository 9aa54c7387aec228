/** What the modelled code takes from outside its two files: the format key
    names and their order (`FMT_*` and `FORMAT_KEYS` of the `boom` package),
    SHA-1 and the regular-expression engine. They are parameters of the model,
    bundled in one `Env` value. This module also holds the theory of format
    templates: text in which `%{name}` placeholders stand for keys. */
module Externals {
  import opened Wrappers
  import opened PyStr

  /** The format keys (`FMT_*`). Keys the `boom` package may define beyond the
      ones these two files mention are `OtherKey`s. */
  datatype FormatKey =
    | FmtVersion
    | FmtLvmRootLv
    | FmtLvmRootOpts
    | FmtBtrfsRootOpts
    | FmtBtrfsSubvolume
    | FmtBtrfsSubvolId
    | FmtBtrfsSubvolPath
    | FmtRootDevice
    | FmtRootOpts
    | FmtKernel
    | FmtInitramfs
    | FmtOsName
    | OtherKey(index: nat)

  /** The outcome of `re.match` / `re.search` of a pattern against one word:
      no match, or a match with the text of group 1 when the pattern has one. */
  datatype RegexMatch = NoMatch | Matched(group1: Option<string>)

  datatype Env = Env(
    name: FormatKey -> string,
    formatKeys: seq<FormatKey>,
    digest: string -> string,
    search: (string, string) -> RegexMatch,
    matchStart: (string, string) -> RegexMatch)

  /** Key names are non-empty, hold neither `%` nor `}`, and name one key
      each; `FORMAT_KEYS` lists each key at most once. */
  ghost predicate WellFormedEnv(env: Env) {
    && (forall k :: |env.name(k)| > 0 && '%' !in env.name(k) && '}' !in env.name(k))
    && (forall k1, k2 :: env.name(k1) == env.name(k2) ==> k1 == k2)
    && (forall i, j :: 0 <= i < j < |env.formatKeys| ==> env.formatKeys[i] != env.formatKeys[j])
  }

  /** The key names that the two files spell out literally, in the default
      profile templates and in the templates of `make_format_regexes`. */
  predicate StandardNames(env: Env) {
    && env.name(FmtVersion) == "version"
    && env.name(FmtLvmRootLv) == "lvm_root_lv"
    && env.name(FmtBtrfsSubvolume) == "btrfs_subvolume"
    && env.name(FmtBtrfsSubvolPath) == "btrfs_subvol_path"
    && env.name(FmtBtrfsSubvolId) == "btrfs_subvol_id"
    && env.name(FmtRootDevice) == "root_device"
    && env.name(FmtRootOpts) == "root_opts"
  }

  /** `key_format % key_name`, i.e. `"%{" + name + "}"`. */
  function Placeholder(env: Env, k: FormatKey): (p: string)
    ensures |p| == |env.name(k)| + 3 && p[0] == '%'
  {
    "%{" + env.name(k) + "}"
  }

  // ---------------------------------------------------------------------
  // Templates

  /** A template read as a sequence of literal text and placeholders. */
  datatype Piece = Lit(text: string) | Ph(key: FormatKey)

  function PieceText(env: Env, p: Piece): string {
    match p
    case Lit(t) => t
    case Ph(k) => Placeholder(env, k)
  }

  function Render(env: Env, ps: seq<Piece>): string {
    if ps == [] then [] else PieceText(env, ps[0]) + Render(env, ps[1..])
  }

  /** Literal pieces hold no `%`, so every `%` of the text opens a placeholder. */
  predicate PlainPieces(ps: seq<Piece>) {
    forall i :: 0 <= i < |ps| && ps[i].Lit? ==> '%' !in ps[i].text
  }

  /** Every `Ph(k)` becomes the literal `v`. */
  function SubstPieces(ps: seq<Piece>, k: FormatKey, v: string): (r: seq<Piece>)
    ensures |r| == |ps|
    ensures forall i :: 0 <= i < |ps| ==> r[i] == (if ps[i] == Ph(k) then Lit(v) else ps[i])
  {
    if ps == [] then [] else [if ps[0] == Ph(k) then Lit(v) else ps[0]] + SubstPieces(ps[1..], k, v)
  }

  /** One placeholder never starts with the text of a different one: names
      are distinct and free of `}`. */
  lemma OtherPlaceholderNotAtStart(env: Env, k: FormatKey, k2: FormatKey, y: string)
    requires WellFormedEnv(env) && k != k2
    ensures !StartsWith(Placeholder(env, k2) + y, Placeholder(env, k))
  {
    var n, n2 := env.name(k), env.name(k2);
    var s, ph := Placeholder(env, k2) + y, Placeholder(env, k);
    if |ph| <= |s| {
      if |n| < |n2| {
        assert s[|n| + 2] == n2[|n|] && ph[|n| + 2] == '}';
        assert s[..|ph|][|n| + 2] != ph[|n| + 2];
      } else if |n| > |n2| {
        assert s[|n2| + 2] == '}' && ph[|n2| + 2] == n[|n2|];
        assert s[..|ph|][|n2| + 2] != ph[|n2| + 2];
      } else {
        assert n != n2;
        var i :| 0 <= i < |n| && n[i] != n2[i];
        assert s[i + 2] == n2[i] && ph[i + 2] == n[i];
        assert s[..|ph|][i + 2] != ph[i + 2];
      }
    }
  }

  lemma PlaceholderTailPlain(env: Env, k: FormatKey)
    requires WellFormedEnv(env)
    ensures forall i :: 1 <= i < |Placeholder(env, k)| ==> Placeholder(env, k)[i] != '%'
  {
    var n := env.name(k);
    forall i | 1 <= i < |Placeholder(env, k)|
      ensures Placeholder(env, k)[i] != '%'
    {
      if 2 <= i < |n| + 2 {
        assert Placeholder(env, k)[i] == n[i - 2];
      }
    }
  }

  /** A placeholder occurs in a rendered template exactly when the template
      holds that placeholder piece. */
  lemma {:induction false} RenderContains(env: Env, ps: seq<Piece>, k: FormatKey)
    requires WellFormedEnv(env) && PlainPieces(ps)
    ensures Contains(Render(env, ps), Placeholder(env, k)) <==> Ph(k) in ps
  {
    var ph := Placeholder(env, k);
    if ps != [] {
      var head, rest := PieceText(env, ps[0]), Render(env, ps[1..]);
      assert PlainPieces(ps[1..]) by {
        forall i | 0 <= i < |ps[1..]| && ps[1..][i].Lit?
          ensures '%' !in ps[1..][i].text
        {
          assert ps[1..][i] == ps[i + 1];
        }
      }
      RenderContains(env, ps[1..], k);
      assert Render(env, ps) == head + rest;
      match ps[0]
      case Lit(t) =>
        ContainsSkipsPrefix(t, rest, ph);
      case Ph(k2) =>
        if k2 == k {
          assert StartsWith(head + rest, ph) by {
            assert (head + rest)[..|ph|] == ph;
          }
        } else {
          OtherPlaceholderNotAtStart(env, k, k2, rest);
          PlaceholderTailPlain(env, k2);
          assert (head + rest)[1..] == head[1..] + rest;
          ContainsSkipsPrefix(head[1..], rest, ph);
          assert ps == [ps[0]] + ps[1..];
        }
    }
  }

  /** Replacing a placeholder in text that starts with one piece. */
  lemma ReplaceAfterPiece(env: Env, p: Piece, rest: string, k: FormatKey, v: string)
    requires WellFormedEnv(env)
    requires p.Lit? ==> '%' !in p.text
    ensures Replace(PieceText(env, p) + rest, Placeholder(env, k), v)
         == PieceText(env, if p == Ph(k) then Lit(v) else p) + Replace(rest, Placeholder(env, k), v)
  {
    var ph, head := Placeholder(env, k), PieceText(env, p);
    match p
    case Lit(t) =>
      ReplaceSkipsPrefix(t, rest, ph, v);
    case Ph(k2) =>
      if k2 == k {
        ReplaceAtStart(ph, rest, v);
      } else {
        ReplaceAfterOtherPlaceholder(env, k2, rest, k, v);
      }
  }

  /** Another placeholder in front of the text is kept as it is. */
  lemma ReplaceAfterOtherPlaceholder(env: Env, k2: FormatKey, rest: string, k: FormatKey, v: string)
    requires WellFormedEnv(env) && k2 != k
    ensures Replace(Placeholder(env, k2) + rest, Placeholder(env, k), v)
         == Placeholder(env, k2) + Replace(rest, Placeholder(env, k), v)
  {
    var ph, head := Placeholder(env, k), Placeholder(env, k2);
    OtherPlaceholderNotAtStart(env, k, k2, rest);
    PlaceholderTailPlain(env, k2);
    assert (head + rest)[1..] == head[1..] + rest;
    ReplaceSkipsPrefix(head[1..], rest, ph, v);
    assert head == [head[0]] + head[1..];
  }

  /** `str.replace` of one placeholder in a rendered template substitutes the
      matching pieces and nothing else. */
  lemma {:induction false} RenderReplace(env: Env, ps: seq<Piece>, k: FormatKey, v: string)
    requires WellFormedEnv(env) && PlainPieces(ps)
    ensures Replace(Render(env, ps), Placeholder(env, k), v) == Render(env, SubstPieces(ps, k, v))
  {
    if ps != [] {
      assert PlainPieces(ps[1..]) by {
        forall i | 0 <= i < |ps[1..]| && ps[1..][i].Lit?
          ensures '%' !in ps[1..][i].text
        {
          assert ps[1..][i] == ps[i + 1];
        }
      }
      RenderReplace(env, ps[1..], k, v);
      ReplaceAfterPiece(env, ps[0], Render(env, ps[1..]), k, v);
      var sub := SubstPieces(ps, k, v);
      assert sub[1..] == SubstPieces(ps[1..], k, v);
    }
  }

  /** Pieces whose only placeholders are `Ph(k)`. */
  predicate OnlyKey(ps: seq<Piece>, k: FormatKey) {
    forall i :: 0 <= i < |ps| && ps[i].Ph? ==> ps[i] == Ph(k)
  }

  lemma OtherKeyAbsent(env: Env, ps: seq<Piece>, k: FormatKey, k2: FormatKey)
    requires WellFormedEnv(env) && PlainPieces(ps) && OnlyKey(ps, k) && k2 != k
    ensures !Contains(Render(env, ps), Placeholder(env, k2))
  {
    RenderContains(env, ps, k2);
  }

  lemma SubstitutedIsPlain(env: Env, ps: seq<Piece>, k: FormatKey, v: string, k2: FormatKey)
    requires WellFormedEnv(env) && PlainPieces(ps) && OnlyKey(ps, k) && '%' !in v
    ensures PlainPieces(SubstPieces(ps, k, v))
    ensures !Contains(Render(env, SubstPieces(ps, k, v)), Placeholder(env, k2))
  {
    var qs := SubstPieces(ps, k, v);
    assert forall i :: 0 <= i < |qs| ==> qs[i].Lit?;
    RenderContains(env, qs, k2);
  }

  lemma {:induction false} RenderAppend(env: Env, ps: seq<Piece>, qs: seq<Piece>)
    ensures Render(env, ps + qs) == Render(env, ps) + Render(env, qs)
  {
    if ps == [] {
      assert ps + qs == qs;
    } else {
      assert (ps + qs)[1..] == ps[1..] + qs;
      RenderAppend(env, ps[1..], qs);
    }
  }
}
