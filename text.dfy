/**
 * The JavaScript string primitives the content actions rely on:
 * `String.prototype.split` with a one-character separator,
 * `String.prototype.trim` and `Array.prototype.join`.
 */
module Text {

  /** The whitespace `trim` strips, as a fixed set: the ASCII blanks and
      line breaks, no-break space, the byte-order mark and the two Unicode
      line/paragraph separators. */
  predicate IsSpace(c: char) {
    c == ' ' || c == '\t' || c == '\n' || c == '\r' || c == '\U{000B}' || c == '\U{000C}'
    || c == '\U{00A0}' || c == '\U{FEFF}' || c == '\U{2028}' || c == '\U{2029}'
  }

  predicate AllSpace(s: string) {
    forall i :: 0 <= i < |s| ==> IsSpace(s[i])
  }

  /** Neither starts nor ends with whitespace. */
  predicate IsTrimmed(s: string) {
    s == [] || (!IsSpace(s[0]) && !IsSpace(s[|s| - 1]))
  }

  /** Number of occurrences of `c` in `s`. */
  function Occurrences(s: string, c: char): nat {
    if s == [] then 0 else (if s[0] == c then 1 else 0) + Occurrences(s[1..], c)
  }

  /** `s.split(sep)`: the pieces between separators, empty pieces kept. */
  function Split(s: string, sep: char): (parts: seq<string>)
    ensures |parts| == Occurrences(s, sep) + 1
    ensures forall i :: 0 <= i < |parts| ==> sep !in parts[i]
  {
    if s == [] then [""]
    else
      var rest := Split(s[1..], sep);
      if s[0] == sep then [""] + rest
      else [[s[0]] + rest[0]] + rest[1..]
  }

  /** `parts.join(delim)`: the parts in order, the delimiter between
      neighbours (`JoinSplit` and `SplitJoin` pin the whole text). */
  function Join(parts: seq<string>, delim: string): (r: string)
    ensures |parts| == 1 ==> r == parts[0]
    ensures |parts| > 1 ==> parts[0] + delim <= r
    ensures |parts| == 0 ==> r == ""
  {
    if parts == [] then ""
    else if |parts| == 1 then parts[0]
    else parts[0] + delim + Join(parts[1..], delim)
  }

  /** `s.trimStart()`: `s` without its leading whitespace. */
  function TrimStart(s: string): (r: string)
    ensures |r| <= |s| && r == s[|s| - |r|..]
    ensures AllSpace(s[..|s| - |r|])
    ensures r == [] || !IsSpace(r[0])
  {
    if s != [] && IsSpace(s[0]) then TrimStart(s[1..]) else s
  }

  /** `s.trimEnd()`: `s` without its trailing whitespace. */
  function TrimEnd(s: string): (r: string)
    ensures |r| <= |s| && r == s[..|r|]
    ensures AllSpace(s[|r|..])
    ensures r == [] || !IsSpace(r[|r| - 1])
  {
    if s != [] && IsSpace(s[|s| - 1]) then TrimEnd(s[..|s| - 1]) else s
  }

  /** `s` is `t` with nothing but whitespace before and after it. */
  ghost predicate Framed(s: string, t: string) {
    exists p, q :: AllSpace(p) && AllSpace(q) && s == p + t + q
  }

  /** Whitespace before `u`, and whitespace after `t` inside `u`, frame `t` in `s`. */
  lemma FramedBy(s: string, before: string, u: string, t: string, after: string)
    requires AllSpace(before) && AllSpace(after)
    requires s == before + u && u == t + after
    ensures Framed(s, t)
  {
    assert s == before + t + after;
  }

  /** `s.trim()`: `s` without the whitespace that frames it; no shorter
      or longer text both is trimmed and is framed in `s` that way (see
      `TrimFramed`). */
  function Trim(s: string): (r: string)
    ensures IsTrimmed(r)
    ensures Framed(s, r)
  {
    TrimStartEnd(s);
    TrimEnd(TrimStart(s))
  }

  /** Trimming the start, then the end, leaves a trimmed text framed in `s`. */
  lemma TrimStartEnd(s: string)
    ensures IsTrimmed(TrimEnd(TrimStart(s)))
    ensures Framed(s, TrimEnd(TrimStart(s)))
  {
    var u := TrimStart(s);
    TrimmedInside(s, u, TrimEnd(u));
  }

  /** `u` is `s` after leading whitespace and `r` is `u` before trailing
      whitespace, each stopping at a non-space character. */
  lemma TrimmedInside(s: string, u: string, r: string)
    requires |u| <= |s| && u == s[|s| - |u|..] && AllSpace(s[..|s| - |u|])
    requires u == [] || !IsSpace(u[0])
    requires |r| <= |u| && r == u[..|r|] && AllSpace(u[|r|..])
    requires r == [] || !IsSpace(r[|r| - 1])
    ensures IsTrimmed(r) && Framed(s, r)
  {
    if r != [] {
      assert r[0] == u[0];
    }
    var before, after := s[..|s| - |u|], u[|r|..];
    assert s == before + u;
    assert u == r + after;
    FramedBy(s, before, u, r, after);
  }

  /** Trim only removes characters: one absent from `s` is absent from
      `Trim(s)`. */
  lemma TrimKeepsOut(s: string, c: char)
    requires c !in s
    ensures c !in Trim(s)
  {
    var u := TrimStart(s);
    forall i | 0 <= i < |u|
      ensures u[i] != c
    {
      assert u[i] == s[|s| - |u| + i];
    }
    var r := TrimEnd(u);
    forall i | 0 <= i < |r|
      ensures r[i] != c
    {
      assert r[i] == u[i];
    }
  }

  /** Joining the pieces of a split with the separator gives back the input. */
  lemma {:induction false} JoinSplit(s: string, sep: char)
    ensures Join(Split(s, sep), [sep]) == s
  {
    if s != [] {
      JoinSplit(s[1..], sep);
      var rest := Split(s[1..], sep);
      if s[0] != sep {
        if |rest| > 1 {
          assert Join(rest, [sep]) == rest[0] + [sep] + Join(rest[1..], [sep]);
          assert s == [s[0]] + s[1..];
        }
      } else {
        assert s == [sep] + s[1..];
      }
    }
  }

  /** A piece without separators splits to itself. */
  lemma {:induction false} SplitSingle(a: string, sep: char)
    requires sep !in a
    ensures Split(a, sep) == [a]
  {
    if a != [] {
      assert sep !in a[1..] && a[0] != sep;
      SplitSingle(a[1..], sep);
      assert [a[0]] + a[1..] == a;
    }
  }

  /** Splitting `a + sep + b`, with no separator in `a`, yields `a` first. */
  lemma {:induction false} SplitAfterPiece(a: string, b: string, sep: char)
    requires sep !in a
    ensures Split(a + [sep] + b, sep) == [a] + Split(b, sep)
  {
    if a == [] {
      assert a + [sep] + b == [sep] + b;
      assert ([sep] + b)[1..] == b;
    } else {
      assert sep !in a[1..] && a[0] != sep;
      SplitAfterPiece(a[1..], b, sep);
      assert (a + [sep] + b)[1..] == a[1..] + [sep] + b;
      assert [a[0]] + a[1..] == a;
    }
  }

  /** Splitting the join of separator-free pieces gives back the pieces. */
  lemma {:induction false} SplitJoin(parts: seq<string>, sep: char)
    requires |parts| > 0
    requires forall i :: 0 <= i < |parts| ==> sep !in parts[i]
    ensures Split(Join(parts, [sep]), sep) == parts
  {
    if |parts| == 1 {
      SplitSingle(parts[0], sep);
    } else {
      SplitJoin(parts[1..], sep);
      SplitAfterPiece(parts[0], Join(parts[1..], [sep]), sep);
    }
  }

  /** Trim removes exactly the whitespace framing a trimmed text. */
  lemma TrimFramed(p: string, t: string, q: string)
    requires AllSpace(p) && AllSpace(q) && IsTrimmed(t)
    ensures Trim(p + t + q) == t
  {
    if t == [] {
      assert p + t + q == (p + q) + [];
      TrimStartFramed(p + q, []);
    } else {
      assert p + t + q == p + (t + q);
      TrimStartFramed(p, t + q);
      TrimEndFramed(t, q);
    }
  }

  /** Trim leaves a trimmed text as it is. */
  lemma TrimTrimmed(t: string)
    requires IsTrimmed(t)
    ensures Trim(t) == t
  {
    TrimFramed("", t, "");
    assert "" + t + "" == t;
  }

  lemma {:induction false} TrimStartFramed(p: string, u: string)
    requires AllSpace(p) && (u == [] || !IsSpace(u[0]))
    ensures TrimStart(p + u) == u
  {
    if p != [] {
      assert (p + u)[1..] == p[1..] + u;
      TrimStartFramed(p[1..], u);
    }
  }

  lemma {:induction false} TrimEndFramed(t: string, q: string)
    requires AllSpace(q) && (t == [] || !IsSpace(t[|t| - 1]))
    ensures TrimEnd(t + q) == t
  {
    if q != [] {
      assert (t + q)[..|t + q| - 1] == t + q[..|q| - 1];
      TrimEndFramed(t, q[..|q| - 1]);
    }
  }
}
