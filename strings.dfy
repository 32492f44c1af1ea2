/** The Python `str` operations the backend relies on, as functions on
    `seq<char>`: `lower()` (ASCII letters only), the `in` substring test,
    `strip()` / `strip(chars)`, `split(sep)` with a one-character separator
    and `sep.join(parts)`. */
module Strings {

  /** The characters Python's `str.isspace()` accepts: tab to carriage
      return, the four separators U+1C-U+1F, the blank, U+85, the no-break
      space, the Ogham space mark, U+2000-U+200A, the line and paragraph
      separators, U+202F, U+205F and the ideographic space. */
  predicate IsSpace(c: char)
  {
    '\t' <= c <= '\r' || '\U{1C}' <= c <= ' ' || c == '\U{85}' || c == '\U{A0}' || c == '\U{1680}'
    || '\U{2000}' <= c <= '\U{200A}' || c == '\U{2028}' || c == '\U{2029}' || c == '\U{202F}'
    || c == '\U{205F}' || c == '\U{3000}'
  }

  /** The set `str.strip()` with no argument removes runs of. */
  const Whitespace: set<char> := set c: char | '\t' <= c <= '\U{3000}' && IsSpace(c)

  // ---------------------------------------------------------------------------
  // Substrings: `w in s`

  /** `w` occurs in `s` as a contiguous block of characters. */
  ghost predicate IsInfix(w: string, s: string)
  {
    exists i :: 0 <= i <= |s| && w <= s[i..]
  }

  /** Python's `w in s` for two strings, as a left-to-right scan. */
  function Contains(s: string, w: string): (found: bool)
    ensures found <==> IsInfix(w, s)
    decreases |s|
  {
    if w <= s then
      assert s[0..] == s;
      true
    else if s == [] then
      false
    else
      InfixOfTail(s, w);
      Contains(s[1..], w)
  }

  /** When `w` is not a prefix of a non-empty `s`, it occurs in `s` exactly
      when it occurs in `s` without its first character. */
  lemma InfixOfTail(s: string, w: string)
    requires s != [] && !(w <= s)
    ensures IsInfix(w, s) <==> IsInfix(w, s[1..])
  {
    if IsInfix(w, s[1..]) {
      var i :| 0 <= i <= |s[1..]| && w <= s[1..][i..];
      assert s[1..][i..] == s[i + 1..];
    }
    if IsInfix(w, s) {
      var i :| 0 <= i <= |s| && w <= s[i..];
      assert i != 0;
      assert s[1..][i - 1..] == s[i..];
    }
  }

  lemma InfixOfSelf(s: string)
    ensures IsInfix(s, s)
  {
    assert s[0..] == s;
  }

  /** Being an infix is transitive. */
  lemma InfixTransitive(u: string, v: string, w: string)
    requires IsInfix(u, v) && IsInfix(v, w)
    ensures IsInfix(u, w)
  {
    var i :| 0 <= i <= |v| && u <= v[i..];
    var j :| 0 <= j <= |w| && v <= w[j..];
    assert u <= w[j + i..] by {
      forall k | 0 <= k < |u|
        ensures u[k] == w[j + i..][k]
      {
        assert u[k] == v[i + k];
        assert v[i + k] == w[j..][i + k];
      }
    }
  }

  /** The middle of a concatenation is an infix of it. */
  lemma InfixOfConcat(a: string, w: string, b: string)
    ensures IsInfix(w, a + w + b)
  {
    assert w <= (a + w + b)[|a|..];
  }

  // ---------------------------------------------------------------------------
  // Case folding: `s.lower()`

  function LowerChar(c: char): char
  {
    if 'A' <= c <= 'Z' then (c as int + 32) as char else c
  }

  /** `s.lower()`, folding the letters A-Z only. */
  function Lower(s: string): (r: string)
    ensures |r| == |s|
    ensures forall i :: 0 <= i < |s| ==> r[i] == LowerChar(s[i])
  {
    seq(|s|, i requires 0 <= i < |s| => LowerChar(s[i]))
  }

  /** Lowering commutes with taking a slice. */
  lemma LowerSlice(s: string, i: nat, j: nat)
    requires i <= j <= |s|
    ensures Lower(s[i..j]) == Lower(s)[i..j]
  {
  }

  /** `a` and `b` spell the same letters, up to the case of A-Z. */
  ghost predicate SameUpToCase(a: string, b: string)
  {
    |a| == |b| && forall i :: 0 <= i < |a| ==> LowerChar(a[i]) == LowerChar(b[i])
  }

  // ---------------------------------------------------------------------------
  // Stripping: `s.strip(chars)`

  /** Python's `s.strip(cs)`: removes the longest run of characters drawn
      from `cs` at the front, then at the back, so that what is left neither
      starts nor ends with one of them. `StripSpec` and `StripUnique`
      characterise it. */
  function Strip(s: string, cs: set<char>): (r: string)
    ensures |r| <= |s|
    ensures r == [] || (r[0] !in cs && r[|r| - 1] !in cs)
    ensures s != [] && s[0] !in cs ==> r != [] && r[0] == s[0]
    decreases |s|
  {
    if s != [] && s[0] in cs then Strip(s[1..], cs)
    else if s != [] && s[|s| - 1] in cs then Strip(s[..|s| - 1], cs)
    else s
  }

  /** The number of characters `s.strip(cs)` removes at the front. */
  function StripStart(s: string, cs: set<char>): (n: nat)
    ensures n <= |s|
    decreases |s|
  {
    if s != [] && s[0] in cs then 1 + StripStart(s[1..], cs) else 0
  }

  /** What `Strip` leaves is the slice of `s` starting at `StripStart`, and
      every character it cuts off, at either end, is in `cs`. */
  lemma {:induction false} StripSpec(s: string, cs: set<char>)
    ensures SliceBetweenRuns(s, cs, StripStart(s, cs), Strip(s, cs))
    decreases |s|
  {
    if s != [] && s[0] in cs {
      StripSpec(s[1..], cs);
      CutFront(s, cs, StripStart(s[1..], cs), Strip(s[1..], cs));
    } else if s != [] && s[|s| - 1] in cs {
      StripSpec(s[..|s| - 1], cs);
      CutBack(s, cs, Strip(s[..|s| - 1], cs));
    } else {
      assert s[0..|s|] == s;
    }
  }

  /** `r` is the slice of `s` at `n`, and the characters before and after
      it are in `cs`. */
  ghost predicate SliceBetweenRuns(s: string, cs: set<char>, n: nat, r: string)
  {
    n + |r| <= |s| && r == s[n..n + |r|]
    && (forall k :: 0 <= k < n ==> s[k] in cs)
    && (forall k :: n + |r| <= k < |s| ==> s[k] in cs)
  }

  /** One more character of `cs` in front moves the slice by one. */
  lemma CutFront(s: string, cs: set<char>, n: nat, r: string)
    requires s != [] && s[0] in cs
    requires SliceBetweenRuns(s[1..], cs, n, r)
    ensures SliceBetweenRuns(s, cs, n + 1, r)
  {
    assert s[1..][n..n + |r|] == s[n + 1..n + 1 + |r|];
    forall k | 1 <= k < |s|
      ensures s[k] == s[1..][k - 1]
    {
    }
  }

  /** One more character of `cs` at the back leaves the slice in place. */
  lemma CutBack(s: string, cs: set<char>, r: string)
    requires s != [] && s[|s| - 1] in cs
    requires SliceBetweenRuns(s[..|s| - 1], cs, 0, r)
    ensures SliceBetweenRuns(s, cs, 0, r)
  {
    assert s[..|s| - 1][0..|r|] == s[0..|r|];
  }

  /** `s.strip()` with no argument. */
  function Trim(s: string): string
  {
    Strip(s, Whitespace)
  }

  /** The converse of Strip's postcondition: cutting runs drawn from `cs` off
      both ends of a string that starts and ends outside `cs` gives exactly
      that string back. So `Strip` is the only function meeting
      `StripSpec`. */
  lemma {:induction false} StripUnique(a: string, m: string, b: string, cs: set<char>)
    requires forall c :: c in a ==> c in cs
    requires forall c :: c in b ==> c in cs
    requires m == [] || (m[0] !in cs && m[|m| - 1] !in cs)
    ensures Strip(a + m + b, cs) == m
    decreases |a| + |b|
  {
    var s := a + m + b;
    if a != [] {
      assert s[0] == a[0] && a[0] in a;
      assert s[1..] == a[1..] + m + b;
      assert forall c :: c in a[1..] ==> c in a;
      StripUnique(a[1..], m, b, cs);
    } else if m == [] && b != [] {
      assert s == b && b[0] in b;
      assert s[1..] == [] + [] + b[1..];
      assert forall c :: c in b[1..] ==> c in b;
      StripUnique([], [], b[1..], cs);
    } else if b != [] {
      assert s[0] == m[0];
      assert s[|s| - 1] == b[|b| - 1] && b[|b| - 1] in b;
      assert s[..|s| - 1] == [] + m + b[..|b| - 1];
      assert forall c :: c in b[..|b| - 1] ==> c in b;
      StripUnique([], m, b[..|b| - 1], cs);
    } else {
      assert s == m;
    }
  }

  /** `Strip` changes nothing exactly when the string is empty or starts and
      ends outside `cs`. */
  lemma StripIdentity(s: string, cs: set<char>)
    ensures Strip(s, cs) == s <==> (s == [] || (s[0] !in cs && s[|s| - 1] !in cs))
  {
    if s == [] || (s[0] !in cs && s[|s| - 1] !in cs) {
      assert [] + s + [] == s;
      StripUnique([], s, [], cs);
    }
  }

  /** A string is what `Strip` keeps with a run drawn from `cs` on each
      side. */
  lemma StripParts(s: string, cs: set<char>) returns (front: string, back: string)
    ensures s == front + Strip(s, cs) + back
    ensures forall c :: c in front ==> c in cs
    ensures forall c :: c in back ==> c in cs
  {
    var m := Strip(s, cs);
    var n := StripStart(s, cs);
    StripSpec(s, cs);
    front, back := s[..n], s[n + |m|..];
    assert s == front + m + back;
    forall c | c in front ensures c in cs {
      var k :| 0 <= k < |front| && front[k] == c;
      assert s[k] == c;
    }
    forall c | c in back ensures c in cs {
      var k :| 0 <= k < |back| && back[k] == c;
      assert s[n + |m| + k] == c;
    }
  }

  /** Removing characters of `cs` around a string does not change what
      stripping `cs` yields. */
  lemma {:induction false} StripPadded(a: string, s: string, b: string, cs: set<char>)
    requires forall c :: c in a ==> c in cs
    requires forall c :: c in b ==> c in cs
    ensures Strip(a + s + b, cs) == Strip(s, cs)
  {
    var m := Strip(s, cs);
    var front, back := StripParts(s, cs);
    var padded := (a + front) + m + (back + b);
    assert Strip(padded, cs) == m by {
      DrawnFromConcat(a, front, cs);
      DrawnFromConcat(back, b, cs);
      StripUnique(a + front, m, back + b, cs);
    }
    Regroup(a, front, m, back, b);
  }

  /** Concatenation regrouped around its middle part. */
  lemma Regroup(a: string, f: string, m: string, k: string, b: string)
    ensures a + (f + m + k) + b == (a + f) + m + (k + b)
  {
  }

  /** Two strings drawn from `cs` concatenate to one drawn from `cs`. */
  lemma DrawnFromConcat(x: string, y: string, cs: set<char>)
    requires forall c :: c in x ==> c in cs
    requires forall c :: c in y ==> c in cs
    ensures forall c :: c in x + y ==> c in cs
  {
  }

  /** Stripping that removes nothing leaves the string as it was. */
  lemma StripKeepsLength(s: string, cs: set<char>)
    requires |Strip(s, cs)| == |s|
    ensures Strip(s, cs) == s
  {
    StripSpec(s, cs);
    assert s[0..|s|] == s;
  }

  /** A stripped string is an infix of the original. */
  lemma StripInfix(s: string, cs: set<char>)
    ensures IsInfix(Strip(s, cs), s)
  {
    var n := StripStart(s, cs);
    StripSpec(s, cs);
    assert Strip(s, cs) <= s[n..];
  }

  /** A string strips down to nothing exactly when all its characters are
      drawn from `cs`. */
  lemma StripEmpty(s: string, cs: set<char>)
    ensures Strip(s, cs) == [] <==> forall i :: 0 <= i < |s| ==> s[i] in cs
  {
    var front, back := StripParts(s, cs);
    if Strip(s, cs) == [] {
      forall i | 0 <= i < |s| ensures s[i] in cs {
        if i < |front| {
          assert s[i] == front[i] && front[i] in front;
        } else {
          assert s[i] == back[i - |front|] && back[i - |front|] in back;
        }
      }
    } else {
      var r := Strip(s, cs);
      assert s[|front|] == r[0];
    }
  }

  /** Stripping introduces no character. */
  lemma StripSubset(s: string, cs: set<char>)
    ensures forall c :: c in Strip(s, cs) ==> c in s
  {
    var front, back := StripParts(s, cs);
    forall c | c in Strip(s, cs) ensures c in s {
      var r := Strip(s, cs);
      var k :| 0 <= k < |r| && r[k] == c;
      assert s[|front| + k] == c;
    }
  }

  // ---------------------------------------------------------------------------
  // Joining and splitting: `sep.join(parts)`, `s.split(sep)`

  /** Python's `sep.join(parts)`. */
  function Join(sep: string, parts: seq<string>): (r: string)
    ensures parts == [] ==> r == []
    ensures |parts| == 1 ==> r == parts[0]
    decreases |parts|
  {
    if |parts| == 0 then []
    else if |parts| == 1 then parts[0]
    else parts[0] + sep + Join(sep, parts[1..])
  }

  /** Python's `s.split(sep)` for a one-character separator: the pieces
      between separators, empty pieces included; never an empty list. */
  function Split(s: string, sep: char): (parts: seq<string>)
    ensures |parts| >= 1
    ensures forall k :: 0 <= k < |parts| ==> sep !in parts[k]
    decreases |s|
  {
    if s == [] then [[]]
    else
      var rest := Split(s[1..], sep);
      if s[0] == sep then [[]] + rest
      else [[s[0]] + rest[0]] + rest[1..]
  }

  lemma {:induction false} JoinCons(sep: string, p: string, ps: seq<string>)
    requires ps != []
    ensures Join(sep, [p] + ps) == p + sep + Join(sep, ps)
  {
    assert ([p] + ps)[1..] == ps;
  }

  lemma {:induction false} SplitNoSeparator(s: string, sep: char)
    requires sep !in s
    ensures Split(s, sep) == [s]
    decreases |s|
  {
    if s != [] {
      assert s[1..] == s[1..];
      SplitNoSeparator(s[1..], sep);
      assert [s[0]] + s[1..] == s;
    }
  }

  lemma {:induction false} SplitAfterPiece(p: string, sep: char, t: string)
    requires sep !in p
    ensures Split(p + [sep] + t, sep) == [p] + Split(t, sep)
    decreases |p|
  {
    if p == [] {
      assert p + [sep] + t == [sep] + t;
      assert ([sep] + t)[1..] == t;
    } else {
      var s := p + [sep] + t;
      assert s[1..] == p[1..] + [sep] + t;
      SplitAfterPiece(p[1..], sep, t);
      assert [p[0]] + p[1..] == p;
    }
  }

  /** Splitting a join on the same separator gives the parts back, provided
      there is at least one part and no part contains the separator. */
  lemma {:induction false} SplitJoin(parts: seq<string>, sep: char)
    requires parts != []
    requires forall k :: 0 <= k < |parts| ==> sep !in parts[k]
    ensures Split(Join([sep], parts), sep) == parts
    decreases |parts|
  {
    if |parts| == 1 {
      SplitNoSeparator(parts[0], sep);
    } else {
      JoinCons([sep], parts[0], parts[1..]);
      assert [parts[0]] + parts[1..] == parts;
      SplitAfterPiece(parts[0], sep, Join([sep], parts[1..]));
      SplitJoin(parts[1..], sep);
    }
  }

  /** Joining the pieces of a split with the separator rebuilds the string. */
  lemma {:induction false} JoinSplit(s: string, sep: char)
    ensures Join([sep], Split(s, sep)) == s
    decreases |s|
  {
    if s != [] {
      var rest := Split(s[1..], sep);
      JoinSplit(s[1..], sep);
      if s[0] == sep {
        JoinCons([sep], [], rest);
        assert [sep] + s[1..] == s;
      } else if |rest| == 1 {
        assert [s[0]] + s[1..] == s;
      } else {
        JoinCons([sep], [s[0]] + rest[0], rest[1..]);
        JoinCons([sep], rest[0], rest[1..]);
        assert [rest[0]] + rest[1..] == rest;
        assert [s[0]] + s[1..] == s;
      }
    }
  }

  /** A character found neither in the separator nor in any part is not in
      the join. */
  lemma {:induction false} JoinAvoids(sep: string, parts: seq<string>, c: char)
    requires c !in sep
    requires forall k :: 0 <= k < |parts| ==> c !in parts[k]
    ensures c !in Join(sep, parts)
    decreases |parts|
  {
    if |parts| > 1 {
      JoinAvoids(sep, parts[1..], c);
    }
  }

  /** Every part occurs, whole, in the join. */
  lemma {:induction false} JoinHasPart(sep: string, parts: seq<string>, k: nat)
    requires k < |parts|
    ensures IsInfix(parts[k], Join(sep, parts))
    decreases |parts|
  {
    if |parts| == 1 {
      InfixOfSelf(parts[0]);
    } else if k == 0 {
      assert parts[0] <= Join(sep, parts);
      assert Join(sep, parts)[0..] == Join(sep, parts);
    } else {
      var rest := Join(sep, parts[1..]);
      JoinHasPart(sep, parts[1..], k - 1);
      InfixOfConcat(parts[0] + sep, rest, []);
      assert parts[0] + sep + rest + [] == Join(sep, parts);
      InfixTransitive(parts[k], rest, Join(sep, parts));
    }
  }
}
