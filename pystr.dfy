/** The few Python `str` operations the crawler relies on: `lower`,
    `replace`, `strip`, the `in` substring test and `find`, with Python's
    semantics for the characters the crawler sees. */
module PyStr {
  import opened Results

  /** Python's `str.isspace` on the ASCII range: tab, line feed, vertical tab,
      form feed, carriage return, the four information separators and space. */
  predicate IsSpace(c: char) {
    9 <= c as int <= 13 || 28 <= c as int <= 32
  }

  /** A text made only of whitespace, such as a blank line. */
  predicate IsBlank(s: string) {
    forall i :: 0 <= i < |s| ==> IsSpace(s[i])
  }

  function LowerChar(c: char): (r: char)
    ensures 'A' <= c <= 'Z' ==> r as int == c as int + 32
    ensures !('A' <= c <= 'Z') ==> r == c
  {
    if 'A' <= c <= 'Z' then (c as int + 32) as char else c
  }

  /** `s.lower()`: every upper-case ASCII letter becomes its lower-case form. */
  function Lower(s: string): (r: string)
    ensures |r| == |s|
    ensures forall i :: 0 <= i < |s| ==> r[i] == LowerChar(s[i])
  {
    if s == [] then [] else [LowerChar(s[0])] + Lower(s[1..])
  }

  /** `p` occurs in `s` starting at index `i`. */
  predicate OccursAt(s: string, p: string, i: int) {
    0 <= i && i + |p| <= |s| && s[i..i + |p|] == p
  }

  /** An occurrence in `s[1..]` is an occurrence in `s` moved one place left. */
  lemma OccursShiftAt(s: string, p: string, j: int)
    requires |s| >= 1 && 1 <= j
    ensures OccursAt(s, p, j) <==> OccursAt(s[1..], p, j - 1)
  {
    if j + |p| <= |s| {
      assert s[1..][j - 1..j - 1 + |p|] == s[j..j + |p|];
    }
  }

  /** Occurrences in `s[1..]` are the occurrences in `s` moved one place left. */
  lemma OccursShift(s: string, p: string)
    requires |s| >= 1
    ensures forall j :: 1 <= j ==> (OccursAt(s, p, j) <==> OccursAt(s[1..], p, j - 1))
  {
    forall j | 1 <= j
      ensures OccursAt(s, p, j) <==> OccursAt(s[1..], p, j - 1)
    {
      OccursShiftAt(s, p, j);
    }
  }

  /** `p in s`. */
  function Contains(s: string, p: string): (b: bool)
    ensures b <==> exists i: int :: OccursAt(s, p, i)
    decreases |s|
  {
    if |s| < |p| then false
    else if s[..|p|] == p then
      assert OccursAt(s, p, 0);
      true
    else
      var rest := Contains(s[1..], p);
      assert !OccursAt(s, p, 0);
      assert rest <==> exists i: int :: OccursAt(s, p, i) by {
        OccursShift(s, p);
        if rest {
          var i: int :| OccursAt(s[1..], p, i);
          assert OccursAt(s, p, i + 1);
        }
      }
      rest
  }

  /** `s.find(p)`: the index of the leftmost occurrence of `p`, or -1. */
  function Find(s: string, p: string): (k: int)
    ensures -1 <= k <= |s|
    ensures k == -1 <==> !Contains(s, p)
    ensures k >= 0 ==> OccursAt(s, p, k) && forall j: int :: j < k ==> !OccursAt(s, p, j)
    decreases |s|
  {
    if |s| < |p| then -1
    else if s[..|p|] == p then 0
    else
      var k := Find(s[1..], p);
      assert !OccursAt(s, p, 0);
      assert k >= 0 ==> OccursAt(s, p, k + 1) && forall j: int :: j < k + 1 ==> !OccursAt(s, p, j) by {
        OccursShift(s, p);
      }
      if k == -1 then -1 else k + 1
  }

  /** `s.replace(pat, rep)` for a non-empty `pat`: occurrences are found left to
      right and do not overlap; the replacement text is never rescanned. */
  function ReplaceAll(s: string, pat: string, rep: string): string
    requires |pat| > 0
    decreases |s|
  {
    if |s| < |pat| then s
    else if s[..|pat|] == pat then rep + ReplaceAll(s[|pat|..], pat, rep)
    else [s[0]] + ReplaceAll(s[1..], pat, rep)
  }

  lemma {:induction false} ReplaceAbsent(s: string, pat: string, rep: string)
    requires |pat| > 0
    requires !Contains(s, pat)
    ensures ReplaceAll(s, pat, rep) == s
    decreases |s|
  {
    if |s| >= |pat| {
      assert !OccursAt(s, pat, 0);
      assert s[..|pat|] != pat;
      OccursShift(s, pat);
      ReplaceAbsent(s[1..], pat, rep);
      assert [s[0]] + s[1..] == s;
    }
  }

  /** `s.replace(pat, rep)` as `s.find(pat)` describes it: with no
      occurrence `s` is kept; otherwise the characters before the leftmost
      occurrence are copied, that occurrence is replaced, and replacement
      carries on after it. */
  predicate ReplacedAtFind(s: string, pat: string, rep: string)
    requires |pat| > 0
  {
    var k := Find(s, pat);
    ReplaceAll(s, pat, rep) ==
      if k == -1 then s else s[..k] + rep + ReplaceAll(s[k + |pat|..], pat, rep)
  }

  /** When no occurrence starts at the front, `find` and `replace` both step
      past the first character. */
  lemma ReplaceFindSkip(s: string, pat: string, rep: string)
    requires |pat| > 0 && |s| >= |pat| && s[..|pat|] != pat
    ensures ReplaceAll(s, pat, rep) == [s[0]] + ReplaceAll(s[1..], pat, rep)
    ensures Find(s, pat) == if Find(s[1..], pat) == -1 then -1 else Find(s[1..], pat) + 1
  {
  }

  /** The step case of ReplaceAtFind: the description carries over from
      `s[1..]` to `s`. */
  lemma ReplacedAtFindStep(s: string, pat: string, rep: string)
    requires |pat| > 0 && |s| >= |pat| && s[..|pat|] != pat
    requires ReplacedAtFind(s[1..], pat, rep)
    ensures ReplacedAtFind(s, pat, rep)
  {
    var t := s[1..];
    var k := Find(t, pat);
    ReplaceFindSkip(s, pat, rep);
    if k == -1 {
      assert [s[0]] + t == s;
    } else {
      ConsPrefix(s, k);
      DropDrop(s, k + |pat|);
      Regroup([s[0]], t[..k], rep, ReplaceAll(t[k + |pat|..], pat, rep));
    }
  }

  lemma {:induction false} ReplaceAtFind(s: string, pat: string, rep: string)
    requires |pat| > 0
    ensures ReplacedAtFind(s, pat, rep)
    decreases |s|
  {
    if |s| < |pat| {
      assert Find(s, pat) == -1;
    } else if s[..|pat|] == pat {
      assert Find(s, pat) == 0;
      assert s[..0] + rep == rep;
    } else {
      ReplaceAtFind(s[1..], pat, rep);
      ReplacedAtFindStep(s, pat, rep);
    }
  }

  /** `s.lstrip()`. */
  function StripLeading(s: string): string
  {
    if s != [] && IsSpace(s[0]) then StripLeading(s[1..]) else s
  }

  /** What `lstrip` removes is a run of whitespace at the front, and what it
      keeps does not start with whitespace. */
  lemma {:induction false} StripLeadingSpec(s: string)
    ensures |StripLeading(s)| <= |s| && StripLeading(s) == s[|s| - |StripLeading(s)|..]
    ensures forall i :: 0 <= i < |s| - |StripLeading(s)| ==> IsSpace(s[i])
    ensures StripLeading(s) != [] ==> !IsSpace(StripLeading(s)[0])
  {
    if s != [] && IsSpace(s[0]) {
      var t := s[1..];
      var r := StripLeading(t);
      assert StripLeading(s) == r;
      StripLeadingSpec(t);
      var k := |t| - |r|;
      assert r == t[k..];
      assert t[k..] == s[k + 1..];
      forall i | 1 <= i < k + 1 ensures IsSpace(s[i]) {
        assert s[i] == t[i - 1];
      }
    } else {
      assert StripLeading(s) == s;
    }
  }

  /** `s.rstrip()`. */
  function StripTrailing(s: string): string
  {
    if s != [] && IsSpace(s[|s| - 1]) then StripTrailing(s[..|s| - 1]) else s
  }

  /** What `rstrip` removes is a run of whitespace at the back, and what it
      keeps does not end with whitespace. */
  lemma {:induction false} StripTrailingSpec(s: string)
    ensures |StripTrailing(s)| <= |s| && StripTrailing(s) == s[..|StripTrailing(s)|]
    ensures forall i :: |StripTrailing(s)| <= i < |s| ==> IsSpace(s[i])
    ensures StripTrailing(s) != [] ==> !IsSpace(StripTrailing(s)[|StripTrailing(s)| - 1])
  {
    if s != [] && IsSpace(s[|s| - 1]) {
      var r := StripTrailing(s[..|s| - 1]);
      StripTrailingSpec(s[..|s| - 1]);
      assert s[..|s| - 1][..|r|] == s[..|r|];
      forall i | |r| <= i < |s| - 1 ensures IsSpace(s[i]) {
        assert s[i] == s[..|s| - 1][i];
      }
    }
  }

  /** `s.strip()`. */
  function Strip(s: string): string
  {
    StripTrailing(StripLeading(s))
  }

  /** `strip` keeps the longest slice of `s` that neither starts nor ends with
      whitespace, everything cut off being whitespace. */
  lemma StripSpec(s: string)
    ensures exists a: nat :: OccursAt(s, Strip(s), a)
              && (forall i :: 0 <= i < a ==> IsSpace(s[i]))
              && (forall i :: a + |Strip(s)| <= i < |s| ==> IsSpace(s[i]))
    ensures Strip(s) != [] ==> !IsSpace(Strip(s)[0]) && !IsSpace(Strip(s)[|Strip(s)| - 1])
  {
    var l := StripLeading(s);
    var r := StripTrailing(l);
    StripLeadingSpec(s);
    StripTrailingSpec(l);
    var a: nat := |s| - |l|;
    assert s[a..a + |r|] == r;
    assert OccursAt(s, r, a);
    forall i | a + |r| <= i < |s| ensures IsSpace(s[i]) {
      assert s[i] == l[i - a];
    }
    if r != [] {
      assert r[0] == l[0];
    }
    assert r == Strip(s);
    assert OccursAt(s, Strip(s), a) && (forall i :: 0 <= i < a ==> IsSpace(s[i]))
      && (forall i :: a + |Strip(s)| <= i < |s| ==> IsSpace(s[i]));
  }

  lemma StripIdempotent(s: string)
    ensures Strip(Strip(s)) == Strip(s)
  {
    var t := Strip(s);
    StripSpec(s);
    assert StripLeading(t) == t;
    assert StripTrailing(t) == t;
  }

  /** `len(line.strip()) == 0` holds exactly for lines made only of whitespace. */
  lemma StripEmptyIffBlank(s: string)
    ensures |Strip(s)| == 0 <==> IsBlank(s)
  {
    StripSpec(s);
    if IsBlank(s) {
      StripAllSpace(s);
    }
  }

  lemma {:induction false} StripAllSpace(s: string)
    requires IsBlank(s)
    ensures StripLeading(s) == []
  {
    if s != [] {
      StripAllSpace(s[1..]);
    }
  }

  // ---------------------------------------------------------------------
  // Working piecewise: how the operations above act on a concatenation

  lemma LowerConcat(a: string, b: string)
    ensures Lower(a + b) == Lower(a) + Lower(b)
  {
    assert forall i :: 0 <= i < |a + b| ==> Lower(a + b)[i] == (Lower(a) + Lower(b))[i];
  }

  /** A text without upper-case letters is its own lower-case form. */
  lemma LowerIdentity(s: string)
    requires forall i :: 0 <= i < |s| ==> !('A' <= s[i] <= 'Z')
    ensures Lower(s) == s
  {
  }

  /** No occurrence of `p` can span the junction of `a` and `b`: one of the
      two characters next to it is not a character of `p`. */
  predicate Separated(a: string, b: string, p: string) {
    a == [] || b == [] || a[|a| - 1] !in p || b[0] !in p
  }

  /** A text lacking one of the characters of `p` does not contain `p`. */
  lemma MissingChar(s: string, p: string, k: nat)
    requires k < |p| && p[k] !in s
    ensures !Contains(s, p)
  {
    forall i: int | 0 <= i && i + |p| <= |s| ensures !OccursAt(s, p, i) {
      assert s[i..i + |p|][k] == s[i + k];
    }
  }

  lemma Untouched(s: string, pat: string, rep: string, k: nat)
    requires |pat| > 0 && k < |pat| && pat[k] !in s
    ensures ReplaceAll(s, pat, rep) == s
  {
    MissingChar(s, pat, k);
    ReplaceAbsent(s, pat, rep);
  }

  lemma DropOfConcat(a: string, b: string, n: nat)
    requires n <= |a|
    ensures (a + b)[n..] == a[n..] + b
  {
  }

  /** An occurrence of `p` cannot start inside `a` and end inside `b`. */
  lemma NoStraddle(a: string, b: string, p: string, i: int)
    requires Separated(a, b, p)
    requires 0 <= i < |a| < i + |p| <= |a| + |b|
    ensures (a + b)[i..i + |p|] != p
  {
    var s := a + b;
    assert s[i..i + |p|][|a| - 1 - i] == a[|a| - 1];
    assert s[i..i + |p|][|a| - i] == b[0];
    assert p[|a| - 1 - i] in p && p[|a| - i] in p;
  }

  /** `replace` works on the two sides of a junction no occurrence can span. */
  lemma {:induction false} ReplaceConcat(a: string, b: string, pat: string, rep: string)
    requires |pat| > 0 && Separated(a, b, pat)
    ensures ReplaceAll(a + b, pat, rep) == ReplaceAll(a, pat, rep) + ReplaceAll(b, pat, rep)
    decreases |a|
  {
    var s := a + b;
    if a == [] {
      assert s == b;
    } else if |s| < |pat| {
      assert ReplaceAll(s, pat, rep) == s;
    } else if |a| >= |pat| && a[..|pat|] == pat {
      var a' := a[|pat|..];
      assert s[..|pat|] == pat;
      DropOfConcat(a, b, |pat|);
      assert a' != [] ==> a'[|a'| - 1] == a[|a| - 1];
      ReplaceConcat(a', b, pat, rep);
      Assoc(rep, ReplaceAll(a', pat, rep), ReplaceAll(b, pat, rep));
    } else {
      var a' := a[1..];
      if |a| < |pat| {
        NoStraddle(a, b, pat, 0);
      } else {
        assert s[..|pat|] == a[..|pat|];
      }
      assert s[..|pat|] != pat;
      assert s[0] == a[0];
      DropOfConcat(a, b, 1);
      assert a' != [] ==> a'[|a'| - 1] == a[|a| - 1];
      ReplaceConcat(a', b, pat, rep);
      if |a| < |pat| {
        assert ReplaceAll(a', pat, rep) == a';
        assert [a[0]] + a' == a;
      }
      Assoc([a[0]], ReplaceAll(a', pat, rep), ReplaceAll(b, pat, rep));
    }
  }

  lemma {:induction false} StripLeadingSpaces(a: string, b: string)
    requires IsBlank(a)
    ensures StripLeading(a + b) == StripLeading(b)
    decreases |a|
  {
    if a == [] {
      assert a + b == b;
    } else {
      DropOfConcat(a, b, 1);
      assert (a + b)[0] == a[0];
      assert StripLeading(a + b) == StripLeading(a[1..] + b);
      StripLeadingSpaces(a[1..], b);
    }
  }

  lemma StripLeadingStops(a: string, b: string)
    requires a != [] && !IsSpace(a[0])
    ensures StripLeading(a + b) == a + b
  {
    assert (a + b)[0] == a[0];
  }

  lemma {:induction false} StripTrailingSpaces(a: string, b: string)
    requires IsBlank(b)
    ensures StripTrailing(a + b) == StripTrailing(a)
    decreases |b|
  {
    if b == [] {
      assert a + b == a;
    } else {
      var b' := b[..|b| - 1];
      assert (a + b)[..|a + b| - 1] == a + b';
      assert (a + b)[|a + b| - 1] == b[|b| - 1];
      assert StripTrailing(a + b) == StripTrailing(a + b');
      StripTrailingSpaces(a, b');
    }
  }

  lemma StripTrailingStops(a: string, b: string)
    requires b != [] && !IsSpace(b[|b| - 1])
    ensures StripTrailing(a + b) == a + b
  {
    assert (a + b)[|a + b| - 1] == b[|b| - 1];
  }
}
