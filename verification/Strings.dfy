// String helpers of the utils library: trimming, ASCII lower-casing and their composition.
// A byte string is a Dafny string; every statement holds for all characters, hence for all bytes.

module Strings {

  lemma Assoc(a: string, b: string, c: string)
    ensures a + (b + c) == (a + b) + c
  {
  }

  // The six bytes of the C locale's white space.
  predicate IsSpace(c: char) {
    c == ' ' || c == '\t' || c == '\n' || c == '\r' || c == '\U{000B}' || c == '\U{000C}'
  }

  lemma SixSpaces(c: char)
    ensures IsSpace(c) <==> c as int == 32 || 9 <= c as int <= 13
  {
  }

  predicate AllSpace(s: string) {
    forall i | 0 <= i < |s| :: IsSpace(s[i])
  }

  predicate NoSpace(s: string) {
    forall i | 0 <= i < |s| :: !IsSpace(s[i])
  }

  predicate IsTrimmed(s: string) {
    s == "" || (!IsSpace(s[0]) && !IsSpace(s[|s| - 1]))
  }

  // Index of the first character that is not white space, or the length (npos).
  function FirstNonSpace(s: string): (i: nat)
    ensures i <= |s| && forall k | 0 <= k < i :: IsSpace(s[k])
    ensures i < |s| ==> !IsSpace(s[i])
  {
    FirstNonSpaceFrom(s, 0)
  }

  function FirstNonSpaceFrom(s: string, from: nat): (i: nat)
    requires from <= |s|
    ensures from <= i <= |s| && forall k | from <= k < i :: IsSpace(s[k])
    ensures i < |s| ==> !IsSpace(s[i])
    decreases |s| - from
  {
    if from == |s| || !IsSpace(s[from]) then from else FirstNonSpaceFrom(s, from + 1)
  }

  // One past the last character that is not white space, or zero (npos).
  function LastNonSpaceEnd(s: string): (j: nat)
    ensures j <= |s| && forall k | j <= k < |s| :: IsSpace(s[k])
    ensures j > 0 ==> !IsSpace(s[j - 1])
  {
    LastNonSpaceEndTo(s, |s|)
  }

  function LastNonSpaceEndTo(s: string, to: nat): (j: nat)
    requires to <= |s|
    ensures j <= to && forall k | j <= k < to :: IsSpace(s[k])
    ensures j > 0 ==> !IsSpace(s[j - 1])
  {
    if to == 0 || !IsSpace(s[to - 1]) then to else LastNonSpaceEndTo(s, to - 1)
  }

  // The overload that returns a new string.
  function Trim(s: string): (t: string)
    ensures IsTrimmed(t) && |t| <= |s|
  {
    var start := FirstNonSpace(s);
    if start == |s| then "" else s[start..LastNonSpaceEnd(s)]
  }

  function LowerChar(c: char): (r: char)
    ensures IsSpace(r) == IsSpace(c)
    ensures (r == ':') == (c == ':') && (r == '\n') == (c == '\n')
    ensures !('A' <= r <= 'Z')
  {
    if 'A' <= c <= 'Z' then (c as int + 32) as char else c
  }

  function ToLower(s: string): (t: string)
    ensures |t| == |s| && forall i | 0 <= i < |s| :: t[i] == LowerChar(s[i])
  {
    seq(|s|, i requires 0 <= i < |s| => LowerChar(s[i]))
  }

  function Normalize(s: string): string {
    ToLower(Trim(s))
  }

  predicate Capital(c: char) {
    65 <= c as int <= 90
  }

  // The same character up to the case of an ASCII letter.
  predicate SameLetter(c: char, d: char) {
    || c == d
    || (Capital(c) && d as int == c as int + 32)
    || (Capital(d) && c as int == d as int + 32)
  }

  predicate SameLetters(a: string, b: string) {
    |a| == |b| && forall i | 0 <= i < |a| :: SameLetter(a[i], b[i])
  }

  predicate NoCapital(s: string) {
    forall i | 0 <= i < |s| :: !Capital(s[i])
  }

  // Lower-casing changes the case of ASCII capitals and nothing else.
  lemma LowerOnlyCapitals(s: string)
    ensures SameLetters(ToLower(s), s) && NoCapital(ToLower(s))
    ensures ToLower(s) == s <==> NoCapital(s)
  {
    if ToLower(s) == s {
      assert forall i | 0 <= i < |s| :: s[i] == ToLower(s)[i];
    }
  }

  // Two strings are lower-cased alike exactly when they differ in letter case only.
  lemma LowerAlikeIff(a: string, b: string)
    ensures ToLower(a) == ToLower(b) <==> SameLetters(a, b)
  {
    if ToLower(a) == ToLower(b) {
      assert forall i | 0 <= i < |a| :: LowerChar(a[i]) == ToLower(a)[i] == ToLower(b)[i] == LowerChar(b[i]);
    }
  }

  // Two names meet exactly when, without their padding, they differ in letter case only; all
  // others stay apart.
  lemma NormalizeAlikeIff(a: string, b: string)
    ensures Normalize(a) == Normalize(b) <==> SameLetters(Trim(a), Trim(b))
  {
    LowerAlikeIff(Trim(a), Trim(b));
  }

  // The only way to split a string into white space, a core with non-space ends and
  // white space again is to take Trim as the core: Trim is the maximal such substring.
  lemma TrimIsTheCore(before: string, core: string, after: string)
    requires AllSpace(before) && AllSpace(after) && IsTrimmed(core)
    ensures Trim(before + core + after) == core
  {
    var s := before + core + after;
    var a, b := |before|, |before| + |core|;
    assert forall k | 0 <= k < a :: s[k] == before[k];
    assert forall k | b <= k < |s| :: s[k] == after[k - b];
    if core != "" {
      assert s[a] == core[0] && s[b - 1] == core[|core| - 1];
      assert FirstNonSpace(s) == a && LastNonSpaceEnd(s) == b;
      assert s[a..b] == core;
    } else {
      assert FirstNonSpace(s) == |s|;
    }
  }

  lemma TrimSplits(s: string) returns (before: string, after: string)
    ensures s == before + Trim(s) + after
    ensures AllSpace(before) && AllSpace(after)
  {
    var i, j := FirstNonSpace(s), LastNonSpaceEnd(s);
    if i == |s| {
      before, after := s, "";
    } else {
      before, after := s[..i], s[j..];
    }
  }

  lemma TrimOfTrimmed(s: string)
    requires IsTrimmed(s)
    ensures Trim(s) == s
  {
    TrimIsTheCore("", s, "");
    assert "" + s + "" == s;
  }

  lemma ConcatAllSpace(a: string, b: string)
    requires AllSpace(a) && AllSpace(b)
    ensures AllSpace(a + b)
  {
  }

  lemma Regroup(a: string, b: string, c: string, d: string, e: string)
    ensures a + (b + c + d) + e == (a + b) + c + (d + e)
  {
  }

  lemma TrimIgnoresPadding(before: string, s: string, after: string)
    requires AllSpace(before) && AllSpace(after)
    ensures Trim(before + s + after) == Trim(s)
  {
    var p, q := TrimSplits(s);
    var core := Trim(s);
    ConcatAllSpace(before, p);
    ConcatAllSpace(q, after);
    TrimIsTheCore(before + p, core, q + after);
    Regroup(before, p, core, q, after);
  }

  // Neither padding nor letter case of a name can be seen through Normalize.
  lemma NormalizeIgnoresCaseAndPadding(before: string, a: string, b: string, after: string)
    requires AllSpace(before) && AllSpace(after) && ToLower(a) == ToLower(b)
    ensures Normalize(before + a + after) == Normalize(b)
  {
    TrimIgnoresPadding(before, a, after);
    LowerOfTrim(a);
    LowerOfTrim(b);
  }

  lemma LowerOfParts(p: string, core: string, q: string)
    ensures ToLower(p + core + q) == ToLower(p) + ToLower(core) + ToLower(q)
  {
  }

  lemma LowerKeepsSpace(p: string)
    ensures AllSpace(p) ==> AllSpace(ToLower(p))
    ensures IsTrimmed(p) ==> IsTrimmed(ToLower(p))
  {
  }

  lemma LowerOfTrim(s: string)
    ensures Trim(ToLower(s)) == ToLower(Trim(s))
  {
    var p, q := TrimSplits(s);
    var core := Trim(s);
    LowerKeepsSpace(p);
    LowerKeepsSpace(core);
    LowerKeepsSpace(q);
    LowerOfParts(p, core, q);
    TrimIsTheCore(ToLower(p), ToLower(core), ToLower(q));
  }

  lemma NormalizeIdempotent(s: string)
    ensures Normalize(Normalize(s)) == Normalize(s)
    ensures Trim(Normalize(s)) == Normalize(s) && ToLower(Normalize(s)) == Normalize(s)
  {
    TrimOfTrimmed(Trim(s));
    LowerOfTrim(Trim(s));
    assert ToLower(Normalize(s)) == Normalize(s);
  }

  // The overloads that take a non-const reference and change the argument itself.
  class Text {
    var data: string

    constructor (s: string)
      ensures data == s
    {
      data := s;
    }

    method TrimInPlace()
      modifies this
      ensures data == Trim(old(data))
    {
      ghost var s := data;
      var start := FirstNonSpace(data);
      if start > 0 {
        data := data[start..];
      }
      assert data == s[start..];
      var end := LastNonSpaceEnd(data);
      if end > 0 {
        data := data[..end];
      }
      if start < |s| {
        assert s[start..][0] == s[start];
        InPlaceIsTrim(s, start, end);
      }
    }

    method LowerInPlace()
      modifies this
      ensures data == ToLower(old(data))
      ensures SameLetters(data, old(data)) && NoCapital(data)
    {
      LowerOnlyCapitals(data);
      var i := 0;
      while i < |data|
        invariant 0 <= i <= |data| == |old(data)|
        invariant forall k | 0 <= k < i :: data[k] == LowerChar(old(data)[k])
        invariant forall k | i <= k < |data| :: data[k] == old(data)[k]
      {
        data := data[i := LowerChar(data[i])];
        i := i + 1;
      }
    }

    method NormalizeInPlace()
      modifies this
      ensures data == Normalize(old(data))
    {
      TrimInPlace();
      LowerInPlace();
    }
  }

  // Erasing the white prefix and then the white suffix leaves exactly Trim.
  lemma InPlaceIsTrim(s: string, start: nat, end: nat)
    requires start < |s| && AllSpace(s[..start]) && !IsSpace(s[start])
    requires 0 < end <= |s| - start && AllSpace(s[start + end..]) && !IsSpace(s[start + end - 1])
    ensures Trim(s) == s[start..start + end]
  {
    TrimIsTheCore(s[..start], s[start..start + end], s[start + end..]);
    assert s == s[..start] + s[start..start + end] + s[start + end..];
  }
}
