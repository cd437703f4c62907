// The part of the C++ stream library that the HTTP parsers stand on: std::getline,
// whitespace-delimited extraction, and decimal numbers in both directions.

module Streams {
  import opened Strings

  datatype Option<T> = None | Some(value: T)

  // ---------------------------------------------------------------- lines

  // Index of the first c, or the length (npos).
  function Find(s: string, c: char): (i: nat)
    ensures i <= |s| && forall k | 0 <= k < i :: s[k] != c
    ensures i < |s| ==> s[i] == c
  {
    FindFrom(s, c, 0)
  }

  function FindFrom(s: string, c: char, from: nat): (i: nat)
    requires from <= |s|
    ensures from <= i <= |s| && forall k | from <= k < i :: s[k] != c
    ensures i < |s| ==> s[i] == c
    decreases |s| - from
  {
    if from == |s| || s[from] == c then from else FindFrom(s, c, from + 1)
  }

  lemma FindIs(s: string, c: char, i: nat)
    requires i <= |s| && (forall k | 0 <= k < i :: s[k] != c) && (i < |s| ==> s[i] == c)
    ensures Find(s, c) == i
  {
  }

  // What std::getline stores, and what it leaves in the stream.
  function RawLine(s: string): string {
    s[..Find(s, '\n')]
  }

  function AfterLine(s: string): (rest: string)
    ensures s != "" ==> |rest| < |s|
  {
    var i := Find(s, '\n');
    if i < |s| then s[i + 1..] else ""
  }

  // One trailing carriage return is dropped from every line.
  function StripCr(line: string): string {
    if line != "" && line[|line| - 1] == '\r' then line[..|line| - 1] else line
  }

  function Line(s: string): string {
    StripCr(RawLine(s))
  }

  lemma LineOfCrlf(line: string, rest: string)
    requires '\n' !in line
    ensures Find(line + "\r\n" + rest, '\n') == |line| + 1
    ensures Line(line + "\r\n" + rest) == line && AfterLine(line + "\r\n" + rest) == rest
  {
    var s := line + "\r\n" + rest;
    FindIs(s, '\n', |line| + 1);
    assert s[..|line| + 1] == line + "\r";
  }

  // Without a carriage return, the text up to the line feed is the line; the last line may
  // lack the line feed.
  lemma LineOfLf(line: string, rest: string)
    requires '\n' !in line && (line == "" || line[|line| - 1] != '\r')
    ensures Line(line + "\n" + rest) == line && AfterLine(line + "\n" + rest) == rest
    ensures Line(line) == line && AfterLine(line) == ""
  {
    var s := line + "\n" + rest;
    FindIs(s, '\n', |line|);
    assert s[..|line|] == line;
    FindIs(line, '\n', |line|);
    assert line[..|line|] == line;
  }

  class InputStream {
    var rest: string

    constructor (text: string)
      ensures rest == text
    {
      rest := text;
    }

    // std::getline: fails exactly when nothing is left.
    method GetLine() returns (ok: bool, line: string)
      modifies this
      ensures ok == (old(rest) != "")
      ensures ok ==> line == RawLine(old(rest)) && rest == AfterLine(old(rest))
      ensures !ok ==> line == "" && rest == ""
    {
      ok, line := rest != "", "";
      ghost var whole := rest;
      while rest != "" && rest[0] != '\n'
        invariant whole == line + rest && '\n' !in line
        decreases |rest|
      {
        line := line + [rest[0]];
        rest := rest[1..];
      }
      FindIs(whole, '\n', |line|);
      if rest != "" {
        rest := rest[1..];
      }
    }

    // Streaming out the whole remaining buffer (rdbuf).
    method ReadRest() returns (text: string)
      modifies this
      ensures text == old(rest) && rest == ""
    {
      text := rest;
      rest := "";
    }
  }

  // ---------------------------------------------------------------- tokens

  function SkipSpace(s: string): (r: string)
    ensures |r| <= |s|
  {
    s[FirstNonSpace(s)..]
  }

  function TokenLength(s: string): (n: nat)
    ensures n <= |s| && forall k | 0 <= k < n :: !IsSpace(s[k])
    ensures n < |s| ==> IsSpace(s[n])
  {
    TokenEndFrom(s, 0)
  }

  function TokenEndFrom(s: string, from: nat): (n: nat)
    requires from <= |s|
    ensures from <= n <= |s| && forall k | from <= k < n :: !IsSpace(s[k])
    ensures n < |s| ==> IsSpace(s[n])
    decreases |s| - from
  {
    if from == |s| || IsSpace(s[from]) then from else TokenEndFrom(s, from + 1)
  }

  // stream >> string: the next token and what follows it; an empty token is a failed extraction.
  function Token(s: string): (r: (string, string))
    ensures NoSpace(r.0)
  {
    var t := SkipSpace(s);
    (t[..TokenLength(t)], t[TokenLength(t)..])
  }

  lemma NoTokenLeft(s: string)
    requires s == ""
    ensures Token(s).0 == "" && Token(s).1 == ""
  {
  }

  lemma TokenOf(word: string, rest: string)
    requires word != "" && NoSpace(word) && (rest == "" || IsSpace(rest[0]))
    ensures Token(word + rest) == (word, rest)
    ensures Token(" " + word + rest) == (word, rest)
  {
    var s := word + rest;
    assert s[0] == word[0] && FirstNonSpace(s) == 0;
    assert rest != "" ==> s[|word|] == rest[0];
    assert TokenLength(s) == |word|;
    var t := " " + word + rest;
    assert t[1..] == s && FirstNonSpace(t) == 1;
  }

  lemma TokenShrinks(s: string)
    ensures Token(s).0 != "" ==> |Token(s).1| < |s|
  {
  }

  // The words of a text, white space of any kind and amount apart.
  function Words(s: string): seq<string>
    decreases |s|
  {
    var (word, rest) := Token(s);
    TokenShrinks(s);
    if word == "" then [] else [word] + Words(rest)
  }

  lemma WordsCons(pad: string, word: string, rest: string)
    requires AllSpace(pad) && word != "" && NoSpace(word) && (rest == "" || IsSpace(rest[0]))
    ensures Words(pad + word + rest) == [word] + Words(rest)
  {
    var s, t := pad + word + rest, word + rest;
    assert forall k | 0 <= k < |pad| :: s[k] == pad[k];
    assert s[|pad|] == word[0] && FirstNonSpace(s) == |pad| && s[|pad|..] == t;
    assert rest != "" ==> t[|word|] == rest[0];
    assert TokenLength(t) == |word|;
  }

  lemma NoWords(pad: string)
    requires AllSpace(pad)
    ensures Words(pad) == []
  {
    assert FirstNonSpace(pad) == |pad|;
  }

  // ---------------------------------------------------------------- decimal numbers

  const SIZE_LIMIT: nat := 0x1_0000_0000_0000_0000
  const U16_LIMIT: nat := 0x1_0000

  predicate IsDigit(c: char) {
    '0' <= c <= '9'
  }

  predicate AllDigits(s: string) {
    forall i | 0 <= i < |s| :: IsDigit(s[i])
  }

  function DigitValue(c: char): (d: nat)
    requires IsDigit(c)
    ensures d < 10
  {
    c as int - '0' as int
  }

  function DigitOf(d: nat): (c: char)
    requires d < 10
    ensures IsDigit(c) && DigitValue(c) == d
  {
    ('0' as int + d) as char
  }

  // The number a digit string denotes.
  function Value(s: string): nat
    requires AllDigits(s)
  {
    ValueTo(s, |s|)
  }

  function ValueTo(s: string, n: nat): nat
    requires n <= |s| && forall i | 0 <= i < n :: IsDigit(s[i])
  {
    if n == 0 then 0 else 10 * ValueTo(s, n - 1) + DigitValue(s[n - 1])
  }

  lemma {:induction false} ValueOfSnoc(s: string, t: string, n: nat)
    requires n <= |s| <= |t| && (forall i | 0 <= i < n :: IsDigit(s[i]) && s[i] == t[i])
    ensures ValueTo(t, n) == ValueTo(s, n)
  {
    if n > 0 {
      ValueOfSnoc(s, t, n - 1);
    }
  }

  // Printing an unsigned integer.
  function Decimal(n: nat): (s: string)
    ensures s != "" && AllDigits(s)
  {
    if n < 10 then [DigitOf(n)] else Decimal(n / 10) + [DigitOf(n % 10)]
  }

  lemma {:induction false} DecimalDenotes(n: nat)
    ensures Value(Decimal(n)) == n
  {
    var s := Decimal(n);
    if n >= 10 {
      DecimalDenotes(n / 10);
      ValueOfSnoc(Decimal(n / 10), s, |s| - 1);
    } else {
      assert ValueTo(s, 0) == 0;
    }
  }

  lemma {:induction false} ValueGrows(s: string, n: nat)
    requires AllDigits(s) && n <= |s|
    ensures ValueTo(s, n) <= Value(s)
    decreases |s| - n
  {
    if n < |s| {
      ValueGrows(s, n + 1);
    }
  }

  lemma DecimalIsPlain(n: nat)
    ensures NoSpace(Decimal(n)) && IsTrimmed(Decimal(n)) && '\n' !in Decimal(n)
  {
    var s := Decimal(n);
    assert forall i | 0 <= i < |s| :: IsDigit(s[i]);
  }

  // No superfluous leading zero.
  predicate Canonical(s: string) {
    |s| > 1 ==> s[0] != '0'
  }

  lemma {:induction false} DecimalIsCanonical(n: nat)
    ensures Canonical(Decimal(n)) && (n > 0 ==> Decimal(n)[0] != '0')
  {
    if n >= 10 {
      DecimalIsCanonical(n / 10);
    } else {
      assert DigitValue(Decimal(n)[0]) == n;
    }
  }

  lemma ValueSnoc(s: string)
    requires s != "" && AllDigits(s)
    ensures Value(s) == 10 * Value(s[..|s| - 1]) + DigitValue(s[|s| - 1])
  {
    ValueOfSnoc(s[..|s| - 1], s, |s| - 1);
  }

  lemma {:induction false} LeadingDigitCounts(s: string)
    requires s != "" && AllDigits(s) && s[0] != '0'
    ensures Value(s) > 0
    decreases |s|
  {
    ValueSnoc(s);
    if |s| > 1 {
      LeadingDigitCounts(s[..|s| - 1]);
    }
  }

  // The printed form is the only digit string without a superfluous zero that denotes n.
  lemma {:induction false} OnlyDecimal(s: string)
    requires s != "" && AllDigits(s) && Canonical(s)
    ensures s == Decimal(Value(s))
    decreases |s|
  {
    var init, last := s[..|s| - 1], s[|s| - 1];
    ValueSnoc(s);
    assert s == init + [last] && DigitOf(DigitValue(last)) == last;
    if init == "" {
      assert Value(init) == 0;
    } else {
      LeadingDigitCounts(init);
      OnlyDecimal(init);
    }
  }

  // std::from_chars into a 64-bit size over the whole string.
  function FromChars(s: string): Option<nat> {
    if s != "" && AllDigits(s) && Value(s) < SIZE_LIMIT then Some(Value(s)) else None
  }

  // The digit loop: the accumulator is compared before every multiplication, so it never
  // leaves the 64-bit range.
  method ParseSize(s: string) returns (r: Option<nat>)
    ensures r == FromChars(s)
  {
    if s == "" {
      return None;
    }
    var n, i := 0, 0;
    while i < |s|
      invariant i <= |s| && forall k | 0 <= k < i :: IsDigit(s[k])
      invariant n == ValueTo(s, i) < SIZE_LIMIT
    {
      if !IsDigit(s[i]) {
        return None;
      }
      var d := DigitValue(s[i]);
      if n > (SIZE_LIMIT - 1 - d) / 10 {
        if AllDigits(s) { ValueGrows(s, i + 1); }
        return None;
      }
      n := 10 * n + d;
      i := i + 1;
    }
    return Some(n);
  }

  function DigitRun(s: string): (n: nat)
    ensures n <= |s| && forall k | 0 <= k < n :: IsDigit(s[k])
    ensures n < |s| ==> !IsDigit(s[n])
  {
    DigitRunFrom(s, 0)
  }

  function DigitRunFrom(s: string, from: nat): (n: nat)
    requires from <= |s|
    ensures from <= n <= |s| && forall k | from <= k < n :: IsDigit(s[k])
    ensures n < |s| ==> !IsDigit(s[n])
    decreases |s| - from
  {
    if from == |s| || !IsDigit(s[from]) then from else DigitRunFrom(s, from + 1)
  }

  // stream >> uint16: optional sign, then the longest digit run; out of range is a failed
  // extraction and a minus sign negates modulo 2^16.
  function ExtractU16(s: string): (r: Option<nat>)
    ensures r.Some? ==> r.value < U16_LIMIT
  {
    var t := SkipSpace(s);
    if t != "" && t[0] == '-' then
      var r := UnsignedRun(t[1..]);
      if r.Some? then Some(if r.value == 0 then 0 else U16_LIMIT - r.value) else None
    else
      UnsignedRun(if t != "" && t[0] == '+' then t[1..] else t)
  }

  function UnsignedRun(s: string): (r: Option<nat>)
    ensures r.Some? ==> r.value < U16_LIMIT
  {
    var digits := s[..DigitRun(s)];
    if digits == "" || Value(digits) >= U16_LIMIT then None else Some(Value(digits))
  }

  lemma UnsignedRunIs(digits: string, rest: string)
    requires digits != "" && AllDigits(digits) && (rest == "" || !IsDigit(rest[0]))
    ensures UnsignedRun(digits + rest) == if Value(digits) >= U16_LIMIT then None else Some(Value(digits))
  {
    var t := digits + rest;
    assert t[0] == digits[0];
    assert rest != "" ==> t[|digits|] == rest[0];
    assert DigitRun(t) == |digits|;
    assert t[..|digits|] == digits;
  }

  lemma ExtractDigits(digits: string, rest: string)
    requires digits != "" && AllDigits(digits)
    ensures ExtractU16(" " + digits + rest) == UnsignedRun(digits + rest)
  {
    var s, t := " " + digits + rest, digits + rest;
    assert s[1..] == t && t[0] == digits[0] && s[1] == t[0];
    assert FirstNonSpace(s) == 1;
  }

  // A printed 16-bit number is read back whole, whatever follows it.
  lemma ExtractPrinted(n: nat, rest: string)
    requires n < U16_LIMIT && (rest == "" || !IsDigit(rest[0]))
    ensures ExtractU16(" " + Decimal(n) + rest) == Some(n)
  {
    DecimalDenotes(n);
    ExtractDigits(Decimal(n), rest);
    UnsignedRunIs(Decimal(n), rest);
  }

  // A sign may stand before the digits; a minus sign counts down from 2^16, and a number that
  // does not fit is a failed extraction.
  lemma ExtractSigned(sign: char, digits: string, rest: string)
    requires (sign == '+' || sign == '-') && digits != "" && AllDigits(digits)
    requires rest == "" || !IsDigit(rest[0])
    ensures ExtractU16([sign] + (digits + rest))
         == if Value(digits) >= U16_LIMIT then None
            else Some(if sign == '-' then (U16_LIMIT - Value(digits)) % U16_LIMIT else Value(digits))
  {
    var s, t := [sign] + (digits + rest), digits + rest;
    assert s[0] == sign && s[1..] == t && FirstNonSpace(s) == 0 && s[0..] == s;
    UnsignedRunIs(digits, rest);
  }

  lemma NothingSkipped(s: string)
    requires s != "" && !IsSpace(s[0])
    ensures SkipSpace(s) == s
  {
    assert FirstNonSpace(s) == 0;
  }

  lemma NoRun(s: string)
    requires s != "" && !IsDigit(s[0])
    ensures UnsignedRun(s).None?
  {
    assert |s[..DigitRun(s)]| == 0;
  }

  lemma UnsignedExtraction(s: string, t: string)
    requires SkipSpace(s) == t && t != "" && t[0] != '+' && t[0] != '-'
    ensures ExtractU16(s) == UnsignedRun(t)
  {
  }

  // Text that starts neither with a digit, a sign nor white space is no number.
  lemma ExtractNothing(s: string)
    requires s != "" && !IsDigit(s[0]) && !IsSpace(s[0]) && s[0] != '+' && s[0] != '-'
    ensures ExtractU16(s).None?
  {
    NothingSkipped(s);
    UnsignedExtraction(s, s);
    NoRun(s);
  }
}
