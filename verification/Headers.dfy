// The header map: case-insensitive insertion and lookup, the header-block parser,
// Content-Length, and where the parser stops compared with the CRLF CRLF delimiter.

module Headers {
  import opened Strings
  import opened Streams

  datatype HttpError = EmptyInput | BadStartLine | BadContentLength

  datatype Result<T> = Ok(value: T) | Err(error: HttpError)

  type HeaderMap = map<string, string>

  // operator[] followed by an assignment.
  function Put(h: HeaderMap, key: string, value: string): HeaderMap {
    h[Normalize(key) := value]
  }

  function Lookup(h: HeaderMap, name: string): Option<string> {
    Entry(h, Normalize(name))
  }

  function PutAt(h: HeaderMap, line: string, colon: nat): HeaderMap
    requires colon < |line|
  {
    Put(h, line[..colon], Trim(line[colon + 1..]))
  }

  // The effect of one non-blank line: split at the first colon, ignore a line without one.
  function PutLine(h: HeaderMap, line: string): HeaderMap {
    var colon := Find(line, ':');
    if colon == |line| then h else PutAt(h, line, colon)
  }

  // The parsing loop: the final map and the unread text.
  function ParseBlock(s: string, h: HeaderMap): (r: (HeaderMap, string))
    ensures |r.1| <= |s|
    decreases |s|
  {
    if s == "" then (h, "")
    else if Line(s) == "" then (h, AfterLine(s))
    else ParseBlock(AfterLine(s), PutLine(h, Line(s)))
  }

  // ---------------------------------------------------------------- meaning of the loop

  // The lines before the first blank one.
  function BlockLines(s: string): (lines: seq<string>)
    decreases |s|
  {
    if s == "" || Line(s) == "" then [] else [Line(s)] + BlockLines(AfterLine(s))
  }

  function Fold(h: HeaderMap, lines: seq<string>): HeaderMap
    decreases lines
  {
    if lines == [] then h else Fold(PutLine(h, lines[0]), lines[1..])
  }

  predicate Defines(line: string, key: string) {
    var colon := Find(line, ':');
    colon < |line| && Normalize(line[..colon]) == key
  }

  // What one line says about a key.
  function Said(line: string, key: string): Option<string> {
    if Defines(line, key) then Some(Trim(line[Find(line, ':') + 1..])) else None
  }

  function Or(a: Option<string>, b: Option<string>): Option<string> {
    if a.Some? then a else b
  }

  // Reference meaning of a header block: the value on the last line that names the key.
  function LastValue(lines: seq<string>, key: string): Option<string> {
    if lines == [] then None
    else Or(Said(lines[|lines| - 1], key), LastValue(lines[..|lines| - 1], key))
  }

  lemma {:induction false} FoldSnoc(h: HeaderMap, lines: seq<string>, last: string)
    ensures Fold(h, lines + [last]) == PutLine(Fold(h, lines), last)
    decreases lines
  {
    if lines == [] {
      assert lines + [last] == [last] && [last][1..] == [];
    } else {
      assert (lines + [last])[1..] == lines[1..] + [last];
      FoldSnoc(PutLine(h, lines[0]), lines[1..], last);
    }
  }

  lemma {:induction false} ParseIsFold(s: string, h: HeaderMap)
    ensures ParseBlock(s, h).0 == Fold(h, BlockLines(s))
    decreases |s|
  {
    if s != "" && Line(s) != "" {
      var line, rest := Line(s), AfterLine(s);
      ParseIsFold(rest, PutLine(h, line));
      FoldCons(h, line, BlockLines(rest));
    }
  }

  lemma FoldCons(h: HeaderMap, line: string, lines: seq<string>)
    ensures Fold(h, [line] + lines) == Fold(PutLine(h, line), lines)
  {
    assert ([line] + lines)[1..] == lines;
  }

  function Entry(h: HeaderMap, key: string): Option<string> {
    if key in h then Some(h[key]) else None
  }

  lemma UpdateEntry(h: HeaderMap, name: string, value: string, key: string)
    ensures Entry(h[name := value], key) == if name == key then Some(value) else Entry(h, key)
  {
  }

  lemma PutLineEntry(h: HeaderMap, line: string, key: string)
    ensures Entry(PutLine(h, line), key) == Or(Said(line, key), Entry(h, key))
  {
    var colon := Find(line, ':');
    if colon < |line| {
      UpdateEntry(h, Normalize(line[..colon]), Trim(line[colon + 1..]), key);
    }
  }

  lemma LastLineDecides(h: HeaderMap, lines: seq<string>, key: string)
    requires lines != []
    ensures Entry(Fold(h, lines), key)
         == Or(Said(lines[|lines| - 1], key), Entry(Fold(h, lines[..|lines| - 1]), key))
  {
    var init, last := lines[..|lines| - 1], lines[|lines| - 1];
    assert lines == init + [last];
    FoldSnoc(h, init, last);
    PutLineEntry(Fold(h, init), last, key);
  }

  lemma {:induction false} FoldIsLastValue(lines: seq<string>, key: string)
    ensures Entry(Fold(map[], lines), key) == LastValue(lines, key)
  {
    if lines != [] {
      LastLineDecides(map[], lines, key);
      FoldIsLastValue(lines[..|lines| - 1], key);
    }
  }

  // Looking a name up in a parsed block finds the last line that names it, in any case
  // and with any padding.
  lemma LookupFindsLastLine(s: string, name: string)
    ensures Lookup(ParseBlock(s, map[]).0, name) == LastValue(BlockLines(s), Normalize(name))
  {
    ParseIsFold(s, map[]);
    FoldIsLastValue(BlockLines(s), Normalize(name));
  }

  lemma LookupIgnoresCaseAndPadding(h: HeaderMap, before: string, a: string, b: string, after: string)
    requires AllSpace(before) && AllSpace(after) && ToLower(a) == ToLower(b)
    ensures Lookup(h, before + a + after) == Lookup(h, b)
  {
    NormalizeIgnoresCaseAndPadding(before, a, b, after);
  }

  // Storing a value under a name is seen under every spelling of that name and under no other.
  lemma SetIsSeenIff(h: HeaderMap, name: string, value: string, other: string)
    ensures Lookup(Put(h, name, value), other)
         == if SameLetters(Trim(name), Trim(other)) then Some(value) else Lookup(h, other)
  {
    NormalizeAlikeIff(name, other);
  }

  // ---------------------------------------------------------------- printable maps

  predicate PrintableKey(k: string) {
    Normalize(k) == k && ':' !in k && '\n' !in k
  }

  predicate PrintableValue(v: string) {
    IsTrimmed(v) && '\n' !in v
  }

  predicate Printable(h: HeaderMap) {
    forall k | k in h :: PrintableKey(k) && PrintableValue(h[k])
  }

  lemma TrimKeepsAbsent(s: string, c: char)
    requires c !in s
    ensures c !in Trim(s)
  {
    var p, q := TrimSplits(s);
    forall i | 0 <= i < |Trim(s)| ensures Trim(s)[i] != c {
      assert s[|p| + i] == Trim(s)[i];
    }
  }

  lemma NormalizedIsPrintable(key: string)
    requires ':' !in key && '\n' !in key
    ensures PrintableKey(Normalize(key))
  {
    NormalizeIdempotent(key);
    TrimKeepsAbsent(key, ':');
    TrimKeepsAbsent(key, '\n');
    LowerKeepsAbsent(Trim(key));
  }

  lemma LowerKeepsAbsent(s: string)
    requires ':' !in s && '\n' !in s
    ensures ':' !in ToLower(s) && '\n' !in ToLower(s)
  {
  }

  lemma PutPrintable(h: HeaderMap, key: string, value: string)
    requires Printable(h) && ':' !in key && '\n' !in key && '\n' !in value
    ensures Printable(Put(h, key, Trim(value)))
  {
    NormalizedIsPrintable(key);
    TrimKeepsAbsent(value, '\n');
  }

  lemma PutLinePrintable(h: HeaderMap, line: string)
    requires Printable(h) && '\n' !in line
    ensures Printable(PutLine(h, line))
  {
    var colon := Find(line, ':');
    if colon < |line| {
      PutPrintable(h, line[..colon], line[colon + 1..]);
    }
  }

  // Whatever bytes the loop reads, the map it builds can be printed and read back.
  lemma {:induction false} ParsedBlockPrintable(s: string, h: HeaderMap)
    requires Printable(h)
    ensures Printable(ParseBlock(s, h).0)
    decreases |s|
  {
    if s != "" && Line(s) != "" {
      assert '\n' !in RawLine(s);
      PutLinePrintable(h, Line(s));
      ParsedBlockPrintable(AfterLine(s), PutLine(h, Line(s)));
    }
  }

  // ---------------------------------------------------------------- where the loop stops

  // The loop stops at a blank line that is terminated inside s.
  predicate EndsBlank(s: string)
    decreases |s|
  {
    Find(s, '\n') < |s| && (Line(s) == "" || EndsBlank(AfterLine(s)))
  }

  function BlockSize(s: string): (n: nat)
    ensures n <= |s|
  {
    |s| - |ParseBlock(s, map[]).1|
  }

  lemma LineOfExtended(s: string, more: string)
    requires Find(s, '\n') < |s|
    ensures Find(s + more, '\n') == Find(s, '\n')
    ensures Line(s + more) == Line(s) && AfterLine(s + more) == AfterLine(s) + more
  {
    var i := Find(s, '\n');
    FindIs(s + more, '\n', i);
    assert (s + more)[..i] == s[..i];
  }

  // Text after the blank line is left unread and does not change the map.
  lemma {:induction false} BlockExtends(s: string, more: string, h: HeaderMap)
    requires EndsBlank(s)
    ensures EndsBlank(s + more)
    ensures ParseBlock(s + more, h) == (ParseBlock(s, h).0, ParseBlock(s, h).1 + more)
    decreases |s|
  {
    LineOfExtended(s, more);
    if Line(s) != "" {
      BlockExtends(AfterLine(s), more, PutLine(h, Line(s)));
    }
  }

  lemma FirstLineAlone(s: string) returns (first: string)
    requires Find(s, '\n') < |s|
    ensures s == first + AfterLine(s) && first != ""
    ensures Find(first, '\n') == |first| - 1
    ensures Line(first) == Line(s) && AfterLine(first) == ""
  {
    var i := Find(s, '\n');
    first := s[..i + 1];
    FindIs(first, '\n', i);
    assert first[..i] == s[..i];
  }

  lemma StepOverLine(first: string, rest: string, h: HeaderMap)
    requires first != "" && Find(first, '\n') == |first| - 1 && Line(first) != ""
    ensures ParseBlock(first + rest, h) == ParseBlock(rest, PutLine(h, Line(first)))
    ensures EndsBlank(first + rest) == EndsBlank(rest)
  {
    LineOfExtended(first, rest);
    assert AfterLine(first) == "" && AfterLine(first) + rest == rest;
  }

  // The part up to the blank line parses alone to the same map.
  lemma {:induction false} BlockAlone(s: string, h: HeaderMap) returns (head: string)
    requires EndsBlank(s)
    ensures s == head + ParseBlock(s, h).1
    ensures EndsBlank(head) && ParseBlock(head, h) == (ParseBlock(s, h).0, "")
    decreases |s|
  {
    var first := FirstLineAlone(s);
    if Line(s) == "" {
      return first;
    }
    var g := PutLine(h, Line(s));
    var rest := BlockAlone(AfterLine(s), g);
    StepOverLine(first, rest, h);
    Assoc(first, rest, ParseBlock(AfterLine(s), g).1);
    return first + rest;
  }

  predicate DelimiterAt(s: string, d: nat) {
    d + 4 <= |s| && s[d] == '\r' && s[d + 1] == '\n' && s[d + 2] == '\r' && s[d + 3] == '\n'
  }

  // std::search for CRLF CRLF: the first position, or the length.
  function Delimiter(s: string): (d: nat)
    ensures d <= |s| && (d < |s| ==> DelimiterAt(s, d))
    ensures forall k | 0 <= k < d :: !DelimiterAt(s, k)
  {
    DelimiterFrom(s, 0)
  }

  function DelimiterFrom(s: string, from: nat): (d: nat)
    requires from <= |s|
    ensures from <= d <= |s| && (d < |s| ==> DelimiterAt(s, d))
    ensures forall k | from <= k < d :: !DelimiterAt(s, k)
    decreases |s| - from
  {
    if from == |s| || DelimiterAt(s, from) then from else DelimiterFrom(s, from + 1)
  }

  // A line start at which the loop would stop.
  predicate BlankAt(s: string, q: int) {
    0 <= q < |s| && (s[q] == '\n' || (s[q] == '\r' && q + 1 < |s| && s[q + 1] == '\n'))
  }

  // No line that starts at or before d is blank.
  predicate NoEarlyBlank(s: string, d: nat) {
    forall q | 0 <= q <= d < |s| && (q == 0 || s[q - 1] == '\n') :: !BlankAt(s, q)
  }

  lemma BlankLine(s: string)
    requires Find(s, '\n') < |s|
    ensures Line(s) == "" <==> BlankAt(s, 0)
    ensures Line(s) == "" ==> Find(s, '\n') <= 1
  {
    var i := Find(s, '\n');
    assert i > 0 ==> RawLine(s)[i - 1] == s[i - 1];
  }

  lemma LineStartShifts(s: string, n: nat, q: nat)
    requires 0 < n && n + q < |s| && s[n - 1] == '\n'
    ensures q == 0 || s[n..][q - 1] == s[n + q - 1]
    ensures BlankAt(s[n..], q) == BlankAt(s, n + q)
  {
  }

  lemma LaterBlank(s: string, d: nat)
    requires d < |s| && Find(s, '\n') < d && !BlankAt(s, 0)
    ensures NoEarlyBlank(s, d) ==> NoEarlyBlank(AfterLine(s), d - Find(s, '\n') - 1)
    ensures NoEarlyBlank(AfterLine(s), d - Find(s, '\n') - 1) ==> NoEarlyBlank(s, d)
  {
    var n := Find(s, '\n') + 1;
    var rest := s[n..];
    assert rest == AfterLine(s);
    forall q: nat | n <= q < |s|
      ensures (q == n || rest[q - n - 1] == s[q - 1]) && BlankAt(rest, q - n) == BlankAt(s, q)
    {
      LineStartShifts(s, n, q - n);
    }
    if NoEarlyBlank(s, d) {
      forall q | 0 <= q <= d - n && (q == 0 || rest[q - 1] == '\n') ensures !BlankAt(rest, q) {
        assert !BlankAt(s, q + n);
      }
    }
  }

  lemma BlankDelimiterTail(s: string, h: HeaderMap)
    requires |s| >= 2 && s[0] == '\r' && s[1] == '\n'
    ensures EndsBlank(s) && |ParseBlock(s, h).1| == |s| - 2
  {
    FindIs(s, '\n', 1);
  }

  lemma DelimiterEndsLine(s: string, d: nat)
    requires DelimiterAt(s, d) && Find(s, '\n') == d + 1 && !BlankAt(s, 0)
    ensures NoEarlyBlank(s, d)
    ensures |AfterLine(s)| == |s| - d - 2 && AfterLine(s)[0] == '\r' && AfterLine(s)[1] == '\n'
  {
  }

  lemma SizeOverLine(s: string, h: HeaderMap)
    requires Find(s, '\n') < |s| && Line(s) != ""
    ensures |s| - |ParseBlock(s, h).1|
         == Find(s, '\n') + 1 + (|AfterLine(s)| - |ParseBlock(AfterLine(s), PutLine(h, Line(s))).1|)
    ensures EndsBlank(s) == EndsBlank(AfterLine(s))
  {
  }

  lemma DelimiterPastLine(s: string, d: nat)
    requires DelimiterAt(s, d) && Find(s, '\n') < d
    ensures DelimiterAt(AfterLine(s), d - Find(s, '\n') - 1)
  {
  }

  // Where the loop stops, seen from the delimiter at d.
  predicate StopsWell(s: string, d: nat, h: HeaderMap) {
    var size := |s| - |ParseBlock(s, h).1|;
    EndsBlank(s) && size <= d + 4 && (size == d + 4 <==> NoEarlyBlank(s, d))
  }

  lemma StopsAtOnce(s: string, d: nat, h: HeaderMap)
    requires DelimiterAt(s, d) && Line(s) == ""
    ensures StopsWell(s, d, h)
  {
    BlankLine(s);
    assert BlankAt(s, 0);
  }

  lemma StopsOnNext(s: string, d: nat, h: HeaderMap)
    requires DelimiterAt(s, d) && Line(s) != "" && Find(s, '\n') == d + 1
    ensures StopsWell(s, d, h)
  {
    BlankLine(s);
    SizeOverLine(s, h);
    DelimiterEndsLine(s, d);
    BlankDelimiterTail(AfterLine(s), PutLine(h, Line(s)));
  }

  lemma StopsLater(s: string, d: nat, h: HeaderMap)
    requires DelimiterAt(s, d) && Line(s) != "" && Find(s, '\n') < d
    requires StopsWell(AfterLine(s), d - Find(s, '\n') - 1, PutLine(h, Line(s)))
    ensures StopsWell(s, d, h)
  {
    BlankLine(s);
    SizeOverLine(s, h);
    LaterBlank(s, d);
  }

  // The loop never reads past a CRLF CRLF, and it stops exactly at its end if and only if
  // no earlier line is blank.
  lemma {:induction false} StopsByDelimiter(s: string, d: nat, h: HeaderMap)
    requires DelimiterAt(s, d)
    ensures EndsBlank(s)
    ensures |s| - |ParseBlock(s, h).1| <= d + 4
    ensures |s| - |ParseBlock(s, h).1| == d + 4 <==> NoEarlyBlank(s, d)
    decreases |s|
  {
    var i := Find(s, '\n');
    assert i <= d + 1 && i != d;
    if Line(s) == "" {
      StopsAtOnce(s, d, h);
    } else if i == d + 1 {
      StopsOnNext(s, d, h);
    } else {
      DelimiterPastLine(s, d);
      StopsByDelimiter(AfterLine(s), d - i - 1, PutLine(h, Line(s)));
      StopsLater(s, d, h);
    }
  }

  // If every LF before the end of the first CRLF CRLF follows a CR, no earlier line is blank.
  lemma CrlfOnlyHasNoEarlyBlank(s: string, d: nat)
    requires Delimiter(s) == d < |s|
    requires forall i | 0 <= i <= d + 1 && s[i] == '\n' :: i > 0 && s[i - 1] == '\r'
    ensures forall q | 0 < q <= d && s[q - 1] == '\n' :: !BlankAt(s, q)
  {
    forall q | 0 < q <= d && s[q - 1] == '\n' ensures !BlankAt(s, q) {
      assert s[q - 2] == '\r' && !DelimiterAt(s, q - 2);
      assert s[q] != '\n';
    }
  }

  // ---------------------------------------------------------------- Content-Length

  const CONTENT_LENGTH := "content-length"
  const CONNECTION := "connection"

  lemma NamesNormalize()
    ensures Normalize("Content-Length") == CONTENT_LENGTH && Normalize(CONTENT_LENGTH) == CONTENT_LENGTH
    ensures Normalize("Connection") == CONNECTION && Normalize(CONNECTION) == CONNECTION
  {
    TrimOfTrimmed("Content-Length");
    TrimOfTrimmed("Connection");
    assert ToLower("Content-Length") == CONTENT_LENGTH;
    assert ToLower("Connection") == CONNECTION;
    NormalizeIdempotent("Content-Length");
    NormalizeIdempotent("Connection");
  }

  function ContentLength(h: HeaderMap): (r: Result<nat>)
    ensures r.Ok? ==> r.value < SIZE_LIMIT
  {
    match Lookup(h, "Content-Length")
    case None => Ok(0)
    case Some(text) =>
      match FromChars(text)
      case Some(n) => Ok(n)
      case None => Err(BadContentLength)
  }

  // A present Content-Length is accepted exactly when it is a non-empty digit string below
  // 2^64, and then it is the number the digits denote; an absent one counts as zero.
  lemma ContentLengthExact(h: HeaderMap, n: nat)
    ensures ContentLength(h) == Ok(n) <==>
            if CONTENT_LENGTH in h then
              var v := h[CONTENT_LENGTH];
              v != "" && AllDigits(v) && Value(v) == n < SIZE_LIMIT
            else n == 0
  {
    NamesNormalize();
  }

  lemma PrintedLengthReadsBack(h: HeaderMap, n: nat)
    requires n < SIZE_LIMIT
    ensures ContentLength(h[CONTENT_LENGTH := Decimal(n)]) == Ok(n)
  {
    NamesNormalize();
    DecimalDenotes(n);
  }

  method ComputeContentLength(h: HeaderMap) returns (r: Result<nat>)
    ensures r == ContentLength(h)
  {
    var found := Lookup(h, "Content-Length");
    if found.None? {
      return Ok(0);
    }
    var n := ParseSize(found.value);
    r := if n.Some? then Ok(n.value) else Err(BadContentLength);
  }

  // ---------------------------------------------------------------- the map as an object

  class HeaderTable {
    var entries: HeaderMap

    constructor ()
      ensures entries == map[]
    {
      entries := map[];
    }

    method Set(key: string, value: string)
      modifies this
      ensures entries == Put(old(entries), key, value)
      ensures forall other :: Lookup(entries, other)
                           == if SameLetters(Trim(key), Trim(other)) then Some(value) else Lookup(old(entries), other)
    {
      forall other { SetIsSeenIff(entries, key, value, other); }
      var name := new Text(key);
      name.NormalizeInPlace();
      entries := entries[name.data := value];
    }

    method SetAt(line: string, colon: nat)
      requires colon < |line|
      modifies this
      ensures entries == PutAt(old(entries), line, colon)
    {
      var value := new Text(line[colon + 1..]);
      value.TrimInPlace();
      Set(line[..colon], value.data);
    }

    // One header line: the text before the first colon names it, the trimmed rest is the value.
    method SetFromLine(line: string)
      modifies this
      ensures entries == PutLine(old(entries), line)
    {
      var colon := Find(line, ':');
      if colon < |line| {
        SetAt(line, colon);
      }
    }
  }

  method ParseHeaders(stream: InputStream) returns (table: HeaderTable)
    modifies stream
    ensures fresh(table)
    ensures (table.entries, stream.rest) == ParseBlock(old(stream.rest), map[])
  {
    table := new HeaderTable();
    var ok, line := stream.GetLine();
    ghost var at := old(stream.rest);
    while ok
      invariant fresh(table)
      invariant ok == (at != "")
      invariant ok ==> line == RawLine(at) && stream.rest == AfterLine(at)
      invariant !ok ==> stream.rest == ""
      invariant ParseBlock(at, table.entries) == ParseBlock(old(stream.rest), map[])
      decreases |at|
    {
      line := StripCr(line);
      if line == "" {
        break;
      }
      table.SetFromLine(line);
      at := stream.rest;
      ok, line := stream.GetLine();
    }
  }
}
