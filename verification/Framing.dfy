// How a message sits inside a byte stream: growing the text after the blank line only grows
// the body, so at most one prefix of a stream is a whole message.

module Framing {
  import opened Strings
  import opened Streams
  import opened Headers
  import opened Walks
  import opened Codec
  import opened RoundTrip

  // The text parses and its header block is closed by a terminated blank line.
  predicate Framed(kind: Kind, t: string) {
    Parse(kind, t).Ok? && Find(t, '\n') < |t| && EndsBlank(AfterLine(t))
  }

  function HeadSize(kind: Kind, t: string): (n: nat)
    requires Parse(kind, t).Ok?
    ensures n <= |t|
  {
    |t| - |Parse(kind, t).value.body|
  }

  // A whole message: framed, with exactly as many body bytes as Content-Length says.
  predicate Whole(kind: Kind, t: string) {
    Framed(kind, t) && ContentLength(Parse(kind, t).value.headers) == Ok(|Parse(kind, t).value.body|)
  }

  lemma MoreTextIsMoreBody(kind: Kind, t: string, more: string)
    requires Framed(kind, t)
    ensures Framed(kind, t + more)
    ensures var m := Parse(kind, t).value; Parse(kind, t + more) == Ok(m.(body := m.body + more))
  {
    LineOfExtended(t, more);
    BlockExtends(AfterLine(t), more, map[]);
  }

  lemma HeadAlone(kind: Kind, t: string) returns (head: string)
    requires Framed(kind, t)
    ensures t == head + Parse(kind, t).value.body
    ensures Framed(kind, head) && Parse(kind, head) == Ok(Parse(kind, t).value.(body := ""))
  {
    var first := FirstLineAlone(t);
    var block := BlockAlone(AfterLine(t), map[]);
    LineOfExtended(first, block);
    Assoc(first, block, Parse(kind, t).value.body);
    return first + block;
  }

  lemma WholeCannotGrow(kind: Kind, a: string, more: string)
    requires Whole(kind, a) && Whole(kind, a + more)
    ensures more == ""
  {
    MoreTextIsMoreBody(kind, a, more);
    SameLength(Parse(kind, a).value, Parse(kind, a + more).value);
  }

  lemma PrefixSplits(a: string, b: string) returns (more: string)
    requires a <= b
    ensures b == a + more
  {
    more := b[|a|..];
  }

  lemma NothingAdded(a: string, more: string)
    requires more == ""
    ensures a + more == a && more + a == a
  {
  }

  // A stream starts with at most one whole message.
  lemma WholePrefixIsUnique(kind: Kind, a: string, b: string)
    requires Whole(kind, a) && Whole(kind, b) && a <= b
    ensures a == b
  {
    var more := PrefixSplits(a, b);
    WholeCannotGrow(kind, a, more);
    NothingAdded(a, more);
  }

  lemma SameLength(m: Message, n: Message)
    requires m.headers == n.headers
    requires ContentLength(m.headers) == Ok(|m.body|) && ContentLength(n.headers) == Ok(|n.body|)
    ensures |m.body| == |n.body|
  {
  }

  // Once the start line parses, a CRLF CRLF anywhere frames the text; the header loop never
  // reads past the first one, and stops exactly at its end if and only if no line before it
  // is blank.
  lemma DelimiterFrames(kind: Kind, t: string)
    requires Parse(kind, t).Ok? && Delimiter(t) < |t|
    ensures Framed(kind, t)
    ensures HeadSize(kind, t) <= Delimiter(t) + 4
    ensures HeadSize(kind, t) == Delimiter(t) + 4 <==>
            forall q | 0 < q <= Delimiter(t) && t[q - 1] == '\n' :: !BlankAt(t, q)
  {
    var d, i := Delimiter(t), Find(t, '\n');
    assert i <= d + 1 && i != d;
    HeadSizeSplits(kind, t);
    if i == d + 1 {
      HeaderPartIsBlank(t, d);
    } else {
      HeaderPartHasDelimiter(t, d);
    }
  }

  lemma HeaderPartIsBlank(t: string, d: nat)
    requires DelimiterAt(t, d) && Find(t, '\n') == d + 1
    ensures EndsBlank(AfterLine(t)) && BlockSize(AfterLine(t)) == 2
    ensures forall q | 0 < q <= d && t[q - 1] == '\n' :: !BlankAt(t, q)
  {
    BlankDelimiterTail(AfterLine(t), map[]);
  }

  lemma HeaderPartHasDelimiter(t: string, d: nat)
    requires DelimiterAt(t, d) && Find(t, '\n') < d
    ensures EndsBlank(AfterLine(t))
    ensures var n := Find(t, '\n') + 1;
            && n + BlockSize(AfterLine(t)) <= d + 4
            && (n + BlockSize(AfterLine(t)) == d + 4 <==>
                forall q | 0 < q <= d && t[q - 1] == '\n' :: !BlankAt(t, q))
  {
    DelimiterPastLine(t, d);
    StopsByDelimiter(AfterLine(t), d - (Find(t, '\n') + 1), map[]);
    BlankLinesAfterFirst(t, d);
  }

  lemma HeadSizeSplits(kind: Kind, t: string)
    requires Parse(kind, t).Ok? && Find(t, '\n') < |t|
    ensures HeadSize(kind, t) == Find(t, '\n') + 1 + BlockSize(AfterLine(t))
  {
  }

  lemma BlankLinesAfterFirst(t: string, d: nat)
    requires d < |t| && Find(t, '\n') < d
    ensures NoEarlyBlank(AfterLine(t), d - Find(t, '\n') - 1) <==>
            forall q | 0 < q <= d && t[q - 1] == '\n' :: !BlankAt(t, q)
  {
    var n := Find(t, '\n') + 1;
    var rest := t[n..];
    assert rest == AfterLine(t);
    forall q: nat | n <= q < |t|
      ensures (q == n || rest[q - n - 1] == t[q - 1]) && BlankAt(rest, q - n) == BlankAt(t, q)
    {
      LineStartShifts(t, n, q - n);
    }
    if forall q | 0 < q <= d && t[q - 1] == '\n' :: !BlankAt(t, q) {
      forall q | 0 <= q <= d - n && (q == 0 || rest[q - 1] == '\n') ensures !BlankAt(rest, q) {
        assert t[q + n - 1] == '\n';
        assert !BlankAt(t, q + n);
      }
    }
  }

  // A head whose line breaks are all CRLF ends, for the header loop, exactly at its delimiter.
  lemma CrlfHeadStopsAtDelimiter(kind: Kind, t: string)
    requires Parse(kind, t).Ok? && Delimiter(t) < |t|
    requires forall i | 0 <= i <= Delimiter(t) + 1 && t[i] == '\n' :: i > 0 && t[i - 1] == '\r'
    ensures HeadSize(kind, t) == Delimiter(t) + 4
  {
    CrlfOnlyHasNoEarlyBlank(t, Delimiter(t));
    DelimiterFrames(kind, t);
  }

  // A printed message is a whole message when its Content-Length, if it carries one, is the
  // size of its body; a printed response always is.
  lemma PrintedIsWhole(r: Message, order: seq<string>)
    requires WellFormed(r) && IsOrder(order, r.headers) && |r.body| < SIZE_LIMIT
    requires r.line.RequestLine? && CONTENT_LENGTH in r.headers ==> ContentLength(r.headers) == Ok(|r.body|)
    ensures Whole(KindOf(r), Serialize(r, order))
    ensures Delimiter(Serialize(r, order)) + 4 == |Serialize(r, order)| - |r.body|
  {
    ReadsBack(r, order);
    PrintedHeadEndsAtDelimiter(r, order);
    DelimiterFrames(KindOf(r), Serialize(r, order));
    DefaultLength(r);
  }

  lemma DefaultLength(r: Message)
    requires |r.body| < SIZE_LIMIT
    requires r.line.RequestLine? && CONTENT_LENGTH in r.headers ==> ContentLength(r.headers) == Ok(|r.body|)
    ensures ContentLength(WithDefaults(r).headers) == Ok(|r.body|)
  {
    DecimalDenotes(|r.body|);
    ContentLengthExact(WithDefaults(r).headers, |r.body|);
    ContentLengthExact(r.headers, |r.body|);
  }
}
