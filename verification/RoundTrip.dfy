// What is printed is read back: request and response round trips for every iteration order
// of the header map, the normal form they define, and the delimiter inside printed heads.

module RoundTrip {
  import opened Strings
  import opened Streams
  import opened Headers
  import opened Walks
  import opened Codec

  // ---------------------------------------------------------------- printed lines

  predicate PlainLine(line: string) {
    line != "" && '\n' !in line
  }

  predicate PlainLines(lines: seq<string>) {
    forall i | 0 <= i < |lines| :: PlainLine(lines[i])
  }

  lemma {:induction false} BlockOfLines(lines: seq<string>, body: string, h: HeaderMap)
    requires PlainLines(lines)
    ensures ParseBlock(JoinLines(lines) + "\r\n" + body, h) == (Fold(h, lines), body)
    decreases lines
  {
    if lines == [] {
      LineOfCrlf("", body);
      assert JoinLines(lines) + "\r\n" + body == "" + "\r\n" + body;
    } else {
      var tail := JoinLines(lines[1..]) + "\r\n" + body;
      LineOfCrlf(lines[0], tail);
      SplitFirst(lines, body);
      BlockOfLines(lines[1..], body, PutLine(h, lines[0]));
    }
  }

  lemma SplitFirst(lines: seq<string>, body: string)
    requires lines != []
    ensures JoinLines(lines) + "\r\n" + body == lines[0] + "\r\n" + (JoinLines(lines[1..]) + "\r\n" + body)
  {
    var first, more := lines[0] + "\r\n", JoinLines(lines[1..]);
    Assoc(first, more, "\r\n");
    Assoc(first, more + "\r\n", body);
  }

  // A start line, plain header lines, a blank line and any body parse to the fold of the lines.
  lemma ParseOfText(kind: Kind, start: string, lines: seq<string>, body: string)
    requires '\n' !in start && PlainLines(lines) && ParseStartLine(kind, start).Ok?
    ensures Parse(kind, JoinLines([start] + lines) + "\r\n" + body)
         == Ok(Message(ParseStartLine(kind, start).value, Fold(map[], lines), body))
  {
    SplitFirst([start] + lines, body);
    assert ([start] + lines)[1..] == lines;
    LineOfCrlf(start, JoinLines(lines) + "\r\n" + body);
    BlockOfLines(lines, body, map[]);
  }

  // The only CRLF CRLF up to the end of a printed head is the one that closes it.
  lemma {:induction false} DelimiterOfLines(lines: seq<string>, body: string)
    requires PlainLines(lines) && lines != []
    ensures |JoinLines(lines)| >= 2
    ensures Delimiter(JoinLines(lines) + "\r\n" + body) == |JoinLines(lines)| - 2
    decreases lines
  {
    var line, tail := lines[0], JoinLines(lines[1..]) + "\r\n" + body;
    SplitFirst(lines, body);
    if lines[1..] == [] {
      assert tail == "\r\n" + body;
      DelimiterAfterLast(line, body);
    } else {
      DelimiterOfLines(lines[1..], body);
      SplitFirst(lines[1..], body);
      DelimiterSkipsLine(line, tail);
    }
  }

  lemma DelimiterIs(s: string, d: nat)
    requires DelimiterAt(s, d) && forall k | 0 <= k < d :: !DelimiterAt(s, k)
    ensures Delimiter(s) == d
  {
  }

  lemma DelimiterAfterLast(line: string, body: string)
    requires PlainLine(line)
    ensures Delimiter(line + "\r\n" + ("\r\n" + body)) == |line|
  {
    var s := line + "\r\n" + ("\r\n" + body);
    assert forall k | 0 <= k < |line| :: s[k] == line[k];
    assert s[|line|] == '\r';
    DelimiterIs(s, |line|);
  }

  lemma DelimiterSkipsLine(line: string, tail: string)
    requires PlainLine(line) && |tail| >= 2 && tail[1] != '\n' && Delimiter(tail) < |tail|
    ensures Delimiter(line + "\r\n" + tail) == |line| + 2 + Delimiter(tail)
  {
    var n, s := |line| + 2, line + "\r\n" + tail;
    assert forall k | 0 <= k < |line| :: s[k] == line[k];
    assert s[n - 2] == '\r' && s[n - 1] == '\n' && s[n + 1] == tail[1];
    forall k: nat | k < n + Delimiter(tail) ensures !DelimiterAt(s, k) {
      if k >= n {
        assert !DelimiterAt(tail, k - n);
        assert forall i | 0 <= i < |tail| :: s[n + i] == tail[i];
      }
    }
    assert s[n..] == tail;
    DelimiterIs(s, n + Delimiter(tail));
  }

  // ---------------------------------------------------------------- folding printed headers

  lemma {:induction false} FoldAppend(h: HeaderMap, a: seq<string>, b: seq<string>)
    ensures Fold(h, a + b) == Fold(Fold(h, a), b)
    decreases a
  {
    if a == [] {
      assert a + b == b;
    } else {
      assert (a + b)[1..] == a[1..] + b;
      FoldAppend(PutLine(h, a[0]), a[1..], b);
    }
  }

  lemma HeaderLineSplits(key: string, value: string)
    requires ':' !in key
    ensures var line := HeaderLine(key, value);
            Find(line, ':') == |key| < |line| && line[..|key|] == key && line[|key| + 1..] == " " + value + ""
  {
    FindIs(HeaderLine(key, value), ':', |key|);
  }

  lemma HeaderLineParses(h: HeaderMap, key: string, value: string)
    requires ':' !in key
    ensures PutLine(h, HeaderLine(key, value)) == h[Normalize(key) := Trim(value)]
  {
    HeaderLineSplits(key, value);
    TrimIgnoresPadding(" ", value, "");
  }

  // The fold over the printed lines, stated on keys and values.
  function PutAll(g: HeaderMap, h: HeaderMap, order: seq<string>): HeaderMap
    requires forall k | k in order :: k in h
    decreases order
  {
    if order == [] then g
    else PutAll(g[Normalize(order[0]) := Trim(h[order[0]])], h, order[1..])
  }

  predicate Writable(h: HeaderMap) {
    forall k | k in h :: ':' !in k && '\n' !in k && '\n' !in h[k]
  }

  lemma PrintedLineIsPlain(key: string, value: string)
    requires '\n' !in key && '\n' !in value
    ensures PlainLine(HeaderLine(key, value))
  {
  }

  lemma PlainCons(line: string, lines: seq<string>)
    requires PlainLine(line) && PlainLines(lines)
    ensures PlainLines([line] + lines)
  {
  }

  lemma {:induction false} FoldHeaderLines(g: HeaderMap, h: HeaderMap, order: seq<string>)
    requires (forall k | k in order :: k in h) && Writable(h)
    ensures Fold(g, HeaderLines(h, order)) == PutAll(g, h, order)
    ensures PlainLines(HeaderLines(h, order))
    decreases order
  {
    if order != [] {
      var k := order[0];
      var line, more := HeaderLine(k, h[k]), HeaderLines(h, order[1..]);
      HeaderLineParses(g, k, h[k]);
      FoldHeaderLines(g[Normalize(k) := Trim(h[k])], h, order[1..]);
      FoldCons(g, line, more);
      PrintedLineIsPlain(k, h[k]);
      PlainCons(line, more);
    }
  }

  lemma RestrictCons(g: HeaderMap, h: HeaderMap, order: seq<string>)
    requires order != [] && forall k | k in order :: k in h
    ensures g + (map k | k in order :: h[k])
         == g[order[0] := h[order[0]]] + map k | k in order[1..] :: h[k]
  {
    assert forall x :: x in order <==> x == order[0] || x in order[1..];
  }

  lemma {:induction false} PutAllOfPrintable(g: HeaderMap, h: HeaderMap, order: seq<string>)
    requires (forall k | k in order :: k in h) && Printable(h)
    ensures PutAll(g, h, order) == g + map k | k in order :: h[k]
    decreases order
  {
    if order != [] {
      var k := order[0];
      assert PrintableKey(k) && PrintableValue(h[k]);
      TrimOfTrimmed(h[k]);
      RestrictCons(g, h, order);
      PutAllOfPrintable(g[k := h[k]], h, order[1..]);
    }
  }

  // ---------------------------------------------------------------- round trips

  predicate GoodStart(line: StartLine) {
    match line
    case RequestLine(_, path, version) => path != "" && NoSpace(path) && version != "" && NoSpace(version)
    case StatusLine(version, code) => version != "" && NoSpace(version) && code < U16_LIMIT
  }

  function KindOf(r: Message): Kind {
    if r.line.RequestLine? then Requests else Responses
  }

  predicate WellFormed(r: Message) {
    GoodStart(r.line) && Printable(r.headers)
  }

  lemma WordsHaveNoNewline(a: string, b: string, c: string)
    requires NoSpace(a) && NoSpace(b) && NoSpace(c)
    ensures '\n' !in a + " " + b + " " + c
  {
  }

  lemma RequestStartParses(line: StartLine)
    requires GoodStart(line) && line.RequestLine?
    ensures '\n' !in RequestStart(line) && ParseRequestLine(RequestStart(line)) == Ok(line)
  {
    var m := MethodToString(line.method_);
    TokensAreWords(m, line.path, line.version);
    WordsHaveNoNewline(m, line.path, line.version);
  }

  lemma ResponseStartParses(line: StartLine)
    requires GoodStart(line) && line.StatusLine?
    ensures '\n' !in ResponseStart(line) && ParseStatusLine(ResponseStart(line)) == Ok(line)
  {
    StatusWords(line.version, line.code);
    DecimalIsPlain(line.code);
  }

  lemma StartParses(r: Message)
    requires GoodStart(r.line)
    ensures '\n' !in Start(r.line) && ParseStartLine(KindOf(r), Start(r.line)) == Ok(r.line)
  {
    if r.line.RequestLine? {
      RequestStartParses(r.line);
    } else {
      ResponseStartParses(r.line);
    }
  }

  lemma ExtrasArePlain(r: Message)
    ensures PlainLines(Extras(r))
  {
    DecimalIsPlain(|r.body|);
  }

  // Any message whose header text holds no stray delimiter reads back with every name
  // normalised and every value trimmed, later lines overriding earlier ones.
  lemma TextReadsBack(r: Message, order: seq<string>, extras: seq<string>)
    requires GoodStart(r.line) && Writable(r.headers) && IsOrder(order, r.headers) && PlainLines(extras)
    ensures Parse(KindOf(r), JoinLines([Start(r.line)] + HeaderLines(r.headers, order) + extras) + "\r\n" + r.body)
         == Ok(Message(r.line, Fold(PutAll(map[], r.headers, order), extras), r.body))
  {
    StartParses(r);
    FoldHeaderLines(map[], r.headers, order);
    HeadReadsBack(KindOf(r), Start(r.line), HeaderLines(r.headers, order), extras, r.body);
  }

  lemma HeadReadsBack(kind: Kind, start: string, printed: seq<string>, extras: seq<string>, body: string)
    requires '\n' !in start && PlainLines(printed) && PlainLines(extras) && ParseStartLine(kind, start).Ok?
    ensures Parse(kind, JoinLines([start] + printed + extras) + "\r\n" + body)
         == Ok(Message(ParseStartLine(kind, start).value, Fold(Fold(map[], printed), extras), body))
  {
    FoldAppend(map[], printed, extras);
    ParseOfText(kind, start, printed + extras, body);
    JoinGroups([start], printed, extras);
  }

  lemma PrintableIsWritable(h: HeaderMap, order: seq<string>)
    requires Printable(h) && IsOrder(order, h)
    ensures Writable(h) && PutAll(map[], h, order) == h
  {
    WritableOf(h);
    PutAllOfPrintable(map[], h, order);
    RestrictAll(h, order);
  }

  lemma RestrictAll(h: HeaderMap, order: seq<string>)
    requires forall k :: k in order <==> k in h
    ensures map[] + (map k | k in order :: h[k]) == h
  {
  }

  lemma WritableOf(h: HeaderMap)
    requires Printable(h)
    ensures Writable(h)
  {
    forall k | k in h ensures ':' !in k && '\n' !in k && '\n' !in h[k] {
      assert PrintableKey(k) && PrintableValue(h[k]);
    }
  }

  function WithRequestDefaults(r: Message): Message {
    var h := r.headers;
    var a := if CONNECTION in h then h else h[CONNECTION := "close"];
    var b := if CONTENT_LENGTH in h || r.body == "" then a else a[CONTENT_LENGTH := Decimal(|r.body|)];
    r.(headers := b)
  }

  function WithResponseDefaults(r: Message): Message {
    r.(headers := r.headers[CONTENT_LENGTH := Decimal(|r.body|)][CONNECTION := "close"])
  }

  function WithDefaults(r: Message): Message {
    if r.line.RequestLine? then WithRequestDefaults(r) else WithResponseDefaults(r)
  }

  lemma NormalKeys(h: HeaderMap)
    requires Printable(h)
    ensures HasLowered(h, CONNECTION) == (CONNECTION in h)
    ensures HasLowered(h, CONTENT_LENGTH) == (CONTENT_LENGTH in h)
    ensures "Connection" !in h && "Content-Length" !in h
  {
    NamesNormalize();
    forall k | k in h ensures ToLower(k) == k && Normalize(k) == k {
      assert PrintableKey(k);
      NormalizeIdempotent(k);
    }
    NormalizeIdempotent(CONNECTION);
    NormalizeIdempotent(CONTENT_LENGTH);
  }

  lemma FoldTwo(h: HeaderMap, a: string, b: string)
    ensures Fold(h, []) == h && Fold(h, [a]) == PutLine(h, a)
    ensures Fold(h, [a] + [b]) == PutLine(PutLine(h, a), b)
  {
    FoldSnoc(h, [], a);
    assert [] + [a] == [a];
    FoldSnoc(h, [a], b);
  }

  lemma NamedLineSets(h: HeaderMap, key: string, name: string, value: string)
    requires ':' !in key && Normalize(key) == name && IsTrimmed(value)
    ensures PutLine(h, HeaderLine(key, value)) == h[name := value]
  {
    TrimOfTrimmed(value);
    HeaderLineParses(h, key, value);
  }

  lemma CloseLineSets(h: HeaderMap)
    ensures PutLine(h, CLOSE_LINE) == h[CONNECTION := "close"]
  {
    NamesNormalize();
    NamedLineSets(h, "Connection", CONNECTION, "close");
  }

  lemma LengthValueSets(h: HeaderMap, value: string)
    requires IsTrimmed(value)
    ensures PutLine(h, HeaderLine("Content-Length", value)) == h[CONTENT_LENGTH := value]
  {
    NamesNormalize();
    NamedLineSets(h, "Content-Length", CONTENT_LENGTH, value);
  }

  lemma LengthLineSets(h: HeaderMap, body: string)
    ensures PutLine(h, LengthLine(body)) == h[CONTENT_LENGTH := Decimal(|body|)]
  {
    DecimalIsPlain(|body|);
    LengthValueSets(h, Decimal(|body|));
  }

  lemma FoldDefaults(h: HeaderMap, body: string)
    ensures Fold(h, []) == h && Fold(h, [CLOSE_LINE]) == h[CONNECTION := "close"]
    ensures Fold(h, [LengthLine(body)]) == h[CONTENT_LENGTH := Decimal(|body|)]
    ensures Fold(h, [CLOSE_LINE] + [LengthLine(body)]) == h[CONNECTION := "close"][CONTENT_LENGTH := Decimal(|body|)]
    ensures Fold(h, [LengthLine(body)] + [CLOSE_LINE]) == h[CONTENT_LENGTH := Decimal(|body|)][CONNECTION := "close"]
  {
    CloseLineSets(h);
    LengthLineSets(h, body);
    CloseLineSets(h[CONTENT_LENGTH := Decimal(|body|)]);
    LengthLineSets(h[CONNECTION := "close"], body);
    FoldTwo(h, CLOSE_LINE, LengthLine(body));
    FoldTwo(h, LengthLine(body), CLOSE_LINE);
  }

  lemma ExtrasCases(r: Message)
    requires Printable(r.headers)
    ensures var h, close, length := r.headers, [CLOSE_LINE], [LengthLine(r.body)];
            var implied := CONTENT_LENGTH in h || r.body == "";
            Extras(r) == if r.line.StatusLine? then length + close
                         else if CONNECTION in h then (if implied then [] else length)
                         else if implied then close else close + length
  {
    NormalKeys(r.headers);
  }

  lemma ExtrasAreDefaults(r: Message)
    requires Printable(r.headers)
    ensures Fold(r.headers, Extras(r)) == WithDefaults(r).headers
  {
    ExtrasCases(r);
    FoldDefaults(r.headers, r.body);
  }

  // Main round trip: parse(serialize(r)) is r plus its default headers, for requests and
  // responses, whatever the iteration order and whatever the body bytes.
  lemma ReadsBack(r: Message, order: seq<string>)
    requires WellFormed(r) && IsOrder(order, r.headers)
    ensures Parse(KindOf(r), Serialize(r, order)) == Ok(WithDefaults(r))
  {
    PrintableIsWritable(r.headers, order);
    ExtrasArePlain(r);
    TextReadsBack(r, order, Extras(r));
    ExtrasAreDefaults(r);
  }

  // ---------------------------------------------------------------- normal form

  lemma ParsedRequestLineIsGood(text: string)
    requires ParseRequestLine(text).Ok?
    ensures GoodStart(ParseRequestLine(text).value)
  {
    var afterMethod := Token(text).1;
    if Token(afterMethod).0 == "" {
      NoTokenAfter(afterMethod);
    }
  }

  lemma ParsedStatusLineIsGood(text: string)
    requires ParseStatusLine(text).Ok?
    ensures GoodStart(ParseStatusLine(text).value)
  {
  }

  lemma ParsedStartIsGood(kind: Kind, text: string)
    requires ParseStartLine(kind, text).Ok?
    ensures GoodStart(ParseStartLine(kind, text).value)
    ensures kind == Requests <==> ParseStartLine(kind, text).value.RequestLine?
  {
    if kind == Requests {
      ParsedRequestLineIsGood(text);
    } else {
      ParsedStatusLineIsGood(text);
    }
  }

  // Whatever bytes parse, the resulting message satisfies the round-trip precondition.
  lemma ParsedIsWellFormed(kind: Kind, s: string)
    requires Parse(kind, s).Ok?
    ensures WellFormed(Parse(kind, s).value) && KindOf(Parse(kind, s).value) == kind
  {
    ParsedStartIsGood(kind, Line(s));
    ParsedBlockPrintable(AfterLine(s), map[]);
  }

  // parse, serialize, parse is a normal form: doing it again, in any iteration order,
  // changes nothing.
  lemma NormalFormIdempotent(kind: Kind, s: string, order: seq<string>, again: seq<string>)
    requires Parse(kind, s).Ok?
    requires IsOrder(order, Parse(kind, s).value.headers)
    ensures var normal := Parse(kind, Serialize(Parse(kind, s).value, order));
            && normal.Ok?
            && (IsOrder(again, normal.value.headers) ==> Parse(kind, Serialize(normal.value, again)) == normal)
  {
    var r := Parse(kind, s).value;
    ParsedIsWellFormed(kind, s);
    ReadsBack(r, order);
    var normal := WithDefaults(r);
    DefaultsKeepForm(r);
    if IsOrder(again, normal.headers) {
      ReadsBack(normal, again);
    }
  }

  lemma DefaultsArePrintable(body: string)
    ensures PrintableKey(CONNECTION) && PrintableValue("close")
    ensures PrintableKey(CONTENT_LENGTH) && PrintableValue(Decimal(|body|))
  {
    NamesNormalize();
    DecimalIsPlain(|body|);
  }

  lemma PutKeepsPrintable(h: HeaderMap, key: string, value: string)
    requires Printable(h) && PrintableKey(key) && PrintableValue(value)
    ensures Printable(h[key := value])
  {
  }

  lemma DefaultsKeepForm(r: Message)
    requires WellFormed(r)
    ensures WellFormed(WithDefaults(r)) && WithDefaults(WithDefaults(r)) == WithDefaults(r)
  {
    var length := Decimal(|r.body|);
    DefaultsArePrintable(r.body);
    PutKeepsPrintable(r.headers, CONNECTION, "close");
    PutKeepsPrintable(r.headers, CONTENT_LENGTH, length);
    PutKeepsPrintable(r.headers[CONNECTION := "close"], CONTENT_LENGTH, length);
    PutKeepsPrintable(r.headers[CONTENT_LENGTH := length], CONNECTION, "close");
    DefaultsTwice(r);
  }

  lemma DefaultsTwice(r: Message)
    ensures WithDefaults(WithDefaults(r)) == WithDefaults(r)
  {
    if r.line.StatusLine? {
      var h := r.headers[CONTENT_LENGTH := Decimal(|r.body|)][CONNECTION := "close"];
      assert h[CONTENT_LENGTH := Decimal(|r.body|)][CONNECTION := "close"] == h;
    }
  }

  // ---------------------------------------------------------------- responses as written

  lemma OverwriteIsIdentityIff(h: HeaderMap, length: string)
    ensures h[CONTENT_LENGTH := length][CONNECTION := "close"] == h <==>
            && CONNECTION in h && h[CONNECTION] == "close"
            && CONTENT_LENGTH in h && h[CONTENT_LENGTH] == length
  {
    var g := h[CONTENT_LENGTH := length][CONNECTION := "close"];
    assert g[CONTENT_LENGTH] == length && g[CONNECTION] == "close";
  }

  // With normalised keys the appended defaults always win, so a response reads back as
  // itself exactly when it already carries both default values.
  lemma ResponseReadsBackIff(r: Message, order: seq<string>)
    requires WellFormed(r) && r.line.StatusLine? && IsOrder(order, r.headers)
    ensures Parse(KindOf(r), Serialize(r, order)) == Ok(r) <==>
            && CONNECTION in r.headers && r.headers[CONNECTION] == "close"
            && CONTENT_LENGTH in r.headers && r.headers[CONTENT_LENGTH] == Decimal(|r.body|)
  {
    ReadsBack(r, order);
    OverwriteIsIdentityIff(r.headers, Decimal(|r.body|));
  }

  const KEPT_ALIVE := Message(StatusLine("HTTP/1.1", 200), map[CONNECTION := "keep-alive"], "")

  // The keep-alive choice of the server does not survive its own printer.
  lemma KeepAliveIsLost()
    ensures Parse(Responses, Serialize(KEPT_ALIVE, [CONNECTION])) != Ok(KEPT_ALIVE)
  {
    NamesNormalize();
    assert PrintableKey(CONNECTION) && PrintableValue("keep-alive");
    ResponseReadsBackIff(KEPT_ALIVE, [CONNECTION]);
  }

  lemma TypedHeaders(contentType: string, length: string)
    ensures Put(Put(map[], "Content-Type", contentType), "Content-Length", length)
         == map["content-type" := contentType, CONTENT_LENGTH := length]
  {
    TypeNormalizes();
    NamesNormalize();
  }

  lemma TypeNormalizes()
    ensures Normalize("Content-Type") == "content-type"
  {
    TrimOfTrimmed("Content-Type");
    assert ToLower("Content-Type") == "content-type";
  }

  lemma TypeIsPrintable()
    ensures PrintableKey("content-type")
  {
    TypeNormalizes();
    NormalizeIdempotent("Content-Type");
  }

  lemma TypedIsPrintable(contentType: string, length: string)
    requires PrintableValue(contentType) && PrintableValue(length)
    ensures Printable(map["content-type" := contentType, CONTENT_LENGTH := length])
  {
    TypeIsPrintable();
    NamesNormalize();
  }

  lemma VersionIsGood(code: nat)
    requires code < U16_LIMIT
    ensures GoodStart(StatusLine(HTTP_VERSION, code))
  {
  }

  lemma TypedIsWellFormed(code: nat, contentType: string, body: string)
    requires code < U16_LIMIT && PrintableValue(contentType)
    ensures Printable(TypedResponse(code, contentType, body).headers)
    ensures TypedResponse(code, contentType, body).headers
         == map["content-type" := contentType, CONTENT_LENGTH := Decimal(|body|)]
  {
    var length := Decimal(|body|);
    DecimalIsPlain(|body|);
    TypedHeaders(contentType, length);
    TypedIsPrintable(contentType, length);
  }

  lemma LengthAlreadyThere(h: HeaderMap, length: string)
    requires CONTENT_LENGTH in h && h[CONTENT_LENGTH] == length
    ensures h[CONTENT_LENGTH := length] == h
  {
  }

  // A typed response already carries the right length, so it reads back whole, with only the
  // default "connection: close" added.
  lemma TypedReadsBack(code: nat, contentType: string, body: string, order: seq<string>)
    requires code < U16_LIMIT && PrintableValue(contentType)
    requires IsOrder(order, TypedResponse(code, contentType, body).headers)
    ensures Parse(Responses, Serialize(TypedResponse(code, contentType, body), order))
         == Ok(Message(StatusLine("HTTP/1.1", code),
              map["content-type" := contentType, CONTENT_LENGTH := Decimal(|body|), CONNECTION := "close"], body))
  {
    VersionIsGood(code);
    TypedIsWellFormed(code, contentType, body);
    LengthAlreadyThere(TypedResponse(code, contentType, body).headers, Decimal(|body|));
    ReadsBack(TypedResponse(code, contentType, body), order);
  }

  lemma SimpleReadsBack(code: nat)
    requires code < U16_LIMIT
    ensures Parse(Responses, Serialize(SimpleResponse(code), []))
         == Ok(Message(StatusLine("HTTP/1.1", code), map[CONTENT_LENGTH := "0", CONNECTION := "close"], ""))
  {
    VersionIsGood(code);
    ReadsBack(SimpleResponse(code), []);
    assert Decimal(0) == "0";
  }

  lemma MediaTypesArePrintable()
    ensures PrintableValue("text/plain") && PrintableValue("application/json")
  {
  }

  // What the three factories build reads back as built, with its length and "connection: close".
  lemma FactoriesReadBack(code: nat, body: string, textOrder: seq<string>, jsonOrder: seq<string>)
    requires code < U16_LIMIT
    requires IsOrder(textOrder, TextResponse(code, body).headers)
    requires IsOrder(jsonOrder, JsonResponse(code, body).headers)
    ensures Parse(Responses, Serialize(SimpleResponse(code), []))
         == Ok(Message(StatusLine("HTTP/1.1", code), map[CONTENT_LENGTH := "0", CONNECTION := "close"], ""))
    ensures Parse(Responses, Serialize(TextResponse(code, body), textOrder))
         == Ok(Message(StatusLine("HTTP/1.1", code),
              map["content-type" := "text/plain", CONTENT_LENGTH := Decimal(|body|), CONNECTION := "close"], body))
    ensures Parse(Responses, Serialize(JsonResponse(code, body), jsonOrder))
         == Ok(Message(StatusLine("HTTP/1.1", code),
              map["content-type" := "application/json", CONTENT_LENGTH := Decimal(|body|), CONNECTION := "close"],
              body))
  {
    MediaTypesArePrintable();
    SimpleReadsBack(code);
    TypedReadsBack(code, "text/plain", body, textOrder);
    TypedReadsBack(code, "application/json", body, jsonOrder);
  }

  // The evident intention: compare lower-cased names, as the request printer does.
  function IntendedExtras(r: Message): seq<string> {
    (if HasLowered(r.headers, CONTENT_LENGTH) then [] else [LengthLine(r.body)]) +
    (if HasLowered(r.headers, CONNECTION) then [] else [CLOSE_LINE])
  }

  lemma DefaultsUnder(h: HeaderMap, length: string)
    ensures map[CONTENT_LENGTH := length, CONNECTION := "close"] + h ==
            if CONTENT_LENGTH in h then (if CONNECTION in h then h else h[CONNECTION := "close"])
            else if CONNECTION in h then h[CONTENT_LENGTH := length]
            else h[CONTENT_LENGTH := length][CONNECTION := "close"]
  {
  }

  lemma IntendedFold(r: Message)
    requires Printable(r.headers)
    ensures Fold(r.headers, IntendedExtras(r))
         == map[CONTENT_LENGTH := Decimal(|r.body|), CONNECTION := "close"] + r.headers
  {
    FoldDefaults(r.headers, r.body);
    IntendedCases(r);
    DefaultsUnder(r.headers, Decimal(|r.body|));
  }

  lemma IntendedArePlain(r: Message)
    ensures PlainLines(IntendedExtras(r))
  {
    DecimalIsPlain(|r.body|);
  }

  // Under request-style lower-casing an explicit Content-Length and Connection survive.
  lemma IntendedResponseReadsBack(r: Message, order: seq<string>)
    requires WellFormed(r) && r.line.StatusLine? && IsOrder(order, r.headers)
    ensures var head := JoinLines([Start(r.line)] + HeaderLines(r.headers, order) + IntendedExtras(r));
            var text := head + "\r\n" + r.body;
            Parse(KindOf(r), text) == Ok(r.(headers :=
              map[CONTENT_LENGTH := Decimal(|r.body|), CONNECTION := "close"] + r.headers))
  {
    PrintableIsWritable(r.headers, order);
    IntendedFold(r);
    IntendedArePlain(r);
    TextReadsBack(r, order, IntendedExtras(r));
  }

  lemma IntendedCases(r: Message)
    requires Printable(r.headers)
    ensures var h, close, length := r.headers, [CLOSE_LINE], [LengthLine(r.body)];
            IntendedExtras(r) == if CONTENT_LENGTH in h then (if CONNECTION in h then [] else close)
                                 else if CONNECTION in h then length else length + close
  {
    NormalKeys(r.headers);
  }

  // ---------------------------------------------------------------- printed heads

  function PrintedHead(r: Message, order: seq<string>): string
    requires forall k | k in order :: k in r.headers
  {
    JoinLines([Start(r.line)] + HeaderLines(r.headers, order) + Extras(r)) + "\r\n"
  }

  lemma StartIsPlain(r: Message)
    requires GoodStart(r.line)
    ensures PlainLine(Start(r.line))
  {
    StartParses(r);
    if Start(r.line) == "" { BlankStartLine(KindOf(r), Start(r.line)); }
  }

  lemma PlainAppend(a: seq<string>, b: seq<string>)
    requires PlainLines(a) && PlainLines(b)
    ensures PlainLines(a + b)
  {
  }

  lemma PlainHeadLines(r: Message, order: seq<string>)
    requires WellFormed(r) && IsOrder(order, r.headers)
    ensures PlainLines([Start(r.line)] + HeaderLines(r.headers, order) + Extras(r))
  {
    StartIsPlain(r);
    PrintableIsWritable(r.headers, order);
    FoldHeaderLines(map[], r.headers, order);
    ExtrasArePlain(r);
    PlainAppend([Start(r.line)], HeaderLines(r.headers, order));
    PlainAppend([Start(r.line)] + HeaderLines(r.headers, order), Extras(r));
  }

  // A printed message is its head and its body; the head holds exactly one CRLF CRLF, at
  // its end, and that is also the first one of the whole text.
  lemma PrintedHeadEndsAtDelimiter(r: Message, order: seq<string>)
    requires WellFormed(r) && IsOrder(order, r.headers)
    ensures var head := PrintedHead(r, order);
            && Serialize(r, order) == head + r.body
            && |head| >= 4 && Delimiter(head) == |head| - 4
            && Delimiter(head + r.body) == |head| - 4
  {
    var lines := [Start(r.line)] + HeaderLines(r.headers, order) + Extras(r);
    PlainHeadLines(r, order);
    DelimiterOfLines(lines, r.body);
    DelimiterOfLines(lines, "");
    assert JoinLines(lines) + "\r\n" + "" == JoinLines(lines) + "\r\n";
  }
}
