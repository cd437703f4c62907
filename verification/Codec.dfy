// Requests and responses: start lines, the two printers, and the parser they share.

module Codec {
  import opened Strings
  import opened Streams
  import opened Headers
  import opened Walks

  datatype Method = GET | POST | PUT | DELETE | PATCH | HEAD | OPTIONS | UNKNOWN

  function StringToMethod(s: string): Method {
    if s == "GET" then GET
    else if s == "POST" then POST
    else if s == "PUT" then PUT
    else if s == "DELETE" then DELETE
    else if s == "PATCH" then PATCH
    else if s == "HEAD" then HEAD
    else if s == "OPTIONS" then OPTIONS
    else UNKNOWN
  }

  function MethodToString(m: Method): (s: string)
    ensures s != "" && NoSpace(s) && StringToMethod(s) == m
  {
    match m
    case GET => "GET"
    case POST => "POST"
    case PUT => "PUT"
    case DELETE => "DELETE"
    case PATCH => "PATCH"
    case HEAD => "HEAD"
    case OPTIONS => "OPTIONS"
    case UNKNOWN => "UNKNOWN"
  }

  // The seven names, and that every other name is an unknown method.
  lemma MethodNames(s: string)
    ensures MethodToString(GET) == "GET" && MethodToString(POST) == "POST" && MethodToString(PUT) == "PUT"
    ensures MethodToString(DELETE) == "DELETE" && MethodToString(PATCH) == "PATCH"
    ensures MethodToString(HEAD) == "HEAD" && MethodToString(OPTIONS) == "OPTIONS"
    ensures StringToMethod(s) == UNKNOWN || s == MethodToString(StringToMethod(s))
  {
  }

  function StatusText(code: nat): (s: string)
    ensures '\n' !in s
  {
    if code < 400 then StatusTextBelow400(code) else StatusTextFrom400(code)
  }

  function StatusTextBelow400(code: nat): (s: string)
    ensures '\n' !in s
  {
    match code
    case 200 => "OK"
    case 201 => "Created"
    case 204 => "No Content"
    case 301 => "Moved Permanently"
    case 302 => "Found"
    case 304 => "Not Modified"
    case _ => "Unknown"
  }

  function StatusTextFrom400(code: nat): (s: string)
    ensures '\n' !in s
  {
    match code
    case 400 => "Bad Request"
    case 401 => "Unauthorized"
    case 403 => "Forbidden"
    case 404 => "Not Found"
    case 405 => "Method Not Allowed"
    case 408 => "Request Timeout"
    case 413 => "Payload Too Large"
    case 431 => "Request Header Fields Too Large"
    case 500 => "Internal Server Error"
    case 502 => "Bad Gateway"
    case 503 => "Service Unavailable"
    case _ => "Unknown"
  }

  // The reason phrases of the known codes (RFC 9110, section 15).
  lemma ReasonPhrases()
    ensures StatusText(200) == "OK" && StatusText(201) == "Created" && StatusText(204) == "No Content"
    ensures StatusText(301) == "Moved Permanently" && StatusText(302) == "Found" && StatusText(304) == "Not Modified"
    ensures StatusText(400) == "Bad Request" && StatusText(401) == "Unauthorized" && StatusText(403) == "Forbidden"
    ensures StatusText(404) == "Not Found" && StatusText(405) == "Method Not Allowed"
    ensures StatusText(408) == "Request Timeout" && StatusText(413) == "Payload Too Large"
    ensures StatusText(431) == "Request Header Fields Too Large"
    ensures StatusText(500) == "Internal Server Error"
    ensures StatusText(502) == "Bad Gateway" && StatusText(503) == "Service Unavailable"
  {
  }

  lemma OtherPhrases(code: nat)
    requires code !in {200, 201, 204, 301, 302, 304}
    requires code !in {400, 401, 403, 404, 405, 408, 413, 431, 500, 502, 503}
    ensures StatusText(code) == "Unknown"
  {
  }

  datatype StartLine =
    | RequestLine(method_: Method, path: string, version: string)
    | StatusLine(version: string, code: nat)

  // Which message type a session reads (its template argument).
  datatype Kind = Requests | Responses

  // Both message types have exactly these three parts.
  datatype Message = Message(line: StartLine, headers: HeaderMap, body: string)

  // ---------------------------------------------------------------- factories

  const HTTP_VERSION := "HTTP/1.1"

  function SimpleResponse(code: nat): Message {
    Message(StatusLine(HTTP_VERSION, code), map[], "")
  }

  function TypedResponse(code: nat, contentType: string, body: string): Message {
    var h := Put(Put(map[], "Content-Type", contentType), "Content-Length", Decimal(|body|));
    Message(StatusLine(HTTP_VERSION, code), h, body)
  }

  function TextResponse(code: nat, text: string): Message {
    TypedResponse(code, "text/plain", text)
  }

  function JsonResponse(code: nat, json: string): Message {
    TypedResponse(code, "application/json", json)
  }

  // ---------------------------------------------------------------- parsing

  function ParseRequestLine(text: string): Result<StartLine> {
    var (m, afterMethod) := Token(text);
    var (path, afterPath) := Token(afterMethod);
    var (version, _) := Token(afterPath);
    if version == "" then Err(BadStartLine) else Ok(RequestLine(StringToMethod(m), path, version))
  }

  function ParseStatusLine(text: string): Result<StartLine> {
    var (version, afterVersion) := Token(text);
    var code := ExtractU16(afterVersion);
    if version == "" || code.None? then Err(BadStartLine) else Ok(StatusLine(version, code.value))
  }

  function ParseStartLine(kind: Kind, text: string): Result<StartLine> {
    if kind == Requests then ParseRequestLine(text) else ParseStatusLine(text)
  }

  function Parse(kind: Kind, s: string): Result<Message> {
    if s == "" then Err(EmptyInput)
    else
      match ParseStartLine(kind, Line(s))
      case Err(e) => Err(e)
      case Ok(line) =>
        var (headers, body) := ParseBlock(AfterLine(s), map[]);
        Ok(Message(line, headers, body))
  }

  method ParseFrom(kind: Kind, stream: InputStream) returns (r: Result<Message>)
    modifies stream
    ensures r == Parse(kind, old(stream.rest))
    ensures stream.rest == (if r.Ok? then "" else AfterLine(old(stream.rest)))
  {
    var ok, text := stream.GetLine();
    if !ok {
      return Err(EmptyInput);
    }
    var line := ParseStartLine(kind, StripCr(text));
    if line.Err? {
      return Err(line.error);
    }
    var table := ParseHeaders(stream);
    var body := stream.ReadRest();
    return Ok(Message(line.value, table.entries, body));
  }

  lemma RequestLineOf(text: string, afterMethod: string, afterPath: string, m: string, path: string, version: string)
    requires Token(text) == (m, afterMethod) && Token(afterMethod) == (path, afterPath)
    requires Token(afterPath).0 == version && version != ""
    ensures ParseRequestLine(text) == Ok(RequestLine(StringToMethod(m), path, version))
  {
  }

  lemma RequestLineLacks(text: string)
    requires Token(Token(Token(text).1).1).0 == ""
    ensures ParseRequestLine(text) == Err(BadStartLine)
  {
  }

  lemma WordsStep(text: string)
    ensures Words(text) == if Token(text).0 == "" then [] else [Token(text).0] + Words(Token(text).1)
  {
  }

  lemma NoTokenAfter(text: string)
    requires Token(text).0 == ""
    ensures Token(text).1 == "" && Token(Token(text).1).0 == ""
  {
    var t := SkipSpace(text);
    assert Token(text).0 == t[..TokenLength(t)];
    NoTokenLeft(Token(text).1);
  }

  lemma ThreeHeads(a: string, b: string, c: string, u: seq<string>, v: seq<string>, w: seq<string>, rest: seq<string>)
    requires (a == "" ==> b == "") && (b == "" ==> c == "")
    requires u == (if a == "" then [] else [a] + v) && v == (if b == "" then [] else [b] + w)
    requires w == if c == "" then [] else [c] + rest
    ensures |u| < 3 <==> c == ""
    ensures |u| >= 3 ==> u[0] == a && u[1] == b && u[2] == c
  {
  }

  lemma TokensRunOut(text: string)
    ensures Token(text).0 == "" ==> Token(Token(text).1).0 == ""
  {
    if Token(text).0 == "" { NoTokenAfter(text); }
  }

  // Where the second and the third word start, if there are that many.
  lemma SecondWord(text: string, second: string, third: string)
    requires second == Token(text).1 && third == Token(second).1
    ensures |Words(text)| < 3 <==> Token(third).0 == ""
    ensures |Words(text)| >= 3 ==>
              && Token(text).0 == Words(text)[0] && Token(second).0 == Words(text)[1]
              && Token(third).0 == Words(text)[2]
  {
    WordsStep(text);
    WordsStep(second);
    WordsStep(third);
    TokensRunOut(text);
    TokensRunOut(second);
    ThreeHeads(Token(text).0, Token(second).0, Token(third).0,
               Words(text), Words(second), Words(third), Words(Token(third).1));
  }

  // A request line parses exactly when it has at least three words; they are the method, the
  // path and the version, and anything after them is ignored.
  lemma RequestLineIsThreeWords(text: string)
    ensures ParseRequestLine(text)
         == var w := Words(text);
            if |w| < 3 then Err(BadStartLine) else Ok(RequestLine(StringToMethod(w[0]), w[1], w[2]))
  {
    var second := Token(text).1;
    var third := Token(second).1;
    SecondWord(text, second, third);
    if |Words(text)| < 3 {
      RequestLineLacks(text);
    } else {
      var w := Words(text);
      RequestLineOf(text, second, third, w[0], w[1], w[2]);
    }
  }

  // A status line parses exactly when it starts with a word and a number that fits 16 bits.
  lemma StatusLineIff(text: string)
    ensures ParseStatusLine(text).Ok? <==> Words(text) != [] && ExtractU16(Token(text).1).Some?
    ensures ParseStatusLine(text).Ok? ==>
              ParseStatusLine(text).value == StatusLine(Words(text)[0], ExtractU16(Token(text).1).value)
  {
  }

  // Only the start line decides whether a message parses: no header block and no body is refused.
  lemma ParsesIff(kind: Kind, s: string)
    ensures Parse(kind, s).Ok? <==> ParseStartLine(kind, Line(s)).Ok?
    ensures Parse(kind, s).Ok? ==> Parse(kind, s).value.line == ParseStartLine(kind, Line(s)).value
  {
    if s == "" {
      LineOfLf(s, "");
      BlankStartLine(kind, Line(s));
    }
  }

  lemma LastWord(word: string)
    requires word != "" && NoSpace(word)
    ensures Token(" " + word).0 == word
  {
    TokenOf(word, "");
    assert " " + word + "" == " " + word;
  }

  lemma RegroupWords(m: string, path: string, version: string)
    ensures m + " " + path + " " + version == m + (" " + path + (" " + version))
  {
  }

  lemma TokensAreWords(m: string, path: string, version: string)
    requires m != "" && path != "" && version != ""
    requires NoSpace(m) && NoSpace(path) && NoSpace(version)
    ensures ParseRequestLine(m + " " + path + " " + version) == Ok(RequestLine(StringToMethod(m), path, version))
  {
    var tail := " " + version;
    var middle := " " + path + tail;
    TokenOf(m, middle);
    TokenOf(path, tail);
    LastWord(version);
    RequestLineOf(m + middle, middle, tail, m, path, version);
    RegroupWords(m, path, version);
  }

  lemma StatusLineOf(text: string, afterVersion: string, version: string, code: nat)
    requires Token(text) == (version, afterVersion) && version != "" && ExtractU16(afterVersion) == Some(code)
    ensures ParseStatusLine(text) == Ok(StatusLine(version, code))
  {
  }

  lemma VersionAndCode(version: string, code: nat, text: string)
    requires version != "" && NoSpace(version) && code < U16_LIMIT
    ensures ParseStatusLine(version + " " + Decimal(code) + " " + text) == Ok(StatusLine(version, code))
  {
    var tail := " " + Decimal(code) + (" " + text);
    TokenOf(version, tail);
    ExtractPrinted(code, " " + text);
    StatusLineOf(version + tail, tail, version, code);
    RegroupWords(version, Decimal(code), text);
  }

  lemma StatusWords(version: string, code: nat)
    requires version != "" && NoSpace(version) && code < U16_LIMIT
    ensures ParseStatusLine(version + " " + Decimal(code) + " " + StatusText(code)) == Ok(StatusLine(version, code))
  {
    VersionAndCode(version, code, StatusText(code));
  }

  lemma BlankRequestLine(s: string)
    requires s == ""
    ensures ParseRequestLine(s).Err?
  {
    NoTokenLeft(s);
    NoTokenLeft(Token(s).1);
    NoTokenLeft(Token(Token(s).1).1);
  }

  lemma BlankStatusLine(s: string)
    requires s == ""
    ensures ParseStatusLine(s).Err?
  {
    NoTokenLeft(s);
  }

  lemma BlankStartLine(kind: Kind, s: string)
    requires s == ""
    ensures ParseStartLine(kind, s).Err?
  {
    if kind == Requests {
      BlankRequestLine(s);
    } else {
      BlankStatusLine(s);
    }
  }

  // ---------------------------------------------------------------- printing

  function JoinLines(lines: seq<string>): string {
    if lines == [] then "" else lines[0] + "\r\n" + JoinLines(lines[1..])
  }

  function HeaderLine(key: string, value: string): string {
    key + ": " + value
  }

  // One line per header, in the order the hash map is walked.
  function HeaderLines(h: HeaderMap, order: seq<string>): seq<string>
    requires forall k | k in order :: k in h
  {
    if order == [] then []
    else [HeaderLine(order[0], h[order[0]])] + HeaderLines(h, order[1..])
  }

  predicate HasLowered(h: HeaderMap, name: string) {
    exists k | k in h :: ToLower(k) == name
  }

  function RequestStart(line: StartLine): string
    requires line.RequestLine?
  {
    MethodToString(line.method_) + " " + line.path + " " + line.version
  }

  function ResponseStart(line: StartLine): string
    requires line.StatusLine?
  {
    line.version + " " + Decimal(line.code) + " " + StatusText(line.code)
  }

  function LengthLine(body: string): string {
    HeaderLine("Content-Length", Decimal(|body|))
  }

  const CLOSE_LINE := HeaderLine("Connection", "close")

  function RequestExtras(r: Message): seq<string> {
    (if HasLowered(r.headers, CONNECTION) then [] else [CLOSE_LINE]) +
    (if HasLowered(r.headers, CONTENT_LENGTH) || r.body == "" then [] else [LengthLine(r.body)])
  }

  // The response printer compares the stored keys with the mixed-case names.
  function ResponseExtras(r: Message): seq<string> {
    (if "Content-Length" in r.headers then [] else [LengthLine(r.body)]) +
    (if "Connection" in r.headers then [] else [CLOSE_LINE])
  }

  function Start(line: StartLine): string {
    if line.RequestLine? then RequestStart(line) else ResponseStart(line)
  }

  function Extras(r: Message): seq<string> {
    if r.line.RequestLine? then RequestExtras(r) else ResponseExtras(r)
  }

  function Serialize(r: Message, order: seq<string>): string
    requires forall k | k in order :: k in r.headers
  {
    JoinLines([Start(r.line)] + HeaderLines(r.headers, order) + Extras(r)) + "\r\n" + r.body
  }

  lemma {:induction false} JoinSnoc(lines: seq<string>, last: string)
    ensures JoinLines(lines + [last]) == JoinLines(lines) + last + "\r\n"
  {
    if lines == [] {
      assert lines + [last] == [last] && [last][1..] == [];
    } else {
      assert (lines + [last])[1..] == lines[1..] + [last];
      JoinSnoc(lines[1..], last);
      Assoc(lines[0] + "\r\n", JoinLines(lines[1..]), last);
      Assoc(lines[0] + "\r\n", JoinLines(lines[1..]) + last, "\r\n");
    }
  }

  lemma {:induction false} HeaderLinesSnoc(h: HeaderMap, order: seq<string>, last: string)
    requires (forall k | k in order :: k in h) && last in h
    ensures HeaderLines(h, order + [last]) == HeaderLines(h, order) + [HeaderLine(last, h[last])]
  {
    if order == [] {
      assert order + [last] == [last] && [last][1..] == [];
    } else {
      assert (order + [last])[1..] == order[1..] + [last];
      HeaderLinesSnoc(h, order[1..], last);
    }
  }

  lemma {:induction false} JoinAppend(a: seq<string>, b: seq<string>)
    ensures JoinLines(a + b) == JoinLines(a) + JoinLines(b)
    decreases a
  {
    if a == [] {
      assert a + b == b;
    } else {
      assert (a + b)[0] == a[0] && (a + b)[1..] == a[1..] + b;
      JoinAppend(a[1..], b);
      Assoc(a[0] + "\r\n", JoinLines(a[1..]), JoinLines(b));
    }
  }

  lemma JoinOne(line: string)
    ensures JoinLines([line]) == line + "\r\n"
  {
    assert [line][1..] == [] && line + "\r\n" + "" == line + "\r\n";
  }

  // The header part of a printed message as plain text.
  function HeaderText(h: HeaderMap, order: seq<string>): string
    requires forall k | k in order :: k in h
  {
    if order == [] then ""
    else order[0] + ": " + h[order[0]] + "\r\n" + HeaderText(h, order[1..])
  }

  lemma {:induction false} HeaderTextIs(h: HeaderMap, order: seq<string>)
    requires forall k | k in order :: k in h
    ensures JoinLines(HeaderLines(h, order)) == HeaderText(h, order)
    decreases order
  {
    if order != [] {
      var line, more := HeaderLine(order[0], h[order[0]]), HeaderLines(h, order[1..]);
      HeaderTextIs(h, order[1..]);
      JoinAppend([line], more);
      JoinOne(line);
    }
  }

  // Up to two optional lines, as text.
  lemma TwoLines(first: seq<string>, second: seq<string>, a: string, b: string)
    requires first == [] || first == [a]
    requires second == [] || second == [b]
    ensures JoinLines(first + second)
         == (if first == [] then "" else a + "\r\n") + (if second == [] then "" else b + "\r\n")
  {
    JoinAppend(first, second);
    JoinOne(a);
    JoinOne(b);
  }

  lemma MessageText(r: Message, order: seq<string>)
    requires IsOrder(order, r.headers)
    ensures Serialize(r, order)
         == Start(r.line) + "\r\n" + HeaderText(r.headers, order) + JoinLines(Extras(r)) + "\r\n" + r.body
  {
    JoinAppend([Start(r.line)] + HeaderLines(r.headers, order), Extras(r));
    JoinAppend([Start(r.line)], HeaderLines(r.headers, order));
    JoinOne(Start(r.line));
    HeaderTextIs(r.headers, order);
  }

  // A printed request, in full: the close line goes out unless some key says connection, the
  // length line unless some key says content-length or there is no body, in any letter case.
  lemma RequestText(r: Message, order: seq<string>)
    requires r.line.RequestLine? && IsOrder(order, r.headers)
    ensures Serialize(r, order)
         == MethodToString(r.line.method_) + " " + r.line.path + " " + r.line.version + "\r\n"
            + HeaderText(r.headers, order)
            + ((if exists k | k in r.headers :: ToLower(k) == "connection" then "" else "Connection: close\r\n")
               + (if r.body == "" || exists k | k in r.headers :: ToLower(k) == "content-length" then ""
                  else "Content-Length: " + Decimal(|r.body|) + "\r\n"))
            + "\r\n" + r.body
  {
    MessageText(r, order);
    DefaultLines(r.body);
    var close, length := "Connection: close", "Content-Length: " + Decimal(|r.body|);
    TwoLines(if HasLowered(r.headers, CONNECTION) then [] else [close],
             if HasLowered(r.headers, CONTENT_LENGTH) || r.body == "" then [] else [length], close, length);
  }

  // A printed response, in full: its two lines go out unless the mixed-case key itself is stored.
  lemma ResponseText(r: Message, order: seq<string>)
    requires r.line.StatusLine? && IsOrder(order, r.headers)
    ensures Serialize(r, order)
         == r.line.version + " " + Decimal(r.line.code) + " " + StatusText(r.line.code) + "\r\n"
            + HeaderText(r.headers, order)
            + ((if "Content-Length" in r.headers then "" else "Content-Length: " + Decimal(|r.body|) + "\r\n")
               + (if "Connection" in r.headers then "" else "Connection: close\r\n"))
            + "\r\n" + r.body
  {
    MessageText(r, order);
    DefaultLines(r.body);
    var close, length := "Connection: close", "Content-Length: " + Decimal(|r.body|);
    TwoLines(if "Content-Length" in r.headers then [] else [length],
             if "Connection" in r.headers then [] else [close], length, close);
  }

  lemma DefaultLines(body: string)
    ensures CLOSE_LINE == "Connection: close" && CLOSE_LINE + "\r\n" == "Connection: close\r\n"
    ensures LengthLine(body) == "Content-Length: " + Decimal(|body|)
  {
    var name := "Content-Length";
    assert name + ": " == "Content-Length: ";
  }

  lemma OrderMeets(h: HeaderMap, order: seq<string>, name: string)
    requires IsOrder(order, h)
    ensures HasLowered(h, name) <==> Names(order, name)
    ensures name in h <==> name in order
  {
  }

  // Some key of the list is the name once lower-cased.
  predicate Names(keys: seq<string>, name: string) {
    exists k | k in keys :: ToLower(k) == name
  }

  lemma NamesSnoc(order: seq<string>, i: nat, name: string)
    requires i < |order|
    ensures Names(order[..i + 1], name) <==> Names(order[..i], name) || ToLower(order[i]) == name
    ensures name in order[..i + 1] <==> name in order[..i] || order[i] == name
  {
    assert order[..i + 1] == order[..i] + [order[i]];
    assert order[i] in order[..i + 1];
  }

  lemma TextSnoc(text: string, lines: seq<string>, line: string)
    requires text == JoinLines(lines)
    ensures text + (line + "\r\n") == JoinLines(lines + [line])
  {
    JoinSnoc(lines, line);
    Assoc(text, line, "\r\n");
  }

  // Appending one "key: value" line keeps the text in step with the list of lines.
  method AppendHeader(text: string, h: HeaderMap, order: seq<string>, i: nat, ghost start: string)
    returns (longer: string)
    requires i < |order| && (forall k | k in order :: k in h)
    requires text == JoinLines([start] + HeaderLines(h, order[..i]))
    ensures longer == JoinLines([start] + HeaderLines(h, order[..i + 1]))
  {
    var key := order[i];
    var line := key + ": " + h[key];
    longer := text + (line + "\r\n");
    ghost var lines := HeaderLines(h, order[..i]);
    TextSnoc(text, [start] + lines, line);
    HeaderLinesSnoc(h, order[..i], key);
    assert order[..i + 1] == order[..i] + [key];
    assert [start] + lines + [line] == [start] + (lines + [line]);
  }

  lemma JoinGroups(lines: seq<string>, first: seq<string>, second: seq<string>)
    ensures JoinLines(lines + first + second) == JoinLines(lines + (first + second))
  {
    assert lines + first + second == lines + (first + second);
  }

  // A default header line goes out unless its flag was set.
  method AppendUnless(text: string, present: bool, line: string, ghost lines: seq<string>) returns (longer: string)
    requires text == JoinLines(lines)
    ensures longer == JoinLines(lines + if present then [] else [line])
  {
    if present {
      assert lines + [] == lines;
      return text;
    }
    TextSnoc(text, lines, line);
    return text + (line + "\r\n");
  }

  // The printing loop of a request and its two flags; names are compared lower-cased.
  method PrintRequestHeaders(r: Message, order: seq<string>)
    returns (text: string, hasConnection: bool, hasContentLength: bool)
    requires r.line.RequestLine? && IsOrder(order, r.headers)
    ensures text == JoinLines([Start(r.line)] + HeaderLines(r.headers, order))
    ensures hasConnection == HasLowered(r.headers, CONNECTION)
    ensures hasContentLength == HasLowered(r.headers, CONTENT_LENGTH)
  {
    text, hasConnection, hasContentLength := RequestStart(r.line) + "\r\n", false, false;
    JoinSnoc([], Start(r.line));
    var i := 0;
    while i < |order|
      invariant 0 <= i <= |order|
      invariant text == JoinLines([Start(r.line)] + HeaderLines(r.headers, order[..i]))
      invariant hasConnection == Names(order[..i], CONNECTION)
      invariant hasContentLength == Names(order[..i], CONTENT_LENGTH)
    {
      NamesSnoc(order, i, CONNECTION);
      NamesSnoc(order, i, CONTENT_LENGTH);
      text := AppendHeader(text, r.headers, order, i, Start(r.line));
      var lkey := new Text(order[i]);
      lkey.LowerInPlace();
      if lkey.data == CONNECTION { hasConnection := true; }
      if lkey.data == CONTENT_LENGTH { hasContentLength := true; }
      i := i + 1;
    }
    assert order[..i] == order;
    OrderMeets(r.headers, order, CONNECTION);
    OrderMeets(r.headers, order, CONTENT_LENGTH);
  }

  method PrintRequest(r: Message, order: seq<string>) returns (text: string)
    requires r.line.RequestLine? && IsOrder(order, r.headers)
    ensures text == Serialize(r, order)
  {
    var hasConnection, hasContentLength;
    text, hasConnection, hasContentLength := PrintRequestHeaders(r, order);
    ghost var lines := [Start(r.line)] + HeaderLines(r.headers, order);
    ghost var first := if hasConnection then [] else [CLOSE_LINE];
    text := AppendUnless(text, hasConnection, CLOSE_LINE, lines);
    text := AppendUnless(text, hasContentLength || r.body == "", LengthLine(r.body), lines + first);
    JoinGroups(lines, first, if hasContentLength || r.body == "" then [] else [LengthLine(r.body)]);
    text := text + "\r\n" + r.body;
  }

  // The printing loop of a response and its two flags; names are compared as stored.
  method PrintResponseHeaders(r: Message, order: seq<string>)
    returns (text: string, hasContentLength: bool, hasConnection: bool)
    requires r.line.StatusLine? && IsOrder(order, r.headers)
    ensures text == JoinLines([Start(r.line)] + HeaderLines(r.headers, order))
    ensures hasContentLength == ("Content-Length" in r.headers)
    ensures hasConnection == ("Connection" in r.headers)
  {
    text, hasContentLength, hasConnection := ResponseStart(r.line) + "\r\n", false, false;
    JoinSnoc([], Start(r.line));
    var i := 0;
    while i < |order|
      invariant 0 <= i <= |order|
      invariant text == JoinLines([Start(r.line)] + HeaderLines(r.headers, order[..i]))
      invariant hasContentLength == ("Content-Length" in order[..i])
      invariant hasConnection == ("Connection" in order[..i])
    {
      NamesSnoc(order, i, "Content-Length");
      NamesSnoc(order, i, "Connection");
      text := AppendHeader(text, r.headers, order, i, Start(r.line));
      if order[i] == "Content-Length" { hasContentLength := true; }
      if order[i] == "Connection" { hasConnection := true; }
      i := i + 1;
    }
    assert order[..i] == order;
    OrderMeets(r.headers, order, "Content-Length");
    OrderMeets(r.headers, order, "Connection");
  }

  method PrintResponse(r: Message, order: seq<string>) returns (text: string)
    requires r.line.StatusLine? && IsOrder(order, r.headers)
    ensures text == Serialize(r, order)
  {
    var hasContentLength, hasConnection;
    text, hasContentLength, hasConnection := PrintResponseHeaders(r, order);
    ghost var lines := [Start(r.line)] + HeaderLines(r.headers, order);
    ghost var first := if hasContentLength then [] else [LengthLine(r.body)];
    text := AppendUnless(text, hasContentLength, LengthLine(r.body), lines);
    text := AppendUnless(text, hasConnection, CLOSE_LINE, lines + first);
    JoinGroups(lines, first, if hasConnection then [] else [CLOSE_LINE]);
    text := text + "\r\n" + r.body;
  }
}
