// The server side of a session: the keep-alive loop around the request handler.

module Server {
  import opened Strings
  import opened Segments
  import opened Streams
  import opened Headers
  import opened Walks
  import opened Codec
  import opened RoundTrip
  import opened Framing
  import opened Session
  import opened Chunking
  import Runs

  // What the request handler did; its answer is the environment's choice.
  datatype Reply = Replied(resp: Message) | Threw(what: string)

  datatype Entry = ReadStarted | Handled(req: Message, reply: Reply) | WriteStarted(resp: Message)

  datatype Peer = Peer(base: State, keepAlive: bool, log: seq<Entry>)

  datatype Input = Input(event: Event, reply: Reply)

  predicate IsReply(reply: Reply) {
    reply.Replied? ==> reply.resp.line.StatusLine?
  }

  // Keep the connection unless the header says exactly "close".
  function KeepsAlive(h: HeaderMap): bool {
    Lookup(h, "connection") != Some("close")
  }

  function Answer(reply: Reply, keep: bool): Message {
    var resp := match reply
                case Replied(r) => r
                case Threw(what) => TextResponse(500, what);
    resp.(headers := Put(resp.headers, "Connection", if keep then "keep-alive" else "close"))
  }

  function Keeps(req: Message, reply: Reply): bool {
    KeepsAlive(req.headers) && reply.Replied?
  }

  function OnMessageParsed(p: Peer, req: Message, reply: Reply): Peer {
    var keep := Keeps(req, reply);
    var resp := Answer(reply, keep);
    Peer(DoWrite(p.base, resp), keep, p.log + [Handled(req, reply), WriteStarted(resp)])
  }

  function OnWriteComplete(p: Peer): Peer {
    if p.keepAlive then p.(base := DoRead(p.base), log := p.log + [ReadStarted])
    else p.(base := Shutdown(p.base))
  }

  function RunHook(p: Peer, hook: Hook, reply: Reply): Peer {
    match hook
    case NoHook => p
    case Parsed(req) => OnMessageParsed(p, req, reply)
    case Written => OnWriteComplete(p)
    case Failed(_) => p.(base := Shutdown(p.base))
  }

  // An event that cannot happen changes nothing; Possible excludes such inputs from runs.
  function ServerStep(p: Peer, input: Input): Peer {
    if !Enabled(p.base, input.event) then p
    else
      var (base, hook) := Step(p.base, input.event);
      RunHook(p.(base := base), hook, input.reply)
  }

  function Started(cfg: Config): Peer {
    Peer(DoRead(State(Requests, cfg, true, "", Idle, false, 0)), false, [ReadStarted])
  }

  predicate CanTake(p: Peer, input: Input) {
    Enabled(p.base, input.event) && IsReply(input.reply)
  }

  predicate Possible(p: Peer, inputs: seq<Input>) {
    Runs.Possible(CanTake, ServerStep, p, inputs)
  }

  function Run(p: Peer, inputs: seq<Input>): Peer {
    Runs.Run(ServerStep, p, inputs)
  }

  // ---------------------------------------------------------------- every run

  // Reads, handler calls and writes strictly alternate.
  predicate Alternates(log: seq<Entry>) {
    forall i | 0 <= i < |log| ::
      if i % 3 == 0 then log[i].ReadStarted? else if i % 3 == 1 then log[i].Handled? else log[i].WriteStarted?
  }

  // The request carries a Connection header that says exactly "close".
  predicate AsksToClose(h: HeaderMap) {
    CONNECTION in h && h[CONNECTION] == "close"
  }

  // Only that header ends a connection: without one, or with anything else in it, it is kept.
  lemma KeepsAliveIff(h: HeaderMap)
    ensures KeepsAlive(h) <==> !AsksToClose(h)
  {
    ConnectionName();
  }

  lemma ConnectionName()
    ensures Normalize("connection") == CONNECTION
  {
    NamesNormalize();
  }

  // The response to a request: the handler's answer, or an error page with the exception's
  // text. It announces close exactly when the request asks for it or the handler threw.
  predicate Answers(req: Message, reply: Reply, resp: Message) {
    match reply
    case Replied(r) =>
      && Announces(resp, if AsksToClose(req.headers) then "close" else "keep-alive")
      && resp.line == r.line && resp.body == r.body && resp.headers - {CONNECTION} == r.headers - {CONNECTION}
    case Threw(what) =>
      resp == Message(StatusLine("HTTP/1.1", 500),
        map["content-type" := "text/plain", CONTENT_LENGTH := Decimal(|what|), CONNECTION := "close"], what)
  }

  // Each handled request had its full body and got its own answer, and anything after a
  // response means that it announced keep-alive.
  predicate Honest(cfg: Config, log: seq<Entry>) {
    && (forall i | 0 <= i < |log| && log[i].Handled? :: Deliverable(cfg, log[i].req))
    && (forall i | 0 < i < |log| && log[i].WriteStarted? ::
          && log[i - 1].Handled? && Answers(log[i - 1].req, log[i - 1].reply, log[i].resp)
          && (i + 1 < |log| ==> Announces(log[i].resp, "keep-alive")))
  }

  predicate Announces(resp: Message, choice: string) {
    CONNECTION in resp.headers && resp.headers[CONNECTION] == choice
  }

  // The log position matches the operation in flight; a server with none has closed.
  predicate InStep(p: Peer) {
    match p.base.pending
    case Idle => !p.base.open && |p.log| % 3 != 2
    case ReadingHead => |p.log| % 3 == 1
    case ReadingBody(_, _) => |p.log| % 3 == 1
    case Writing(resp) =>
      && |p.log| % 3 == 0 && p.log != [] && p.log[|p.log| - 1] == WriteStarted(resp)
      && (p.keepAlive <==> Announces(resp, "keep-alive"))
  }

  predicate ServerInvariant(p: Peer) {
    && SizesFit(p.base) && TimersFit(p.base)
    && Alternates(p.log) && Honest(p.base.cfg, p.log) && InStep(p)
  }

  lemma PutOthers(h: HeaderMap, value: string)
    ensures Put(h, "Connection", value) == h[CONNECTION := value]
    ensures h[CONNECTION := value] - {CONNECTION} == h - {CONNECTION}
  {
    NamesNormalize();
  }

  lemma ErrorPageHeaders(what: string)
    ensures TextResponse(500, what) == Message(StatusLine("HTTP/1.1", 500),
              map["content-type" := "text/plain", CONTENT_LENGTH := Decimal(|what|)], what)
  {
    TypedHeaders("text/plain", Decimal(|what|));
  }

  lemma HookAnswers(req: Message, reply: Reply)
    ensures Answers(req, reply, Answer(reply, Keeps(req, reply)))
  {
    KeepsAliveIff(req.headers);
    match reply
    case Replied(r) => PutOthers(r.headers, if KeepsAlive(req.headers) then "keep-alive" else "close");
    case Threw(what) =>
      ErrorPageHeaders(what);
      PutOthers(TextResponse(500, what).headers, "close");
  }

  lemma AnswersAnnounce(req: Message, reply: Reply, resp: Message)
    requires Answers(req, reply, resp)
    ensures Announces(resp, if Keeps(req, reply) then "keep-alive" else "close")
  {
    KeepsAliveIff(req.headers);
  }

  lemma AlternatesGrow(log: seq<Entry>, req: Message, reply: Reply, resp: Message)
    requires Alternates(log) && |log| % 3 == 1
    ensures Alternates(log + [Handled(req, reply), WriteStarted(resp)])
    ensures log[|log| - 1].ReadStarted?
  {
  }

  lemma HonestGrows(cfg: Config, log: seq<Entry>, req: Message, reply: Reply, resp: Message)
    requires Honest(cfg, log) && log != [] && log[|log| - 1].ReadStarted? && Deliverable(cfg, req)
    requires Answers(req, reply, resp)
    ensures Honest(cfg, log + [Handled(req, reply), WriteStarted(resp)])
  {
    var n, grown := |log|, log + [Handled(req, reply), WriteStarted(resp)];
    assert grown[n] == Handled(req, reply) && grown[n + 1] == WriteStarted(resp);
    assert forall i | 0 <= i < n :: grown[i] == log[i];
  }

  lemma LogGrows(cfg: Config, log: seq<Entry>, req: Message, reply: Reply, resp: Message)
    requires Alternates(log) && Honest(cfg, log) && |log| % 3 == 1 && Deliverable(cfg, req)
    requires Answers(req, reply, resp)
    ensures var grown := log + [Handled(req, reply), WriteStarted(resp)];
            Alternates(grown) && Honest(cfg, grown)
  {
    AlternatesGrow(log, req, reply, resp);
    HonestGrows(cfg, log, req, reply, resp);
  }

  lemma WritesInStep(p: Peer, resp: Message)
    requires |p.log| % 3 == 0 && p.log != [] && p.log[|p.log| - 1] == WriteStarted(resp)
    requires p.base.pending == Writing(resp)
    requires Announces(resp, if p.keepAlive then "keep-alive" else "close")
    ensures InStep(p)
  {
  }

  lemma HandlingKeeps(p: Peer, req: Message, reply: Reply)
    requires SizesFit(p.base) && TimersFit(p.base) && p.base.pending.Idle? && p.base.buffer == ""
    requires Alternates(p.log) && Honest(p.base.cfg, p.log) && |p.log| % 3 == 1 && Deliverable(p.base.cfg, req)
    ensures ServerInvariant(OnMessageParsed(p, req, reply))
  {
    var resp := Answer(reply, Keeps(req, reply));
    HookAnswers(req, reply);
    LogGrows(p.base.cfg, p.log, req, reply, resp);
    AnswersAnnounce(req, reply, resp);
    WritesInStep(OnMessageParsed(p, req, reply), resp);
  }

  lemma LogContinues(cfg: Config, log: seq<Entry>)
    requires Alternates(log) && Honest(cfg, log) && |log| % 3 == 0 && log != []
    requires log[|log| - 1].WriteStarted? && Announces(log[|log| - 1].resp, "keep-alive")
    ensures Alternates(log + [ReadStarted]) && Honest(cfg, log + [ReadStarted])
  {
    var grown := log + [ReadStarted];
    assert forall i | 0 <= i < |log| :: grown[i] == log[i];
    assert grown[|log|] == ReadStarted;
  }

  lemma WritingKeeps(p: Peer, written: State)
    requires ServerInvariant(p) && p.base.pending.Writing?
    requires SizesFit(written) && TimersFit(written) && written.cfg == p.base.cfg
    requires written.pending.Idle? && written.buffer == ""
    ensures ServerInvariant(OnWriteComplete(p.(base := written)))
  {
    if p.keepAlive { LogContinues(p.base.cfg, p.log); }
  }

  lemma QuietKeeps(p: Peer, t: State)
    requires ServerInvariant(p) && SizesFit(t) && TimersFit(t) && t.cfg == p.base.cfg && t.open == p.base.open
    requires || t.pending == p.base.pending
             || (t.pending.Idle? && !t.open && !p.base.pending.Writing?)
             || (t.pending.ReadingBody? && (p.base.pending.ReadingHead? || p.base.pending.ReadingBody?))
    ensures ServerInvariant(p.(base := t))
  {
  }

  lemma FailureKeeps(p: Peer, t: State)
    requires ServerInvariant(p) && SizesFit(Shutdown(t)) && TimersFit(Shutdown(t)) && t.cfg == p.base.cfg
    requires t.pending.Idle? || t.pending == p.base.pending
    ensures ServerInvariant(p.(base := Shutdown(t)))
  {
  }

  lemma ServerStepKeeps(p: Peer, input: Input)
    requires ServerInvariant(p) && Enabled(p.base, input.event)
    ensures ServerInvariant(ServerStep(p, input)) && ServerStep(p, input).base.cfg == p.base.cfg
  {
    StepKeeps(p.base, input.event);
    var (t, hook) := Step(p.base, input.event);
    match hook
    case Parsed(req) =>
      ParsedWasReading(p.base, input.event);
      HandlingKeeps(p.(base := t), req, input.reply);
    case Written =>
      WritingKeeps(p, t);
    case Failed(_) =>
      FailureKeeps(p, t);
    case NoHook =>
      QuietStaysInStep(p.base, input.event);
      QuietKeeps(p, t);
  }

  lemma ParsedWasReading(s: State, e: Event)
    requires Enabled(s, e) && Step(s, e).1.Parsed?
    ensures s.pending.ReadingHead? || s.pending.ReadingBody?
  {
  }

  lemma QuietStaysInStep(s: State, e: Event)
    requires Enabled(s, e) && Step(s, e).1.NoHook?
    ensures var t := Step(s, e).0;
            || t.pending == s.pending
            || (t.pending.Idle? && !t.open && !s.pending.Writing?)
            || (t.pending.ReadingBody? && (s.pending.ReadingHead? || s.pending.ReadingBody?))
    ensures Step(s, e).0.open == s.open
  {
    if e.Receive? {
      ReceiveFrame(s, e.chunk);
      if s.pending.ReadingHead? { QuietHead(s, s.buffer + e.chunk); }
    }
  }

  lemma QuietHead(s: State, b: string)
    requires s.pending.ReadingHead? && ReadUntil(s.(buffer := b)).1.NoHook?
    ensures ReadUntil(s.(buffer := b)).0.pending.ReadingHead? || ReadUntil(s.(buffer := b)).0.pending.ReadingBody?
  {
    OnHeadOutcome(s.(buffer := b), Delimiter(b), Parse(s.kind, b));
  }

  // Main safety result: over every interleaving of socket, handler and timer events, the
  // server alternates read, handler call and write, hands over only complete bodies, never
  // reads again after announcing close, and has closed whenever nothing is in flight.
  lemma {:induction false} EveryRunIsSafe(p: Peer, inputs: seq<Input>)
    requires ServerInvariant(p) && Possible(p, inputs)
    ensures ServerInvariant(Run(p, inputs))
    decreases inputs
  {
    if inputs != [] {
      ServerStepKeeps(p, inputs[0]);
      EveryRunIsSafe(ServerStep(p, inputs[0]), inputs[1..]);
    }
  }

  // After a request that asks to close, or a handler that throws, one response is written and
  // nothing more is read, whatever else happens; after any other request the response
  // announces that the connection is kept.
  lemma NothingAfterClose(p: Peer, inputs: seq<Input>, i: nat)
    requires ServerInvariant(p) && Possible(p, inputs)
    requires i < |Run(p, inputs).log| && Run(p, inputs).log[i].Handled?
    ensures var log := Run(p, inputs).log;
            && i + 1 < |log| && log[i + 1].WriteStarted?
            && if log[i].reply.Threw? || AsksToClose(log[i].req.headers)
               then |log| == i + 2 && Announces(log[i + 1].resp, "close")
               else Announces(log[i + 1].resp, "keep-alive")
  {
    EveryRunIsSafe(p, inputs);
    var end := Run(p, inputs);
    assert end.log[i].Handled? && i % 3 == 1;
    assert |end.log| != i + 1;
    assert end.log[i + 1].WriteStarted? && Answers(end.log[i].req, end.log[i].reply, end.log[i + 1].resp);
  }

  lemma StartIsSafe(cfg: Config)
    ensures ServerInvariant(Started(cfg)) && Fresh(Started(cfg).base) && HandledIn(Started(cfg).log) == []
    ensures !Started(cfg).keepAlive && Started(cfg).base.expired == 0
  {
  }

  // ---------------------------------------------------------------- keep-alive runs

  lemma ErrorPageIsWellFormed(what: string)
    ensures WellFormed(TextResponse(500, what))
  {
    VersionIsGood(500);
    TypedIsWellFormed(500, "text/plain", what);
  }

  // The response is printable whenever the handler's is; an error page always is.
  lemma AnswerIsWellFormed(reply: Reply, keep: bool)
    requires IsReply(reply) && (reply.Replied? ==> WellFormed(reply.resp))
    ensures WellFormed(Answer(reply, keep)) && KindOf(Answer(reply, keep)) == Responses
  {
    if reply.Threw? { ErrorPageIsWellFormed(reply.what); }
    var h := if reply.Replied? then reply.resp.headers else TextResponse(500, reply.what).headers;
    var choice := if keep then "keep-alive" else "close";
    PutOthers(h, choice);
    DefaultsArePrintable("");
    PutKeepsPrintable(h, CONNECTION, choice);
  }

  // One request of a non-pipelining client: what its text parses to, how the network splits
  // that text, and what the handler will answer.
  datatype Exchange = Exchange(req: Message, chunks: seq<string>, reply: Reply)

  // The text is an acceptable message, split in any way into non-empty chunks.
  ghost predicate Sendable(s: State, x: Exchange) {
    && Acceptable(Requests, s.cfg, Cat(x.chunks)) && Parse(Requests, Cat(x.chunks)) == Ok(x.req)
    && NonEmpty(x.chunks) && IsReply(x.reply)
  }

  // The chunks are of the text of a well-formed request within the limits.
  ghost predicate Printed(s: State, r: Message, order: seq<string>, chunks: seq<string>) {
    && r.line.RequestLine? && WellFormed(r) && IsOrder(order, r.headers)
    && |r.body| < SIZE_LIMIT && |r.body| <= s.cfg.maxBody
    && (CONTENT_LENGTH in r.headers ==> ContentLength(r.headers) == Ok(|r.body|))
    && |Serialize(r, order)| - |r.body| <= s.cfg.maxHeader
    && Cat(chunks) == Serialize(r, order) && NonEmpty(chunks)
  }

  // A printed request is sent as it is plus its default headers.
  lemma PrintedIsSendable(s: State, r: Message, order: seq<string>, chunks: seq<string>, reply: Reply)
    requires Printed(s, r, order, chunks) && IsReply(reply)
    ensures Sendable(s, Exchange(WithDefaults(r), chunks, reply))
  {
    PrintedIsWhole(r, order);
    ReadsBack(r, order);
  }

  const DEFAULTS := Config(16 * 1024, 1024 * 1024)
  const HEALTH := Message(RequestLine(GET, "/health", HTTP_VERSION), map[], "")

  // A concrete request that meets the conditions under the default limits.
  lemma HealthIsPrinted()
    ensures Printed(Started(DEFAULTS).base, HEALTH, [], [Serialize(HEALTH, [])])
  {
    var start, close := Start(HEALTH.line), CLOSE_LINE;
    assert HeaderLines(HEALTH.headers, []) == [] && Extras(HEALTH) == [close];
    assert [start] + [] + [close] == [start, close] && [start, close][1..] == [close] && [close][1..] == [];
    assert JoinLines([start, close]) == start + "\r\n" + JoinLines([close]);
    assert |JoinLines([close])| == |close| + 2;
    OnePiece(Serialize(HEALTH, []));
  }

  lemma OnePiece(text: string)
    ensures Cat([text]) == text
  {
    assert [text][1..] == [] && text + "" == text;
  }

  // A concrete over-read: of two requests that arrive in one chunk, not even the first is delivered.
  lemma PipelinedPairIsRejected()
    ensures var s, pair := Started(DEFAULTS).base, Serialize(HEALTH, []) + Serialize(HEALTH, []);
            Enabled(s, Receive(pair)) && OnReceive(s, pair).1 == Failed(InvalidArgument)
  {
    var text := Serialize(HEALTH, []);
    HealthIsPrinted();
    PrintedIsWhole(HEALTH, []);
    PrintedIsSendable(Started(DEFAULTS).base, HEALTH, [], [text], Threw(""));
    OverReadIsRejected(Started(DEFAULTS).base, text, text);
  }

  function ChunkInputs(chunks: seq<string>, reply: Reply): seq<Input> {
    if chunks == [] then [] else [Input(Receive(chunks[0]), reply)] + ChunkInputs(chunks[1..], reply)
  }

  function ExchangeInputs(x: Exchange): seq<Input> {
    ChunkInputs(x.chunks, x.reply) + [Input(WriteDone, x.reply)]
  }

  lemma RunsFirst(p: Peer, first: Input, rest: seq<Input>)
    ensures Run(p, [first] + rest) == Run(ServerStep(p, first), rest)
    ensures Possible(p, [first] + rest) <==> CanTake(p, first) && Possible(ServerStep(p, first), rest)
  {
    Runs.RunFirst(CanTake, ServerStep, p, first, rest);
  }

  lemma RunsAppend(p: Peer, a: seq<Input>, b: seq<Input>)
    requires Possible(p, a) && Possible(Run(p, a), b)
    ensures Possible(p, a + b) && Run(p, a + b) == Run(Run(p, a), b)
  {
    Runs.RunAppend(ServerStep, p, a, b);
    Runs.PossibleAppend(CanTake, ServerStep, p, a, b);
  }

  // Receiving the chunks of one read cycle is feeding them and then running the hook.
  lemma {:induction false} RunFeeds(p: Peer, chunks: seq<string>, reply: Reply)
    requires Legal(p.base, chunks) && IsReply(reply)
    ensures Possible(p, ChunkInputs(chunks, reply))
    ensures var (t, hook) := Feed(p.base, chunks);
            Run(p, ChunkInputs(chunks, reply)) == RunHook(p.(base := t), hook, reply)
    decreases chunks
  {
    if chunks != [] {
      var first := Input(Receive(chunks[0]), reply);
      var q := ServerStep(p, first);
      RunsFirst(p, first, ChunkInputs(chunks[1..], reply));
      if OnReceive(p.base, chunks[0]).1.NoHook? {
        RunFeeds(q, chunks[1..], reply);
      } else {
        assert ChunkInputs(chunks[1..], reply) == [];
      }
    }
  }

  // What one exchange adds to the log, and how it leaves the server.
  function Entries(x: Exchange): seq<Entry> {
    [Handled(x.req, x.reply), WriteStarted(Answer(x.reply, StaysOpen(x)))]
  }

  predicate StaysOpen(x: Exchange) {
    x.reply.Replied? && !AsksToClose(x.req.headers)
  }

  function After(p: Peer, x: Exchange): Peer {
    if StaysOpen(x) then Peer(p.base, true, p.log + Entries(x) + [ReadStarted])
    else Peer(p.base.(open := false, armed := false, pending := Idle), false, p.log + Entries(x))
  }

  // End to end: an acceptable request, in any chunking, reaches the handler exactly once, as
  // its text parses; its answer is written, and the connection is then ready for the next
  // request or closed.
  lemma EndToEnd(p: Peer, x: Exchange)
    requires Fresh(p.base) && p.base.kind == Requests && Sendable(p.base, x)
    ensures Possible(p, ExchangeInputs(x)) && Run(p, ExchangeInputs(x)) == After(p, x)
  {
    FreshSplitIsLegal(p.base, x.chunks);
    EveryChunkingDelivers(p.base, x.chunks, Cat(x.chunks));
    RunFeeds(p, x.chunks, x.reply);
    var handled := Run(p, ChunkInputs(x.chunks, x.reply));
    WriteFinishes(p, handled, x);
    RunsAppend(p, ChunkInputs(x.chunks, x.reply), [Input(WriteDone, x.reply)]);
  }

  lemma WriteFinishes(p: Peer, handled: Peer, x: Exchange)
    requires Fresh(p.base) && IsReply(x.reply)
    requires var idle := p.base.(pending := Idle, armed := false);
             handled == OnMessageParsed(p.(base := idle), x.req, x.reply)
    ensures var done := [Input(WriteDone, x.reply)];
            Possible(handled, done) && Run(handled, done) == After(p, x)
  {
    KeepsAliveIff(x.req.headers);
    RunsFirst(handled, Input(WriteDone, x.reply), []);
    assert [Input(WriteDone, x.reply)] + [] == [Input(WriteDone, x.reply)];
  }

  // For a printed request the handler gets it as sent plus its default headers.
  lemma PrintedEndToEnd(p: Peer, r: Message, order: seq<string>, chunks: seq<string>, reply: Reply)
    requires Fresh(p.base) && p.base.kind == Requests && Printed(p.base, r, order, chunks) && IsReply(reply)
    ensures var x := Exchange(WithDefaults(r), chunks, reply);
            && Possible(p, ExchangeInputs(x)) && Run(p, ExchangeInputs(x)) == After(p, x)
            && Entries(x)[0] == Handled(WithDefaults(r), reply)
  {
    PrintedIsSendable(p.base, r, order, chunks, reply);
    EndToEnd(p, Exchange(WithDefaults(r), chunks, reply));
  }

  // Any request with one header line, written by hand: what it parses to and where its head ends.
  lemma OneHeaderText(line: StartLine, key: string, name: string, value: string)
    requires line.RequestLine? && GoodStart(line)
    requires ':' !in key && '\n' !in key && Normalize(key) == name && IsTrimmed(value) && '\n' !in value
    ensures var text := RequestStart(line) + "\r\n" + (key + ": " + value + "\r\n") + "\r\n";
            && Parse(Requests, text) == Ok(Message(line, map[name := value], ""))
            && Delimiter(text) == |text| - 4 && |text| >= 4
  {
    var start, host := RequestStart(line), HeaderLine(key, value);
    var r := Message(line, map[name := value], "");
    StartIsPlain(r);
    RequestStartParses(line);
    PrintedLineIsPlain(key, value);
    OneHeaderLines(start, host);
    NamedLineSets(map[], key, name, value);
    FoldTwo(map[], host, "");
    ParseOfText(Requests, start, [host], "");
    DelimiterOfLines([start] + [host], "");
  }

  lemma OneHeaderLines(start: string, host: string)
    ensures JoinLines([start] + [host]) + "\r\n" + "" == start + "\r\n" + (host + "\r\n") + "\r\n"
    ensures |JoinLines([start] + [host])| + 2 == |start + "\r\n" + (host + "\r\n") + "\r\n"|
  {
    JoinAppend([start], [host]);
    JoinOne(start);
    JoinOne(host);
    NothingAdded(JoinLines([start] + [host]) + "\r\n", "");
  }

  // A request without a Connection header, as a client other than ours may send it.
  const BARE_LINE := RequestLine(GET, "/health", HTTP_VERSION)
  const BARE := RequestStart(BARE_LINE) + "\r\n" + ("Host" + ": " + "a" + "\r\n") + "\r\n"
  const BARE_REQUEST := Message(BARE_LINE, map["host" := "a"], "")

  lemma BareLineIsGood()
    ensures GoodStart(BARE_LINE) && RequestStart(BARE_LINE) == "GET /health HTTP/1.1"
  {
  }

  lemma HostNormalizes()
    ensures Normalize("Host") == "host"
  {
    TrimOfTrimmed("Host");
    assert ToLower("Host") == "host";
  }

  // The text in full.
  lemma BareIs()
    ensures BARE == "GET /health HTTP/1.1\r\nHost: a\r\n\r\n" && |BARE| == 33
  {
    BareLineIsGood();
  }

  lemma BareParses()
    ensures Parse(Requests, BARE) == Ok(BARE_REQUEST) && Delimiter(BARE) + 4 == |BARE|
  {
    BareLineIsGood();
    HostNormalizes();
    OneHeaderText(BARE_LINE, "Host", "host", "a");
  }

  // It is acceptable under the default limits, and asks for nothing.
  lemma BareIsAcceptable()
    ensures Acceptable(Requests, DEFAULTS, BARE) && !AsksToClose(BARE_REQUEST.headers)
  {
    BareIs();
    BareParses();
    DelimiterFrames(Requests, BARE);
    ContentLengthExact(BARE_REQUEST.headers, 0);
    AcceptableIs(Requests, DEFAULTS, BARE, BARE_REQUEST);
  }

  lemma BareIsSendable(reply: Reply)
    requires IsReply(reply)
    ensures Sendable(Started(DEFAULTS).base, Exchange(BARE_REQUEST, [BARE], reply))
  {
    BareIsAcceptable();
    BareParses();
    OnePiece(BARE);
  }

  // A request that does not ask to close is answered with keep-alive and followed by a new read.
  lemma KeptExchange(p: Peer, req: Message, chunks: seq<string>, resp: Message)
    requires Fresh(p.base) && p.base.kind == Requests && Sendable(p.base, Exchange(req, chunks, Replied(resp)))
    requires !AsksToClose(req.headers)
    ensures var x, kept := Exchange(req, chunks, Replied(resp)), Answer(Replied(resp), true);
            && Possible(p, ExchangeInputs(x)) && Announces(kept, "keep-alive")
            && Run(p, ExchangeInputs(x))
               == Peer(p.base, true, p.log + [Handled(req, x.reply), WriteStarted(kept)] + [ReadStarted])
  {
    EndToEnd(p, Exchange(req, chunks, Replied(resp)));
    PutOthers(resp.headers, "keep-alive");
  }

  lemma FreshStart(cfg: Config)
    ensures Fresh(Started(cfg).base) && Started(cfg).base.kind == Requests && Started(cfg).log == [ReadStarted]
  {
  }

  // A concrete request without the header is kept.
  lemma BareRequestIsKept(resp: Message)
    requires resp.line.StatusLine?
    ensures var p, x := Started(DEFAULTS), Exchange(BARE_REQUEST, [BARE], Replied(resp));
            var kept := Answer(x.reply, true);
            var entries := [Handled(BARE_REQUEST, x.reply), WriteStarted(kept)];
            && Possible(p, ExchangeInputs(x)) && Announces(kept, "keep-alive")
            && Run(p, ExchangeInputs(x)) == Peer(p.base, true, [ReadStarted] + entries + [ReadStarted])
  {
    FreshStart(DEFAULTS);
    BareIsSendable(Replied(resp));
    BareIsAcceptable();
    KeptExchange(Started(DEFAULTS), BARE_REQUEST, [BARE], resp);
  }

  function AllInputs(xs: seq<Exchange>): seq<Input> {
    if xs == [] then [] else ExchangeInputs(xs[0]) + AllInputs(xs[1..])
  }

  function AfterAll(p: Peer, xs: seq<Exchange>): Peer
    decreases xs
  {
    if xs == [] then p else AfterAll(After(p, xs[0]), xs[1..])
  }

  lemma KeptIsFresh(p: Peer, x: Exchange)
    requires Fresh(p.base) && StaysOpen(x)
    ensures After(p, x).base == p.base
  {
  }

  lemma RunsOn(p: Peer, xs: seq<Exchange>)
    requires xs != []
    requires Possible(p, ExchangeInputs(xs[0])) && Run(p, ExchangeInputs(xs[0])) == After(p, xs[0])
    requires var q, more := After(p, xs[0]), AllInputs(xs[1..]);
             Possible(q, more) && Run(q, more) == AfterAll(q, xs[1..])
    ensures Possible(p, AllInputs(xs)) && Run(p, AllInputs(xs)) == AfterAll(p, xs)
  {
    RunsAppend(p, ExchangeInputs(xs[0]), AllInputs(xs[1..]));
  }

  // n successive requests on one connection reach the handler in order, once each.
  lemma {:induction false} KeepAliveRun(p: Peer, xs: seq<Exchange>)
    requires Fresh(p.base) && p.base.kind == Requests
    requires forall i | 0 <= i < |xs| :: Sendable(p.base, xs[i])
    requires forall i | 0 <= i < |xs| - 1 :: StaysOpen(xs[i])
    ensures Possible(p, AllInputs(xs)) && Run(p, AllInputs(xs)) == AfterAll(p, xs)
    decreases xs
  {
    if xs != [] {
      EndToEnd(p, xs[0]);
      if |xs| > 1 {
        KeptIsFresh(p, xs[0]);
        KeepAliveRun(After(p, xs[0]), xs[1..]);
      }
      RunsOn(p, xs);
    }
  }

  function HandledIn(log: seq<Entry>): seq<Message> {
    if log == [] then []
    else (if log[0].Handled? then [log[0].req] else []) + HandledIn(log[1..])
  }

  lemma {:induction false} HandledAppend(a: seq<Entry>, b: seq<Entry>)
    ensures HandledIn(a + b) == HandledIn(a) + HandledIn(b)
    decreases a
  {
    if a == [] {
      assert a + b == b;
    } else {
      assert (a + b)[0] == a[0] && (a + b)[1..] == a[1..] + b;
      HandledAppend(a[1..], b);
    }
  }

  lemma HandledInPair(req: Message, reply: Reply, resp: Message)
    ensures HandledIn([Handled(req, reply), WriteStarted(resp)]) == [req] && HandledIn([ReadStarted]) == []
  {
    var pair := [Handled(req, reply), WriteStarted(resp)];
    assert pair[1..] == [WriteStarted(resp)] && pair[1..][1..] == [];
    assert HandledIn(pair) == [req] + HandledIn(pair[1..]);
  }

  lemma HandledOfEntries(x: Exchange)
    ensures HandledIn(Entries(x)) == [x.req] && HandledIn(Entries(x) + [ReadStarted]) == [x.req]
  {
    HandledInPair(x.req, x.reply, Answer(x.reply, StaysOpen(x)));
    HandledAppend(Entries(x), [ReadStarted]);
  }

  function Sent(xs: seq<Exchange>): seq<Message> {
    seq(|xs|, i requires 0 <= i < |xs| => xs[i].req)
  }

  lemma AfterHandled(p: Peer, x: Exchange)
    ensures HandledIn(After(p, x).log) == HandledIn(p.log) + [x.req]
  {
    HandledOfEntries(x);
    HandledAppend(p.log, Entries(x));
    HandledAppend(p.log, Entries(x) + [ReadStarted]);
    assert p.log + Entries(x) + [ReadStarted] == p.log + (Entries(x) + [ReadStarted]);
  }

  lemma SentCons(xs: seq<Exchange>)
    requires xs != []
    ensures Sent(xs) == [xs[0].req] + Sent(xs[1..])
  {
  }

  lemma AppendCons<T>(a: seq<T>, x: T, b: seq<T>)
    ensures a + ([x] + b) == a + [x] + b
  {
  }

  // The requests the handler has seen are the earlier ones, then these, each with its defaults.
  lemma {:induction false} AfterAllHandled(p: Peer, xs: seq<Exchange>)
    ensures HandledIn(AfterAll(p, xs).log) == HandledIn(p.log) + Sent(xs)
    decreases xs
  {
    if xs == [] {
      assert HandledIn(p.log) + Sent(xs) == HandledIn(p.log);
    } else {
      var q := After(p, xs[0]);
      AfterHandled(p, xs[0]);
      AfterAllHandled(q, xs[1..]);
      SentCons(xs);
      AppendCons(HandledIn(p.log), xs[0].req, Sent(xs[1..]));
    }
  }

  // In terms of the handler alone: it sees each request exactly once, in order, as sent plus
  // its default headers.
  lemma HandlerSeesEachOnce(p: Peer, xs: seq<Exchange>)
    requires Fresh(p.base) && p.base.kind == Requests
    requires forall i | 0 <= i < |xs| :: Sendable(p.base, xs[i])
    requires forall i | 0 <= i < |xs| - 1 :: StaysOpen(xs[i])
    ensures Possible(p, AllInputs(xs))
    ensures HandledIn(Run(p, AllInputs(xs)).log) == HandledIn(p.log) + Sent(xs)
  {
    KeepAliveRun(p, xs);
    AfterAllHandled(p, xs);
  }

  // ---------------------------------------------------------------- the bytes behind a run

  function Bytes(inputs: seq<Input>): string {
    if inputs == [] then ""
    else (if inputs[0].event.Receive? then inputs[0].event.chunk else "") + Bytes(inputs[1..])
  }

  predicate IsSegment(cfg: Config, segment: string, req: Message) {
    Acceptable(Requests, cfg, segment) && Parse(Requests, segment) == Ok(req)
  }

  // The relation between an acceptable message and the request it parses to.
  function Accepting(cfg: Config): (string, Message) -> bool {
    (segment, req) => IsSegment(cfg, segment, req)
  }

  // The bytes received so far: one acceptable message for each request handled, in order and
  // each parsed alone, and then what the current read has taken.
  predicate Segmented(p: Peer, segments: seq<string>, got: string) {
    && p.base.kind == Requests && Accounted(p.base, got)
    && Carry(Accepting(p.base.cfg), segments, HandledIn(p.log))
  }

  lemma AcceptingIsPrefixFree(cfg: Config)
    ensures PrefixFree(Accepting(cfg))
  {
    forall a, x, b, y | IsSegment(cfg, a, x) && IsSegment(cfg, b, y) && a <= b ensures a == b && x == y {
      WholePrefixIsUnique(Requests, a, b);
    }
  }

  lemma DeliverySegments(log: seq<Entry>, carries: (string, Message) -> bool, req: Message, reply: Reply, resp: Message,
                         segments: seq<string>, all: string)
    requires Carry(carries, segments, HandledIn(log)) && carries(all, req)
    ensures Carry(carries, segments + [all], HandledIn(log + [Handled(req, reply), WriteStarted(resp)]))
    ensures Cat(segments + [all]) + "" == Cat(segments) + all
  {
    HandledAppend(log, [Handled(req, reply), WriteStarted(resp)]);
    HandledInPair(req, reply, resp);
    CarrySnoc(carries, segments, HandledIn(log), all, req);
    CatSnoc(segments, all);
  }

  lemma ParsedSegments(p: Peer, t: State, req: Message, reply: Reply, segments: seq<string>, all: string)
    requires p.base.kind == Requests && Carry(Accepting(p.base.cfg), segments, HandledIn(p.log))
    requires t.kind == p.base.kind && t.cfg == p.base.cfg && IsSegment(p.base.cfg, all, req)
    ensures Segmented(OnMessageParsed(p.(base := t), req, reply), segments + [all], "")
    ensures Cat(segments + [all]) + "" == Cat(segments) + all
  {
    var resp := Answer(reply, Keeps(req, reply));
    DeliverySegments(p.log, Accepting(p.base.cfg), req, reply, resp, segments, all);
  }

  lemma UnparsedSegments(p: Peer, t: State, hook: Hook, reply: Reply, segments: seq<string>, all: string)
    requires p.base.kind == Requests && Carry(Accepting(p.base.cfg), segments, HandledIn(p.log))
    requires t.kind == p.base.kind && t.cfg == p.base.cfg
    requires (hook.NoHook? && Accounted(t, all)) || (hook.Failed? && t.pending.Idle?)
    ensures Segmented(RunHook(p.(base := t), hook, reply), segments, all)
  {
  }

  lemma ReceiveSegments(p: Peer, chunk: string, reply: Reply, segments: seq<string>, got: string)
    returns (more: seq<string>, left: string)
    requires ServerInvariant(p) && Enabled(p.base, Receive(chunk)) && Segmented(p, segments, got)
    ensures Segmented(ServerStep(p, Input(Receive(chunk), reply)), more, left)
    ensures Cat(more) + left == Cat(segments) + (got + chunk)
  {
    ReceiveAccounted(p.base, got, chunk);
    ReceiveFrame(p.base, chunk);
    var (t, hook) := OnReceive(p.base, chunk);
    if hook.Parsed? {
      ParsedSegments(p, t, hook.msg, reply, segments, got + chunk);
      return segments + [got + chunk], "";
    }
    UnparsedSegments(p, t, hook, reply, segments, got + chunk);
    return segments, got + chunk;
  }

  // Writes, failures and timers take no bytes.
  lemma OtherAccounted(p: Peer, input: Input, got: string)
    requires SizesFit(p.base) && Enabled(p.base, input.event) && !input.event.Receive? && Accounted(p.base, got)
    ensures var q := ServerStep(p, input);
            && Accounted(q.base, got) && q.base.kind == p.base.kind && q.base.cfg == p.base.cfg
            && (q.log == p.log || q.log == p.log + [ReadStarted])
  {
  }

  lemma OtherSegments(p: Peer, input: Input, segments: seq<string>, got: string)
    requires SizesFit(p.base) && Enabled(p.base, input.event) && !input.event.Receive?
    requires Segmented(p, segments, got)
    ensures Segmented(ServerStep(p, input), segments, got)
  {
    OtherAccounted(p, input, got);
    HandledAppend(p.log, [ReadStarted]);
    assert [ReadStarted][1..] == [] && HandledIn([ReadStarted]) == [];
    assert HandledIn(p.log) + [] == HandledIn(p.log);
  }

  lemma {:induction false} RunSegments(p: Peer, inputs: seq<Input>, segments: seq<string>, got: string)
    returns (more: seq<string>, left: string)
    requires ServerInvariant(p) && Possible(p, inputs) && Segmented(p, segments, got)
    ensures Segmented(Run(p, inputs), more, left) && Run(p, inputs).base.cfg == p.base.cfg
    ensures Cat(more) + left == Cat(segments) + (got + Bytes(inputs))
    decreases inputs
  {
    if inputs == [] {
      assert got + Bytes(inputs) == got;
      return segments, got;
    }
    var e, rest, q := inputs[0].event, inputs[1..], ServerStep(p, inputs[0]);
    ServerStepKeeps(p, inputs[0]);
    more, left := segments, got;
    if e.Receive? {
      more, left := ReceiveSegments(p, e.chunk, inputs[0].reply, segments, got);
      Assoc(Cat(segments), got, e.chunk);
      Regrouped(more, left, Cat(segments), got, e.chunk, Bytes(rest));
    } else {
      OtherSegments(p, inputs[0], segments, got);
      assert Bytes(inputs) == Bytes(rest);
    }
    more, left := RunSegments(q, rest, more, left);
  }

  lemma Regrouped(more: seq<string>, left: string, done: string, got: string, chunk: string, rest: string)
    requires Cat(more) + left == done + (got + chunk)
    ensures Cat(more) + (left + rest) == done + (got + (chunk + rest))
  {
    Assoc(Cat(more), left, rest);
    Assoc(done, got + chunk, rest);
    Assoc(got, chunk, rest);
  }

  lemma FreshSegments(cfg: Config, inputs: seq<Input>) returns (segments: seq<string>, left: string)
    requires Possible(Started(cfg), inputs)
    ensures Segmented(Run(Started(cfg), inputs), segments, left) && Run(Started(cfg), inputs).base.cfg == cfg
    ensures Cat(segments) + left == Bytes(inputs)
  {
    StartIsSafe(cfg);
    segments, left := RunSegments(Started(cfg), inputs, [], "");
    assert "" + ("" + Bytes(inputs)) == Bytes(inputs);
  }

  // Over every run, whatever timers, failures and the handler do: the bytes received are the
  // requests handled, one acceptable message each, in order, and an unfinished rest.
  lemma RequestsAreTheStream(cfg: Config, inputs: seq<Input>)
    requires Possible(Started(cfg), inputs)
    ensures exists segments, left ::
              Cat(segments) + left == Bytes(inputs) && Segmented(Run(Started(cfg), inputs), segments, left)
  {
    var segments, left := FreshSegments(cfg, inputs);
  }

  // Chunking independence of whole connections: two servers that receive the same stream, as
  // far as they receive it, hand the same requests to their handlers, however the network,
  // the timers, the handlers' answers and the failures of the two runs differ.
  lemma SameStreamSameRequests(cfg: Config, left: seq<Input>, right: seq<Input>, stream: string, k: nat)
    requires Possible(Started(cfg), left) && Possible(Started(cfg), right)
    requires Bytes(left) <= stream && Bytes(right) <= stream
    requires k < |HandledIn(Run(Started(cfg), left).log)| && k < |HandledIn(Run(Started(cfg), right).log)|
    ensures HandledIn(Run(Started(cfg), left).log)[k] == HandledIn(Run(Started(cfg), right).log)[k]
  {
    var a, x := FreshSegments(cfg, left);
    var b, y := FreshSegments(cfg, right);
    var one, other := HandledIn(Run(Started(cfg), left).log), HandledIn(Run(Started(cfg), right).log);
    AcceptingIsPrefixFree(cfg);
    SegmentsAgree(Accepting(cfg), stream, k, a, one, x, b, other, y);
  }

  // ---------------------------------------------------------------- the session object

  method Announced(resp: Message, keep: bool) returns (announced: Message)
    ensures announced == resp.(headers := Put(resp.headers, "Connection", if keep then "keep-alive" else "close"))
  {
    var table := new HeaderTable();
    table.entries := resp.headers;
    table.Set("Connection", if keep then "keep-alive" else "close");
    return resp.(headers := table.entries);
  }

  class ServerSession {
    const connection: Connection
    var keepAlive: bool
    var wire: string
    ghost var log: seq<Entry>

    ghost function Now(): Peer
      reads this, connection
    {
      Peer(connection.Now(), keepAlive, log)
    }

    constructor (cfg: Config)
      ensures fresh(connection) && Now() == Started(cfg)
    {
      connection := new Connection(Requests, cfg);
      keepAlive, wire, log := false, "", [ReadStarted];
      new;
      connection.Read();
    }

    method MessageParsed(req: Message, reply: Reply)
      requires IsReply(reply)
      modifies this, connection
      ensures Now() == OnMessageParsed(old(Now()), req, reply)
      ensures exists order :: IsOrder(order, Answer(reply, keepAlive).headers) &&
                              wire == Serialize(Answer(reply, keepAlive), order)
    {
      keepAlive := KeepsAlive(req.headers);
      var resp: Message;
      match reply {
        case Replied(r) =>
          resp := r;
        case Threw(what) =>
          resp := TextResponse(500, what);
          keepAlive := false;
      }
      resp := Announced(resp, keepAlive);
      var order := WalkOrder(resp.headers);
      wire := PrintResponse(resp, order);
      connection.Write(resp);
      log := log + [Handled(req, reply), WriteStarted(resp)];
    }

    method WriteComplete()
      modifies this, connection
      ensures Now() == OnWriteComplete(old(Now()))
    {
      if keepAlive {
        connection.Read();
        log := log + [ReadStarted];
      } else {
        connection.Close();
      }
    }

    method Handle(e: Event, reply: Reply)
      requires Enabled(connection.Now(), e) && IsReply(reply)
      modifies this, connection
      ensures Now() == ServerStep(old(Now()), Input(e, reply))
    {
      var hook := connection.Completed(e);
      match hook {
        case NoHook =>
        case Parsed(req) => MessageParsed(req, reply);
        case Written => WriteComplete();
        case Failed(_) => connection.Close();
      }
    }
  }
}
