// The client side of a session: one callback slot, filled by a request and emptied by
// whichever of response, failure or timeout comes first.

module Client {
  import opened Segments
  import opened Strings
  import opened Streams
  import opened Headers
  import opened Walks
  import opened Codec
  import opened RoundTrip
  import opened Framing
  import opened Session
  import opened Chunking
  import opened Server
  import Runs

  datatype Outcome = Delivered(resp: Message) | FailedWith(error: IoError)

  // A callback call: which request it belongs to and what it was told.
  datatype Call = Call(id: nat, outcome: Outcome)

  // slot: the stored callback; outstanding: an accepted request is not answered yet (its
  // callback may be null); asked and calls: every non-null callback passed in, every call made.
  datatype Caller = Caller(base: State, host: string, keepAlive: bool, slot: Option<nat>,
                           outstanding: bool, asked: seq<nat>, calls: seq<Call>)

  // A request issued by the user, also from inside a callback, or a completion.
  datatype Action = Request(req: Message, callback: Option<nat>) | Io(event: Event)

  function Ids(callback: Option<nat>): seq<nat> {
    if callback.Some? then [callback.value] else []
  }

  function CallOf(callback: Option<nat>, outcome: Outcome): seq<Call> {
    if callback.Some? then [Call(callback.value, outcome)] else []
  }

  // The names are looked up as stored, not normalised.
  function WithClientDefaults(h: HeaderMap, host: string): HeaderMap {
    var a := if "host" in h || "Host" in h then h else Put(h, "Host", host);
    if "connection" in a || "Connection" in a then a else Put(a, "Connection", "keep-alive")
  }

  function AsyncRequest(c: Caller, req: Message, callback: Option<nat>): Caller {
    var told := c.(asked := c.asked + Ids(callback));
    if !c.base.open then told.(calls := c.calls + CallOf(callback, FailedWith(NotConnected)))
    else
      var full := req.(headers := WithClientDefaults(req.headers, c.host));
      told.(slot := callback, outstanding := true, base := DoWrite(c.base, full))
  }

  function OnResponse(c: Caller, resp: Message): Caller {
    c.(keepAlive := KeepsAlive(resp.headers), slot := None, outstanding := false,
       calls := c.calls + CallOf(c.slot, Delivered(resp)))
  }

  function OnError(c: Caller, error: IoError): Caller {
    c.(slot := None, outstanding := false, base := Shutdown(c.base),
       calls := c.calls + CallOf(c.slot, FailedWith(error)))
  }

  function ClientHook(c: Caller, hook: Hook): Caller {
    match hook
    case NoHook => c
    case Parsed(resp) => OnResponse(c, resp)
    case Written => c.(base := DoRead(c.base))
    case Failed(error) => OnError(c, error)
  }

  // The user waits for an open session's answer before asking again; a completion must be
  // possible.
  predicate Allowed(c: Caller, a: Action) {
    match a
    case Request(req, _) => req.line.RequestLine? && (c.base.open ==> !c.outstanding)
    case Io(event) => Enabled(c.base, event)
  }

  function ClientStep(c: Caller, a: Action): Caller {
    if !Allowed(c, a) then c
    else
      match a
      case Request(req, callback) => AsyncRequest(c, req, callback)
      case Io(event) =>
        var (base, hook) := Step(c.base, event);
        ClientHook(c.(base := base), hook)
  }

  function Connected(cfg: Config, host: string): Caller {
    Caller(State(Responses, cfg, true, "", Idle, false, 0), host, false, None, false, [], [])
  }

  predicate Feasible(c: Caller, actions: seq<Action>) {
    Runs.Possible(Allowed, ClientStep, c, actions)
  }

  function Execute(c: Caller, actions: seq<Action>): Caller {
    Runs.Run(ClientStep, c, actions)
  }

  lemma ExecuteFirst(c: Caller, first: Action, rest: seq<Action>)
    ensures Execute(c, [first] + rest) == Execute(ClientStep(c, first), rest)
    ensures Feasible(c, [first] + rest) <==> Allowed(c, first) && Feasible(ClientStep(c, first), rest)
  {
    Runs.RunFirst(Allowed, ClientStep, c, first, rest);
  }

  // ---------------------------------------------------------------- every run

  function CalledIds(calls: seq<Call>): seq<nat> {
    seq(|calls|, i requires 0 <= i < |calls| => calls[i].id)
  }

  // Conservation: the calls made, then the stored callback, are the callbacks passed in, in
  // order; none is lost, repeated or reordered.
  predicate Balanced(c: Caller) {
    CalledIds(c.calls) + Ids(c.slot) == c.asked
  }

  // A closed session stores no callback; an open one has exactly one operation in flight
  // when, and only when, a request is outstanding.
  predicate SlotFits(c: Caller) {
    && (c.slot.Some? ==> c.outstanding)
    && (c.outstanding ==> c.base.open)
    && (c.base.open ==> (c.outstanding <==> !c.base.pending.Idle?))
  }

  predicate OnlyWholeAnswers(c: Caller) {
    forall i | 0 <= i < |c.calls| && c.calls[i].outcome.Delivered? :: Deliverable(c.base.cfg, c.calls[i].outcome.resp)
  }

  predicate ClientInvariant(c: Caller) {
    SizesFit(c.base) && TimersFit(c.base) && SlotFits(c) && Balanced(c) && OnlyWholeAnswers(c)
  }

  lemma CallSettlesSlot(calls: seq<Call>, slot: Option<nat>, outcome: Outcome)
    ensures CalledIds(calls + CallOf(slot, outcome)) == CalledIds(calls) + Ids(slot)
  {
  }

  lemma RequestKeeps(c: Caller, req: Message, callback: Option<nat>)
    requires ClientInvariant(c) && Allowed(c, Request(req, callback))
    ensures ClientInvariant(AsyncRequest(c, req, callback))
  {
    CallSettlesSlot(c.calls, callback, FailedWith(NotConnected));
    assert c.slot == None;
  }

  lemma HookKeeps(c: Caller, t: State, hook: Hook)
    requires ClientInvariant(c) && Kept(c.base, t, hook)
    requires !hook.Failed? ==> t.open == c.base.open
    ensures ClientInvariant(ClientHook(c.(base := t), hook))
  {
    match hook
    case NoHook =>
    case Parsed(resp) => CallSettlesSlot(c.calls, c.slot, Delivered(resp));
    case Written =>
    case Failed(error) => CallSettlesSlot(c.calls, c.slot, FailedWith(error));
  }

  lemma OnlyTimersClose(s: State, e: Event)
    requires Enabled(s, e) && !Step(s, e).1.Failed?
    ensures Step(s, e).0.open == s.open
  {
    if e.Receive? { ReceiveFrame(s, e.chunk); }
  }

  lemma ClientStepKeeps(c: Caller, a: Action)
    requires ClientInvariant(c) && Allowed(c, a)
    ensures ClientInvariant(ClientStep(c, a))
  {
    match a
    case Request(req, callback) => RequestKeeps(c, req, callback);
    case Io(event) =>
      StepKeeps(c.base, event);
      if !Step(c.base, event).1.Failed? { OnlyTimersClose(c.base, event); }
      HookKeeps(c, Step(c.base, event).0, Step(c.base, event).1);
  }

  // Main result: over every interleaving of requests, write, read and timer completions
  // (stale timers included), callbacks and calls stay in balance.
  lemma {:induction false} EveryRunBalances(c: Caller, actions: seq<Action>)
    requires ClientInvariant(c) && Feasible(c, actions)
    ensures ClientInvariant(Execute(c, actions))
    decreases actions
  {
    if actions != [] {
      ClientStepKeeps(c, actions[0]);
      EveryRunBalances(ClientStep(c, actions[0]), actions[1..]);
    }
  }

  lemma ConnectedFits(cfg: Config, host: string)
    ensures ClientInvariant(Connected(cfg, host)) && Ready(Connected(cfg, host))
    ensures !Connected(cfg, host).keepAlive && Connected(cfg, host).base.expired == 0
  {
  }

  // Exactly once when nothing is in flight, or once closed: every callback passed in has
  // been called, in the order of the requests.
  lemma QuietMeansAllCalled(c: Caller, actions: seq<Action>)
    requires ClientInvariant(c) && Feasible(c, actions)
    ensures var d := Execute(c, actions);
            d.base.pending.Idle? || !d.base.open ==> CalledIds(d.calls) == d.asked
  {
    EveryRunBalances(c, actions);
  }

  // At most once at any moment, for callbacks that are told apart.
  lemma NeverCalledTwice(c: Caller, actions: seq<Action>)
    requires ClientInvariant(c) && Feasible(c, actions)
    ensures var d := Execute(c, actions);
            (forall i, j | 0 <= i < j < |d.asked| :: d.asked[i] != d.asked[j]) ==>
            (forall i, j | 0 <= i < j < |d.calls| :: d.calls[i].id != d.calls[j].id)
  {
    EveryRunBalances(c, actions);
    var d := Execute(c, actions);
    var ids := CalledIds(d.calls);
    assert forall i | 0 <= i < |d.calls| :: d.asked[i] == (ids + Ids(d.slot))[i] == ids[i] == d.calls[i].id;
  }

  // ---------------------------------------------------------------- what each callback hears

  // While a callback is stored, a step that ends the read with a message tells it that very
  // message, and notes whether the response asks to close.
  lemma ResponseIsHeard(c: Caller, e: Event, id: nat, resp: Message)
    requires Enabled(c.base, e) && c.slot == Some(id) && Step(c.base, e).1 == Parsed(resp)
    ensures var d := ClientStep(c, Io(e));
            d == c.(base := Step(c.base, e).0, slot := None, outstanding := false,
                    keepAlive := !AsksToClose(resp.headers), calls := c.calls + [Call(id, Delivered(resp))])
  {
    KeepsAliveIff(resp.headers);
  }

  // A step that fails tells it that very error, and closes the session.
  lemma FailureIsHeard(c: Caller, e: Event, id: nat, error: IoError)
    requires Enabled(c.base, e) && c.slot == Some(id) && Step(c.base, e).1 == Failed(error)
    ensures var d := ClientStep(c, Io(e));
            && d == c.(base := d.base, slot := None, outstanding := false,
                       calls := c.calls + [Call(id, FailedWith(error))])
            && !d.base.open && !d.base.armed
  {
  }

  // A request on a closed session is answered at once, and nothing else changes.
  lemma ClosedIsHeard(c: Caller, req: Message, id: nat)
    requires !c.base.open && req.line.RequestLine?
    ensures ClientStep(c, Request(req, Some(id)))
         == c.(asked := c.asked + [id], calls := c.calls + [Call(id, FailedWith(NotConnected))])
  {
  }

  // The calls one action is to cause: the message or the error its completion ends in, for
  // the stored callback, or "not connected" for a request on a closed session.
  function Caused(c: Caller, a: Action): seq<Call>
    requires Allowed(c, a)
  {
    match a
    case Request(_, callback) =>
      if !c.base.open && callback.Some? then [Call(callback.value, FailedWith(NotConnected))] else []
    case Io(event) =>
      if c.slot.None? then []
      else
        match Step(c.base, event).1
        case Parsed(resp) => [Call(c.slot.value, Delivered(resp))]
        case Failed(error) => [Call(c.slot.value, FailedWith(error))]
        case _ => []
  }

  function AllCaused(c: Caller, actions: seq<Action>): seq<Call>
    requires Feasible(c, actions)
    decreases actions
  {
    if actions == [] then [] else Caused(c, actions[0]) + AllCaused(ClientStep(c, actions[0]), actions[1..])
  }

  lemma StepCalls(c: Caller, a: Action)
    requires Allowed(c, a)
    ensures ClientStep(c, a).calls == c.calls + Caused(c, a)
  {
    assert c.calls + [] == c.calls;
    if a.Io? && c.slot.Some? {
      match Step(c.base, a.event).1
      case Parsed(resp) => ResponseIsHeard(c, a.event, c.slot.value, resp);
      case Failed(error) => FailureIsHeard(c, a.event, c.slot.value, error);
      case _ =>
    }
  }

  // Over every run the callbacks hear exactly what their own completions ended in, in order.
  lemma {:induction false} EveryCallIsCaused(c: Caller, actions: seq<Action>)
    requires Feasible(c, actions)
    ensures Execute(c, actions).calls == c.calls + AllCaused(c, actions)
    decreases actions
  {
    if actions == [] {
      assert c.calls + AllCaused(c, actions) == c.calls;
    } else {
      var d := ClientStep(c, actions[0]);
      StepCalls(c, actions[0]);
      EveryCallIsCaused(d, actions[1..]);
      assert c.calls + Caused(c, actions[0]) + AllCaused(d, actions[1..]) == c.calls + AllCaused(c, actions);
    }
  }

  // A broken socket is heard as such.
  lemma BrokenIsHeard(c: Caller, id: nat)
    requires ClientInvariant(c) && c.slot == Some(id)
    ensures var d := Execute(c, [Io(IoFail(Broken))]);
            Feasible(c, [Io(IoFail(Broken))]) && d.calls == c.calls + [Call(id, FailedWith(Broken))] && !d.base.open
  {
    ExecuteFirst(c, Io(IoFail(Broken)), []);
    assert [Io(IoFail(Broken))] + [] == [Io(IoFail(Broken))];
    FailureIsHeard(c, IoFail(Broken), id, Broken);
  }

  // A stored callback is never stranded: its operation is in flight and timed, and if nothing
  // else happens the timer alone answers it.
  lemma TimeoutAnswers(c: Caller)
    requires ClientInvariant(c) && c.slot.Some?
    ensures !c.base.pending.Idle? && (c.base.armed || c.base.expired > 0)
    ensures var wait := if c.base.expired > 0 then [] else [Io(TimerExpires)];
            var d := Execute(c, wait + [Io(TimerFires)]);
            && Feasible(c, wait + [Io(TimerFires)]) && !d.base.open && d.slot == None
            && d.calls == c.calls + [Call(c.slot.value, FailedWith(TimedOut))]
  {
    if c.base.expired > 0 {
      ExecuteFirst(c, Io(TimerFires), []);
      assert [] + [Io(TimerFires)] == [Io(TimerFires)] + [];
    } else {
      ExecuteFirst(c, Io(TimerExpires), [Io(TimerFires)]);
      ExecuteFirst(ClientStep(c, Io(TimerExpires)), Io(TimerFires), []);
      assert [Io(TimerFires)] + [] == [Io(TimerFires)];
    }
  }

  // ---------------------------------------------------------------- a whole exchange

  function ReceiveAll(chunks: seq<string>): seq<Action> {
    if chunks == [] then [] else [Io(Receive(chunks[0]))] + ReceiveAll(chunks[1..])
  }

  lemma {:induction false} ExecuteFeeds(c: Caller, chunks: seq<string>)
    requires Legal(c.base, chunks)
    ensures Feasible(c, ReceiveAll(chunks))
    ensures var (t, hook) := Feed(c.base, chunks);
            Execute(c, ReceiveAll(chunks)) == ClientHook(c.(base := t), hook)
    decreases chunks
  {
    if chunks != [] {
      var first := Io(Receive(chunks[0]));
      ExecuteFirst(c, first, ReceiveAll(chunks[1..]));
      if OnReceive(c.base, chunks[0]).1.NoHook? {
        ExecuteFeeds(ClientStep(c, first), chunks[1..]);
      } else {
        assert ReceiveAll(chunks[1..]) == [];
      }
    }
  }

  // A response that cannot be accepted, in any chunking, is heard as the error its bytes call
  // for: a message size error exactly when they break a limit, else an invalid argument.
  lemma RefusalIsHeard(c: Caller, id: nat, chunks: seq<string>)
    requires Fresh(c.base) && c.slot == Some(id) && Legal(c.base, chunks) && Feed(c.base, chunks).1.Failed?
    ensures Feasible(c, ReceiveAll(chunks))
    ensures var error := if TooLarge(c.base.kind, c.base.cfg, Cat(chunks)) then MessageSize else InvalidArgument;
            var d := Execute(c, ReceiveAll(chunks));
            d.calls == c.calls + [Call(id, FailedWith(error))] && d.slot == None && !d.base.open
  {
    FreshFailure(c.base, chunks);
    FailedFeedIsHeard(c, id, chunks, Feed(c.base, chunks).1.error);
  }

  lemma FailedFeedIsHeard(c: Caller, id: nat, chunks: seq<string>, error: IoError)
    requires c.slot == Some(id) && Legal(c.base, chunks) && Feed(c.base, chunks).1 == Failed(error)
    ensures Feasible(c, ReceiveAll(chunks))
    ensures var d := Execute(c, ReceiveAll(chunks));
            d.calls == c.calls + [Call(id, FailedWith(error))] && d.slot == None && !d.base.open
  {
    ExecuteFeeds(c, chunks);
  }

  // In particular a Content-Length above the limit is heard as a message size error as soon
  // as the head is complete.
  lemma OversizedBodyIsHeard(c: Caller, id: nat, head: string, n: nat)
    requires Fresh(c.base) && c.slot == Some(id) && |head| <= c.base.cfg.Capacity()
    requires Delimiter(head) < |head| && Delimiter(head) + 4 <= c.base.cfg.maxHeader
    requires Parse(c.base.kind, head).Ok? && ContentLength(Parse(c.base.kind, head).value.headers) == Ok(n)
    requires n > c.base.cfg.maxBody
    ensures Enabled(c.base, Receive(head))
    ensures ClientStep(c, Io(Receive(head))).calls == c.calls + [Call(id, FailedWith(MessageSize))]
  {
    NothingAdded(head, c.base.buffer);
    TooLongToRead(c.base, head, Parse(c.base.kind, head).value, n);
    FailureIsHeard(c, Receive(head), id, MessageSize);
  }

  lemma TooLongToRead(s: State, b: string, m: Message, n: nat)
    requires s.pending.ReadingHead? && Delimiter(b) < |b| && Delimiter(b) + 4 <= s.cfg.maxHeader
    requires Parse(s.kind, b) == Ok(m) && ContentLength(m.headers) == Ok(n) && n > s.cfg.maxBody
    ensures ReadUntil(s.(buffer := b)).1 == Failed(MessageSize)
  {
  }

  // A response within the limits, split in any way into non-empty chunks.
  ghost predicate Receivable(s: State, resp: Message, order: seq<string>, chunks: seq<string>) {
    && resp.line.StatusLine? && WellFormed(resp) && IsOrder(order, resp.headers)
    && |resp.body| < SIZE_LIMIT && |resp.body| <= s.cfg.maxBody
    && |Serialize(resp, order)| - |resp.body| <= s.cfg.maxHeader
    && Cat(chunks) == Serialize(resp, order) && NonEmpty(chunks)
  }

  lemma ReceivableIsAcceptable(s: State, resp: Message, order: seq<string>, chunks: seq<string>)
    requires s.kind == Responses && Receivable(s, resp, order, chunks)
    ensures Acceptable(s.kind, s.cfg, Cat(chunks)) && Parse(s.kind, Cat(chunks)) == Ok(WithDefaults(resp))
    ensures NonEmpty(chunks)
  {
    PrintedIsWhole(resp, order);
    ReadsBack(resp, order);
  }

  // End to end: whatever response is printed, under any chunking the stored callback is
  // called once with that response as its printer's defaults make it read.
  lemma ResponseArrives(c: Caller, resp: Message, order: seq<string>, chunks: seq<string>)
    requires Fresh(c.base) && c.base.kind == Responses && Receivable(c.base, resp, order, chunks)
    ensures Feasible(c, ReceiveAll(chunks))
    ensures Execute(c, ReceiveAll(chunks))
         == c.(base := c.base.(pending := Idle, armed := false), slot := None, outstanding := false,
               keepAlive := !AsksToClose(WithDefaults(resp).headers),
               calls := c.calls + if c.slot.Some? then [Call(c.slot.value, Delivered(WithDefaults(resp)))] else [])
  {
    ReceivableIsAcceptable(c.base, resp, order, chunks);
    FreshSplitIsLegal(c.base, chunks);
    EveryChunkingDelivers(c.base, chunks, Cat(chunks));
    ExecuteFeeds(c, chunks);
    KeepsAliveIff(WithDefaults(resp).headers);
  }

  // Every response of this server reads, for its client, as "connection: close", although the
  // server announces close if and only if it means to.
  lemma ServerAlwaysReadsAsClosing(reply: Reply, keep: bool, order: seq<string>)
    requires IsReply(reply) && (reply.Replied? ==> WellFormed(reply.resp))
    requires IsOrder(order, Answer(reply, keep).headers)
    ensures var read := Parse(Responses, Serialize(Answer(reply, keep), order));
            read.Ok? && AsksToClose(read.value.headers)
    ensures Announces(Answer(reply, keep), "close") <==> !keep
  {
    AnswerIsWellFormed(reply, keep);
    ReadsBack(Answer(reply, keep), order);
    NamesNormalize();
  }

  // ---------------------------------------------------------------- default headers

  // Both headers are there afterwards, nothing that was there changes, and nothing else is added.
  lemma DefaultsFillIn(h: HeaderMap, host: string)
    ensures var full := WithClientDefaults(h, host);
            && ("host" in full || "Host" in full) && ("connection" in full || "Connection" in full)
            && full == map["host" := host, CONNECTION := "keep-alive"] - Spoken(h) + h
  {
    HostNormalizes();
    NamesNormalize();
  }

  // The defaults a request speaks for itself about.
  function Spoken(h: HeaderMap): set<string> {
    (if "host" in h || "Host" in h then {"host"} else {}) +
    (if "connection" in h || "Connection" in h then {CONNECTION} else {})
  }

  lemma HostIsPrintable()
    ensures PrintableKey("host")
  {
    HostNormalizes();
    NormalizeIdempotent("Host");
  }

  lemma MixedCaseIsNotStored()
    ensures !PrintableKey("Host") && !PrintableKey("Connection")
  {
    HostNormalizes();
    NamesNormalize();
  }

  lemma DefaultNames(host: string)
    requires PrintableValue(host)
    ensures PrintableKey("host") && PrintableKey(CONNECTION) && PrintableValue("keep-alive")
  {
    HostIsPrintable();
    DefaultsArePrintable("");
  }

  lemma PutStaysPrintable(h: HeaderMap, name: string, key: string, value: string)
    requires Printable(h) && Normalize(name) == key && PrintableKey(key) && PrintableValue(value)
    ensures Printable(Put(h, name, value)) && key in Put(h, name, value)
  {
    PutKeepsPrintable(h, key, value);
  }

  lemma HostDefault(h: HeaderMap, host: string)
    requires Printable(h) && PrintableValue(host)
    ensures var a := if "host" in h || "Host" in h then h else Put(h, "Host", host);
            Printable(a) && "host" in a
  {
    HostNormalizes();
    MixedCaseIsNotStored();
    DefaultNames(host);
    PutStaysPrintable(h, "Host", "host", host);
  }

  lemma ConnectionDefault(h: HeaderMap, host: string)
    requires Printable(h) && PrintableValue(host)
    ensures var a := if "connection" in h || "Connection" in h then h else Put(h, "Connection", "keep-alive");
            Printable(a) && CONNECTION in a && ("host" in h ==> "host" in a)
  {
    NamesNormalize();
    MixedCaseIsNotStored();
    DefaultNames(host);
    PutStaysPrintable(h, "Connection", CONNECTION, "keep-alive");
  }

  // A printable request stays printable, and then its server finds both headers.
  lemma DefaultsStayPrintable(h: HeaderMap, host: string)
    requires Printable(h) && PrintableValue(host)
    ensures var full := WithClientDefaults(h, host);
            Printable(full) && Lookup(full, "Host").Some? && Lookup(full, "Connection").Some?
  {
    HostDefault(h, host);
    ConnectionDefault(if "host" in h || "Host" in h then h else Put(h, "Host", host), host);
    HostNormalizes();
    NamesNormalize();
  }

  // ---------------------------------------------------------------- client and server together

  // One request of the client and its way to the handler and back: the handler's reply, the
  // orders in which the two header maps are walked, and how the network splits the two texts.
  datatype Talk = Talk(req: Message, id: nat, reply: Reply, order: seq<string>, chunks: seq<string>,
                       back: seq<string>, answer: seq<string>)
  {
    // What the client writes, what the handler gets of it, and what the server writes back.
    function Asked(host: string): Message {
      req.(headers := WithClientDefaults(req.headers, host))
    }

    function Exchanged(host: string): Exchange {
      Exchange(WithDefaults(Asked(host)), chunks, reply)
    }

    function Response(host: string): Message {
      Answer(reply, StaysOpen(Exchanged(host)))
    }

    function Heard(host: string): Call {
      Call(id, Delivered(WithDefaults(Response(host))))
    }

    function Actions(): seq<Action> {
      [Request(req, Some(id)), Io(WriteDone)] + ReceiveAll(answer)
    }
  }

  // The chunks are of the very texts the two sides print, which are within the two limits.
  ghost predicate CanTalk(host: string, client: State, server: State, k: Talk) {
    && Printed(server, k.Asked(host), k.order, k.chunks) && IsReply(k.reply)
    && Receivable(client, k.Response(host), k.back, k.answer)
  }

  predicate Ready(c: Caller) {
    && c.base.open && c.base.buffer == "" && c.base.pending.Idle? && !c.base.armed && c.base.kind == Responses
    && !c.outstanding && c.slot == None
  }

  // The client once the request is written and the answer is awaited.
  function Waiting(c: Caller, id: nat): Caller {
    c.(base := DoRead(c.base), slot := Some(id), outstanding := true, asked := c.asked + [id])
  }

  lemma AskAndWait(c: Caller, k: Talk, rest: seq<Action>)
    requires Ready(c) && k.req.line.RequestLine?
    ensures var asking := [Request(k.req, Some(k.id)), Io(WriteDone)];
            && Execute(c, asking + rest) == Execute(Waiting(c, k.id), rest)
            && (Feasible(c, asking + rest) <==> Feasible(Waiting(c, k.id), rest))
  {
    var request := Request(k.req, Some(k.id));
    var asked := ClientStep(c, request);
    assert ClientStep(asked, Io(WriteDone)) == Waiting(c, k.id);
    ExecuteFirst(c, request, [Io(WriteDone)] + rest);
    ExecuteFirst(asked, Io(WriteDone), rest);
    assert [request, Io(WriteDone)] + rest == [request] + ([Io(WriteDone)] + rest);
  }

  lemma ClosingAnswer(resp: Message)
    requires resp.line.StatusLine?
    ensures AsksToClose(WithDefaults(resp).headers)
  {
  }

  // The text a request writes, in any chunking, is handled once, and the text of its answer,
  // in any chunking, reaches the callback of that request, once.
  lemma TalkIsAnswered(c: Caller, server: State, k: Talk)
    requires Ready(c) && CanTalk(c.host, c.base, server, k)
    ensures Feasible(c, k.Actions())
    ensures Execute(c, k.Actions())
         == c.(keepAlive := false, asked := c.asked + [k.id], calls := c.calls + [k.Heard(c.host)])
  {
    AskAndWait(c, k, ReceiveAll(k.answer));
    ResponseArrives(Waiting(c, k.id), k.Response(c.host), k.back, k.answer);
    ClosingAnswer(k.Response(c.host));
  }

  function AllActions(ks: seq<Talk>): seq<Action> {
    if ks == [] then [] else ks[0].Actions() + AllActions(ks[1..])
  }

  function AllHeard(ks: seq<Talk>, host: string): seq<Call> {
    if ks == [] then [] else [ks[0].Heard(host)] + AllHeard(ks[1..], host)
  }

  function AllExchanged(ks: seq<Talk>, host: string): seq<Exchange> {
    seq(|ks|, i requires 0 <= i < |ks| => ks[i].Exchanged(host))
  }

  lemma ExecuteAppend(c: Caller, a: seq<Action>, b: seq<Action>)
    requires Feasible(c, a) && Feasible(Execute(c, a), b)
    ensures Feasible(c, a + b) && Execute(c, a + b) == Execute(Execute(c, a), b)
  {
    Runs.RunAppend(ClientStep, c, a, b);
    Runs.PossibleAppend(Allowed, ClientStep, c, a, b);
  }

  // The client after its callbacks have heard the answers to the talks.
  predicate Heard(c: Caller, d: Caller, ks: seq<Talk>) {
    Ready(d) && d.base == c.base && d.host == c.host && d.calls == c.calls + AllHeard(ks, c.host)
  }

  lemma HeardCons(calls: seq<Call>, ks: seq<Talk>, host: string)
    requires ks != []
    ensures calls + AllHeard(ks, host) == calls + [ks[0].Heard(host)] + AllHeard(ks[1..], host)
  {
    AppendCons(calls, ks[0].Heard(host), AllHeard(ks[1..], host));
  }

  lemma {:induction false} AllAreHeard(c: Caller, server: State, ks: seq<Talk>)
    requires Ready(c) && forall i | 0 <= i < |ks| :: CanTalk(c.host, c.base, server, ks[i])
    ensures Feasible(c, AllActions(ks)) && Heard(c, Execute(c, AllActions(ks)), ks)
    decreases ks
  {
    if ks == [] {
      assert c.calls + AllHeard(ks, c.host) == c.calls;
    } else {
      TalkIsAnswered(c, server, ks[0]);
      var d := Execute(c, ks[0].Actions());
      AllAreHeard(d, server, ks[1..]);
      ExecuteAppend(c, ks[0].Actions(), AllActions(ks[1..]));
      HeardCons(c.calls, ks, c.host);
    }
  }

  lemma TalkIsSendable(host: string, client: State, server: State, k: Talk)
    requires CanTalk(host, client, server, k)
    ensures Sendable(server, k.Exchanged(host))
  {
    PrintedIsSendable(server, k.Asked(host), k.order, k.chunks, k.reply);
  }

  // A whole conversation over one connection: the handler sees every request once and in
  // order, with the defaults of both sides, and every callback hears, once and in order, the
  // answer to its own request.
  lemma ConversationIsAnswered(c: Caller, p: Peer, ks: seq<Talk>)
    requires Ready(c) && Fresh(p.base) && p.base.kind == Requests
    requires forall i | 0 <= i < |ks| :: CanTalk(c.host, c.base, p.base, ks[i])
    requires forall i | 0 <= i < |ks| - 1 :: StaysOpen(ks[i].Exchanged(c.host))
    ensures var xs := AllExchanged(ks, c.host);
            Possible(p, AllInputs(xs)) && HandledIn(Run(p, AllInputs(xs)).log) == HandledIn(p.log) + Sent(xs)
    ensures Feasible(c, AllActions(ks)) && Execute(c, AllActions(ks)).calls == c.calls + AllHeard(ks, c.host)
  {
    AllAreHeard(c, p.base, ks);
    ConversationIsHandled(c.host, c.base, p, ks);
  }

  lemma ConversationIsHandled(host: string, client: State, p: Peer, ks: seq<Talk>)
    requires Fresh(p.base) && p.base.kind == Requests
    requires forall i | 0 <= i < |ks| :: CanTalk(host, client, p.base, ks[i])
    requires forall i | 0 <= i < |ks| - 1 :: StaysOpen(ks[i].Exchanged(host))
    ensures var xs := AllExchanged(ks, host);
            Possible(p, AllInputs(xs)) && HandledIn(Run(p, AllInputs(xs)).log) == HandledIn(p.log) + Sent(xs)
  {
    forall i | 0 <= i < |ks| ensures Sendable(p.base, AllExchanged(ks, host)[i]) {
      TalkIsSendable(host, client, p.base, ks[i]);
    }
    HandlerSeesEachOnce(p, AllExchanged(ks, host));
  }

  // ---------------------------------------------------------------- the session object

  method AddDefaults(h: HeaderMap, host: string) returns (full: HeaderMap)
    ensures full == WithClientDefaults(h, host)
  {
    var table := new HeaderTable();
    table.entries := h;
    if "host" !in table.entries && "Host" !in table.entries {
      table.Set("Host", host);
    }
    if "connection" !in table.entries && "Connection" !in table.entries {
      table.Set("Connection", "keep-alive");
    }
    return table.entries;
  }

  class ClientSession {
    const connection: Connection
    const host: string
    var keepAlive: bool
    var callback: Option<nat>
    var wire: string
    ghost var outstanding: bool
    ghost var asked: seq<nat>
    ghost var calls: seq<Call>

    ghost function Now(): Caller
      reads this, connection
    {
      Caller(connection.Now(), host, keepAlive, callback, outstanding, asked, calls)
    }

    constructor (cfg: Config, host: string)
      ensures fresh(connection) && Now() == Connected(cfg, host)
    {
      connection := new Connection(Responses, cfg);
      this.host, keepAlive, callback, wire := host, false, None, "";
      outstanding, asked, calls := false, [], [];
    }

    method SendRequest(req: Message, cb: Option<nat>)
      requires Allowed(Now(), Request(req, cb))
      modifies this, connection
      ensures Now() == AsyncRequest(old(Now()), req, cb)
      ensures connection.open ==>
                exists order :: IsOrder(order, WithClientDefaults(req.headers, host)) &&
                                wire == Serialize(req.(headers := WithClientDefaults(req.headers, host)), order)
    {
      asked := asked + Ids(cb);
      if !connection.open {
        calls := calls + CallOf(cb, FailedWith(NotConnected));
        return;
      }
      var headers := AddDefaults(req.headers, host);
      var full := req.(headers := headers);
      callback, outstanding := cb, true;
      var order := WalkOrder(full.headers);
      wire := PrintRequest(full, order);
      connection.Write(full);
    }

    method MessageParsed(resp: Message)
      modifies this
      ensures Now() == OnResponse(old(Now()), resp)
    {
      keepAlive := KeepsAlive(resp.headers);
      var cb := callback;
      callback, outstanding := None, false;
      calls := calls + CallOf(cb, Delivered(resp));
    }

    method Fail(error: IoError)
      modifies this, connection
      ensures Now() == OnError(old(Now()), error)
    {
      var cb := callback;
      callback, outstanding := None, false;
      connection.Close();
      calls := calls + CallOf(cb, FailedWith(error));
    }

    method Handle(e: Event)
      requires Enabled(connection.Now(), e)
      modifies this, connection
      ensures Now() == ClientStep(old(Now()), Io(e))
    {
      var hook := connection.Completed(e);
      match hook {
        case NoHook =>
        case Parsed(resp) => MessageParsed(resp);
        case Written => connection.Read();
        case Failed(error) => Fail(error);
      }
    }
  }
}
