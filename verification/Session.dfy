// The HTTP/1.1 session shared by server and client: a state machine over socket and timer
// completions. Reads of the socket layer deliver arbitrary chunks; the session parses what
// is in its buffer once a CRLF CRLF is there and then reads exactly the missing body bytes.

module Session {
  import opened Streams
  import opened Headers
  import opened Codec

  datatype Config = Config(maxHeader: nat, maxBody: nat) {
    function Capacity(): nat {
      maxHeader + maxBody
    }
  }

  // Completion codes of the socket layer (Aborted, Broken) and those the session makes up.
  datatype IoError = Aborted | Broken | MessageSize | InvalidArgument | TimedOut | NotConnected

  // The one asynchronous operation in flight.
  datatype Pending =
    | Idle
    | ReadingHead
    | ReadingBody(msg: Message, left: nat)
    | Writing(msg: Message)

  // armed: the current timer wait; expired: timer handlers already queued with success,
  // which a later cancel can no longer stop.
  datatype State = State(kind: Kind, cfg: Config, open: bool, buffer: string, pending: Pending,
                         armed: bool, expired: nat)

  // The hook of the derived class a handler ends in.
  datatype Hook = NoHook | Parsed(msg: Message) | Written | Failed(error: IoError)

  datatype Event = Receive(chunk: string) | IoFail(error: IoError) | WriteDone | TimerExpires | TimerFires

  // ---------------------------------------------------------------- the operations

  function StartTimer(s: State): State {
    s.(armed := true)
  }

  function CancelTimer(s: State): State {
    s.(armed := false)
  }

  function Shutdown(s: State): State {
    CancelTimer(s).(open := false)
  }

  function DoRead(s: State): State {
    StartTimer(s).(pending := ReadingHead)
  }

  function DoWrite(s: State, msg: Message): State {
    StartTimer(s).(pending := Writing(msg))
  }

  // on_headers_read after a successful read_until.
  function OnHeadersRead(s: State): (State, Hook) {
    OnHead(s, Delimiter(s.buffer), Parse(s.kind, s.buffer))
  }

  // d: where std::search found the delimiter; parsed: what the parser makes of the buffer.
  function OnHead(s: State, d: nat, parsed: Result<Message>): (State, Hook) {
    var t := CancelTimer(s).(pending := Idle);
    if d == |s.buffer| then (t, Failed(InvalidArgument))
    else if d + 4 > s.cfg.maxHeader then (t, Failed(MessageSize))
    else
      match parsed
      case Err(_) => (t.(buffer := AfterLine(s.buffer)), Failed(InvalidArgument))
      case Ok(msg) => OnParsed(t.(buffer := ""), msg, ContentLength(msg.headers))
  }

  function OnParsed(t: State, msg: Message, length: Result<nat>): (State, Hook) {
    match length
    case Err(_) => (t, Failed(InvalidArgument))
    case Ok(expected) =>
      if expected > t.cfg.maxBody then (t, Failed(MessageSize))
      else if |msg.body| > expected then (t, Failed(InvalidArgument))
      else if |msg.body| < expected then
        (StartTimer(t).(pending := ReadingBody(msg, expected - |msg.body|)), NoHook)
      else (t, Parsed(msg))
  }

  // on_body_read after a successful transfer_exactly.
  function OnBodyRead(s: State, msg: Message): (State, Hook) {
    (CancelTimer(s).(pending := Idle, buffer := ""), Parsed(msg.(body := msg.body + s.buffer)))
  }

  // One read completion. read_until finishes on a delimiter, or with not_found on a full
  // buffer; transfer_exactly finishes on the last byte, or early on a full buffer.
  function OnReceive(s: State, chunk: string): (State, Hook)
    requires s.pending.ReadingHead? || (s.pending.ReadingBody? && |chunk| <= s.pending.left)
  {
    var t := s.(buffer := s.buffer + chunk);
    if s.pending.ReadingHead? then ReadUntil(t) else ReadExactly(t, s.pending.msg, s.pending.left - |chunk|)
  }

  function ReadUntil(t: State): (State, Hook) {
    if Delimiter(t.buffer) < |t.buffer| then OnHeadersRead(t)
    else if |t.buffer| >= t.cfg.Capacity() then (CancelTimer(t).(pending := Idle), Failed(MessageSize))
    else (t, NoHook)
  }

  function ReadExactly(t: State, msg: Message, left: nat): (State, Hook) {
    if left == 0 || |t.buffer| >= t.cfg.Capacity() then OnBodyRead(t, msg)
    else (t.(pending := ReadingBody(msg, left)), NoHook)
  }

  // A failed operation reaches on_error, except an aborted header read.
  function OnIoFail(s: State, error: IoError): (State, Hook) {
    (CancelTimer(s).(pending := Idle), if s.pending.ReadingHead? && error.Aborted? then NoHook else Failed(error))
  }

  // What the socket layer and the clock can do next. Operations are aborted only by
  // shutdown; a completion that was already queued still arrives after it.
  predicate Enabled(s: State, e: Event) {
    match e
    case Receive(chunk) =>
      && |s.buffer| + |chunk| <= s.cfg.Capacity()
      && (s.pending.ReadingHead? || (s.pending.ReadingBody? && |chunk| <= s.pending.left))
      && (chunk == "" ==> s.cfg.Capacity() == |s.buffer|)
    case IoFail(error) => !s.pending.Idle? && (error.Broken? || (error.Aborted? && !s.open))
    case WriteDone => s.pending.Writing?
    case TimerExpires => s.armed
    case TimerFires => s.expired > 0
  }

  function Step(s: State, e: Event): (State, Hook)
    requires Enabled(s, e)
  {
    match e
    case Receive(chunk) => OnReceive(s, chunk)
    case IoFail(error) => OnIoFail(s, error)
    case WriteDone => (CancelTimer(s).(pending := Idle), Written)
    case TimerExpires => (s.(armed := false, expired := s.expired + 1), NoHook)
    case TimerFires => (Shutdown(s.(expired := s.expired - 1)), Failed(TimedOut))
  }

  // ---------------------------------------------------------------- what every step keeps

  // A message fit for delivery: exactly Content-Length body bytes, within the limit.
  predicate Deliverable(cfg: Config, m: Message) {
    ContentLength(m.headers) == Ok(|m.body|) && |m.body| <= cfg.maxBody
  }

  // The buffer stays within its capacity, and what is left of a body read always fits.
  predicate SizesFit(s: State) {
    && |s.buffer| <= s.cfg.Capacity()
    && match s.pending
       case Idle => s.open ==> s.buffer == ""
       case Writing(_) => s.buffer == ""
       case ReadingHead => Delimiter(s.buffer) == |s.buffer| && (s.buffer == "" || |s.buffer| < s.cfg.Capacity())
       case ReadingBody(m, left) =>
         && left > 0 && |s.buffer| + left <= s.cfg.maxBody
         && ContentLength(m.headers) == Ok(|m.body| + |s.buffer| + left)
         && |m.body| + |s.buffer| + left <= s.cfg.maxBody
  }

  // A timer guards every operation of an open session, and only operations are timed.
  predicate TimersFit(s: State) {
    && (s.armed ==> !s.pending.Idle?)
    && (s.open && !s.pending.Idle? ==> s.armed || s.expired > 0)
  }

  // What a step may leave before the derived hook runs.
  predicate HookFits(s: State, t: State, hook: Hook) {
    match hook
    case NoHook => t.pending.Idle? == s.pending.Idle? || (t.pending.Idle? && !t.open)
    case Parsed(m) => t.pending.Idle? && t.buffer == "" && Deliverable(t.cfg, m) && !s.pending.Idle?
    case Written => s.pending.Writing? && t.pending.Idle? && t.buffer == ""
    case Failed(_) => t.pending.Idle? || (!t.open && t.pending == s.pending)
  }

  // The state a step leaves once a failure has been answered by the hook, which shuts down.
  function Settled(t: State, hook: Hook): State {
    if hook.Failed? then Shutdown(t) else t
  }

  predicate Kept(s: State, t: State, hook: Hook) {
    && t.cfg == s.cfg && t.kind == s.kind
    && SizesFit(Settled(t, hook)) && TimersFit(Settled(t, hook)) && HookFits(s, t, hook)
  }

  lemma OnParsedKeeps(s: State, t: State, msg: Message)
    requires t.pending.Idle? && !t.armed && t.buffer == "" && !s.pending.Idle?
    requires t.cfg == s.cfg && t.kind == s.kind
    ensures var (u, hook) := OnParsed(t, msg, ContentLength(msg.headers)); Kept(s, u, hook)
  {
  }

  lemma OnHeadKeeps(s: State, t: State, d: nat, parsed: Result<Message>)
    requires !s.pending.Idle? && |t.buffer| <= t.cfg.Capacity() && t.cfg == s.cfg && t.kind == s.kind
    ensures var (u, hook) := OnHead(t, d, parsed); Kept(s, u, hook)
  {
    if parsed.Ok? {
      OnParsedKeeps(s, CancelTimer(t).(pending := Idle, buffer := ""), parsed.value);
    } else {
      assert |AfterLine(t.buffer)| <= |t.buffer|;
    }
  }

  lemma ReadUntilKeeps(s: State, t: State)
    requires s.pending.ReadingHead? && TimersFit(s)
    requires t == s.(buffer := t.buffer) && |t.buffer| <= t.cfg.Capacity()
    ensures var (u, hook) := ReadUntil(t); Kept(s, u, hook)
  {
    OnHeadKeeps(s, t, Delimiter(t.buffer), Parse(t.kind, t.buffer));
  }

  lemma ReadExactlyKeeps(s: State, chunk: string)
    requires s.pending.ReadingBody? && |chunk| <= s.pending.left && SizesFit(s) && TimersFit(s)
    ensures var (u, hook) := ReadExactly(s.(buffer := s.buffer + chunk), s.pending.msg, s.pending.left - |chunk|);
            Kept(s, u, hook)
  {
  }

  lemma ReceiveKeeps(s: State, chunk: string)
    requires Enabled(s, Receive(chunk)) && SizesFit(s) && TimersFit(s)
    ensures Kept(s, OnReceive(s, chunk).0, OnReceive(s, chunk).1)
  {
    if s.pending.ReadingHead? {
      ReadUntilKeeps(s, s.(buffer := s.buffer + chunk));
    } else {
      ReadExactlyKeeps(s, chunk);
    }
  }

  // Every completion keeps the size and timer bounds, and hands over only deliverable messages.
  lemma StepKeeps(s: State, e: Event)
    requires Enabled(s, e) && SizesFit(s) && TimersFit(s)
    ensures Kept(s, Step(s, e).0, Step(s, e).1)
  {
    if e.Receive? {
      ReceiveKeeps(s, e.chunk);
    }
  }

  // A timer handler that runs has closed the session, timer included, before it reports; it
  // neither takes bytes nor ends the operation in flight.
  lemma FiredTimerCloses(s: State)
    requires Enabled(s, TimerFires)
    ensures var (t, hook) := Step(s, TimerFires);
            hook == Failed(TimedOut) && t == s.(open := false, armed := false, expired := s.expired - 1)
  {
  }

  // ---------------------------------------------------------------- the session object

  // The session as the object its handlers update in place. Each handler ends in at most one
  // hook call, which is returned for the derived session to carry out.
  class Connection {
    const kind: Kind
    const cfg: Config
    var open: bool
    var buffer: string
    var pending: Pending
    var armed: bool
    var expired: nat

    function Now(): State
      reads this
    {
      State(kind, cfg, open, buffer, pending, armed, expired)
    }

    constructor (kind: Kind, cfg: Config)
      ensures Now() == State(kind, cfg, true, "", Idle, false, 0)
    {
      this.kind, this.cfg := kind, cfg;
      open, buffer, pending, armed, expired := true, "", Idle, false, 0;
    }

    method Close()
      modifies this
      ensures Now() == Shutdown(old(Now())) && !open && !armed
    {
      armed := false;
      if open {
        open := false;
      }
    }

    method Read()
      modifies this
      ensures Now() == DoRead(old(Now())) && armed && pending == ReadingHead
    {
      armed := true;
      pending := ReadingHead;
    }

    method Write(msg: Message)
      modifies this
      ensures Now() == DoWrite(old(Now()), msg) && armed && pending == Writing(msg)
    {
      armed := true;
      pending := Writing(msg);
    }

    method HeadersRead() returns (hook: Hook)
      modifies this
      ensures (Now(), hook) == OnHeadersRead(old(Now()))
    {
      armed, pending := false, Idle;
      var d := Delimiter(buffer);
      if d == |buffer| {
        return Failed(InvalidArgument);
      }
      if d + 4 > cfg.maxHeader {
        return Failed(MessageSize);
      }
      var stream := new InputStream(buffer);
      var parsed := ParseFrom(kind, stream);
      buffer := stream.rest;
      if parsed.Err? {
        return Failed(InvalidArgument);
      }
      hook := SizeChecked(parsed.value);
    }

    method SizeChecked(msg: Message) returns (hook: Hook)
      modifies this
      ensures (Now(), hook) == OnParsed(old(Now()), msg, ContentLength(msg.headers))
    {
      var length := ComputeContentLength(msg.headers);
      if length.Err? {
        return Failed(InvalidArgument);
      }
      if length.value > cfg.maxBody {
        return Failed(MessageSize);
      }
      if |msg.body| > length.value {
        return Failed(InvalidArgument);
      }
      var remaining := length.value - |msg.body|;
      if remaining > 0 {
        armed, pending := true, ReadingBody(msg, remaining);
        return NoHook;
      }
      return Parsed(msg);
    }

    method BodyRead(msg: Message) returns (hook: Hook)
      modifies this
      ensures (Now(), hook) == OnBodyRead(old(Now()), msg)
    {
      armed, pending := false, Idle;
      var whole := msg.(body := msg.body + buffer);
      buffer := "";
      return Parsed(whole);
    }

    method Received(chunk: string) returns (hook: Hook)
      requires Enabled(Now(), Receive(chunk))
      modifies this
      ensures (Now(), hook) == OnReceive(old(Now()), chunk)
    {
      buffer := buffer + chunk;
      if pending.ReadingBody? {
        var msg, left := pending.msg, pending.left - |chunk|;
        if left == 0 || |buffer| >= cfg.Capacity() {
          hook := BodyRead(msg);
        } else {
          pending := ReadingBody(msg, left);
          hook := NoHook;
        }
      } else if Delimiter(buffer) < |buffer| {
        hook := HeadersRead();
      } else if |buffer| >= cfg.Capacity() {
        armed, pending := false, Idle;
        hook := Failed(MessageSize);
      } else {
        hook := NoHook;
      }
    }

    method Completed(e: Event) returns (hook: Hook)
      requires Enabled(Now(), e)
      modifies this
      ensures (Now(), hook) == Step(old(Now()), e)
    {
      match e {
        case Receive(chunk) =>
          hook := Received(chunk);
        case IoFail(error) =>
          hook := if pending.ReadingHead? && error.Aborted? then NoHook else Failed(error);
          armed, pending := false, Idle;
        case WriteDone =>
          armed, pending := false, Idle;
          hook := Written;
        case TimerExpires =>
          armed, expired := false, expired + 1;
          hook := NoHook;
        case TimerFires =>
          expired := expired - 1;
          Close();
          hook := Failed(TimedOut);
      }
    }
  }
}
