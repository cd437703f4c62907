// One read cycle fed with arbitrary chunks: what is delivered depends only on the stream.

module Chunking {
  import opened Strings
  import opened Segments
  import opened Streams
  import opened Headers
  import opened Codec
  import opened Framing
  import opened Session

  // The chunks are possible completions of the reads the session issues, up to its next hook.
  predicate Legal(s: State, chunks: seq<string>)
    decreases chunks
  {
    chunks != [] ==>
      && Enabled(s, Receive(chunks[0]))
      && var (t, hook) := OnReceive(s, chunks[0]);
         if hook.NoHook? then Legal(t, chunks[1..]) else chunks[1..] == []
  }

  function Feed(s: State, chunks: seq<string>): (State, Hook)
    requires Legal(s, chunks)
    decreases chunks
  {
    if chunks == [] then (s, NoHook)
    else
      var (t, hook) := OnReceive(s, chunks[0]);
      if hook.NoHook? then Feed(t, chunks[1..]) else (t, hook)
  }

  // ---------------------------------------------------------------- the body phase

  // What a body read has produced after the bytes in got.
  function BodyResult(s: State, got: string): (State, Hook)
    requires s.pending.ReadingBody? && |got| <= s.pending.left
  {
    var m, left := s.pending.msg, s.pending.left - |got|;
    if left == 0 then (CancelTimer(s).(pending := Idle, buffer := ""), Parsed(m.(body := m.body + (s.buffer + got))))
    else (s.(buffer := s.buffer + got, pending := ReadingBody(m, left)), NoHook)
  }

  lemma BodyStep(s: State, chunk: string)
    requires s.pending.ReadingBody? && SizesFit(s) && Enabled(s, Receive(chunk))
    ensures chunk != "" && OnReceive(s, chunk) == BodyResult(s, chunk)
    ensures |chunk| < s.pending.left ==> SizesFit(OnReceive(s, chunk).0)
  {
  }

  lemma BodyStepThen(s: State, chunk: string, more: string)
    requires s.pending.ReadingBody? && |chunk| < s.pending.left && |chunk| + |more| <= s.pending.left
    ensures BodyResult(BodyResult(s, chunk).0, more) == BodyResult(s, chunk + more)
  {
    Assoc(s.buffer, chunk, more);
  }

  // However the missing bytes are split, they are appended in order and counted exactly;
  // the read is never cut short by a full buffer.
  lemma {:induction false} FeedBody(s: State, chunks: seq<string>)
    requires s.pending.ReadingBody? && SizesFit(s) && Legal(s, chunks)
    ensures |Cat(chunks)| <= s.pending.left
    ensures Feed(s, chunks) == BodyResult(s, Cat(chunks))
    decreases chunks
  {
    if chunks == [] {
      assert s.buffer + "" == s.buffer;
    } else {
      var chunk, rest := chunks[0], chunks[1..];
      BodyStep(s, chunk);
      if |chunk| == s.pending.left {
        assert rest == [] && chunk + "" == chunk;
      } else {
        FeedBody(OnReceive(s, chunk).0, rest);
        BodyStepThen(s, chunk, Cat(rest));
      }
    }
  }

  // ---------------------------------------------------------------- delivered messages

  // A whole message within the configured limits.
  predicate Acceptable(kind: Kind, cfg: Config, whole: string) {
    && Whole(kind, whole)
    && Delimiter(whole) < |whole| && Delimiter(whole) + 4 <= cfg.maxHeader
    && |Parse(kind, whole).value.body| <= cfg.maxBody
  }

  // The chunk that completes the head: the buffer is framed, the parser has read it all, and
  // the head is within its limit.
  lemma HeadCompletes(s: State, b: string)
    requires Delimiter(b) < |b|
    ensures var (t, hook) := ReadUntil(s.(buffer := b));
            && (hook.NoHook? || hook.Parsed? ==>
                  && Framed(s.kind, b) && Delimiter(b) + 4 <= s.cfg.maxHeader
                  && t.buffer == "" && t.kind == s.kind && t.cfg == s.cfg)
            && (hook.NoHook? ==> t.pending.ReadingBody? && t.pending.msg == Parse(s.kind, b).value)
            && (hook.Parsed? ==> hook.msg == Parse(s.kind, b).value)
  {
    OnHeadOutcome(s.(buffer := b), Delimiter(b), Parse(s.kind, b));
    if Parse(s.kind, b).Ok? {
      DelimiterFrames(s.kind, b);
    }
  }

  lemma OnHeadOutcome(s: State, d: nat, parsed: Result<Message>)
    ensures var (t, hook) := OnHead(s, d, parsed);
            && (hook.NoHook? || hook.Parsed? ==>
                  parsed.Ok? && d + 4 <= s.cfg.maxHeader && t.buffer == "" && t.kind == s.kind && t.cfg == s.cfg)
            && (hook.NoHook? ==> t.pending.ReadingBody? && t.pending.msg == parsed.value)
            && (hook.Parsed? ==> hook.msg == parsed.value)
  {
  }

  // More text does not move a delimiter that is already there.
  lemma PrefixDelimiter(whole: string, extra: string, b: string)
    requires Delimiter(whole) < |whole| && b <= whole + extra
    ensures Delimiter(b) == if |b| >= Delimiter(whole) + 4 then Delimiter(whole) else |b|
  {
    var d := Delimiter(whole);
    forall k | 0 <= k < |b| && k < d ensures !DelimiterAt(b, k) {
      assert !DelimiterAt(whole, k);
    }
    if |b| >= d + 4 {
      assert DelimiterAt(b, d);
    } else {
      assert forall k: nat | DelimiterAt(b, k) :: k < d;
    }
  }

  // What the bytes taken from the stream since the read cycle began have come to: a head
  // without its end, or a framed prefix of the message whose body is being read.
  predicate Accounted(s: State, got: string) {
    match s.pending
    case Idle => true
    case Writing(_) => got == ""
    case ReadingHead => got == s.buffer
    case ReadingBody(m, _) =>
      && Framed(s.kind, got) && Delimiter(got) < |got| && Delimiter(got) + 4 <= s.cfg.maxHeader
      && Parse(s.kind, got) == Ok(m.(body := m.body + s.buffer))
  }

  // The message a read hands over is what the bytes taken parse to.
  predicate HandsOver(s: State, got: string, hook: Hook) {
    hook.Parsed? ==> Parse(s.kind, got) == Ok(hook.msg) && Acceptable(s.kind, s.cfg, got)
  }

  lemma AcceptableIs(kind: Kind, cfg: Config, all: string, m: Message)
    requires Framed(kind, all) && Delimiter(all) < |all| && Delimiter(all) + 4 <= cfg.maxHeader
    requires Parse(kind, all) == Ok(m) && Deliverable(cfg, m)
    ensures Acceptable(kind, cfg, all)
  {
  }

  lemma OnlyDeliverables(s: State, b: string)
    requires s.pending.ReadingHead? && TimersFit(s) && |b| <= s.cfg.Capacity()
    ensures var hook := ReadUntil(s.(buffer := b)).1; hook.Parsed? ==> Deliverable(s.cfg, hook.msg)
  {
    ReadUntilKeeps(s, s.(buffer := b));
  }

  lemma NoDelimiterYet(s: State, b: string)
    requires s.pending.ReadingHead? && Delimiter(b) == |b|
    ensures var (t, hook) := ReadUntil(s.(buffer := b));
            !hook.Parsed? && (hook.NoHook? ==> t == s.(buffer := b))
  {
  }

  lemma HeadTaken(t: State, b: string, m: Message)
    requires t.pending.ReadingBody? && t.pending.msg == m && t.buffer == ""
    requires Framed(t.kind, b) && Parse(t.kind, b) == Ok(m)
    requires Delimiter(b) < |b| && Delimiter(b) + 4 <= t.cfg.maxHeader
    ensures Accounted(t, b)
  {
    assert m.body + "" == m.body;
  }

  lemma HeadAccounted(s: State, b: string)
    requires s.pending.ReadingHead? && TimersFit(s) && |b| <= s.cfg.Capacity()
    ensures var (t, hook) := ReadUntil(s.(buffer := b));
            (hook.NoHook? ==> Accounted(t, b)) && HandsOver(s, b, hook)
  {
    var (t, hook) := ReadUntil(s.(buffer := b));
    if Delimiter(b) == |b| {
      NoDelimiterYet(s, b);
    } else {
      HeadCompletes(s, b);
      match hook
      case NoHook => HeadTaken(t, b, t.pending.msg);
      case Parsed(m) =>
        OnlyDeliverables(s, b);
        AcceptableIs(s.kind, s.cfg, b, m);
      case _ =>
    }
  }

  lemma MoreBodyTaken(kind: Kind, got: string, chunk: string, m: Message, buffer: string)
    requires Framed(kind, got) && Delimiter(got) < |got| && Parse(kind, got) == Ok(m.(body := m.body + buffer))
    ensures Framed(kind, got + chunk) && Delimiter(got + chunk) == Delimiter(got)
    ensures Parse(kind, got + chunk) == Ok(m.(body := m.body + (buffer + chunk)))
  {
    MoreTextIsMoreBody(kind, got, chunk);
    PrefixDelimiter(got, chunk, got + chunk);
    Assoc(m.body, buffer, chunk);
  }

  lemma LastByteDelivers(s: State, got: string)
    requires s.pending.ReadingBody? && SizesFit(s) && |got| == s.pending.left
    ensures var m := s.pending.msg; Deliverable(s.cfg, m.(body := m.body + (s.buffer + got)))
  {
  }

  lemma BodyAccounted(s: State, got: string, chunk: string)
    requires s.pending.ReadingBody? && SizesFit(s) && Enabled(s, Receive(chunk)) && Accounted(s, got)
    ensures var (t, hook) := OnReceive(s, chunk);
            (hook.NoHook? ==> Accounted(t, got + chunk)) && HandsOver(s, got + chunk, hook)
  {
    BodyStep(s, chunk);
    MoreBodyTaken(s.kind, got, chunk, s.pending.msg, s.buffer);
    if |chunk| == s.pending.left {
      var m := s.pending.msg;
      LastByteDelivers(s, chunk);
      AcceptableIs(s.kind, s.cfg, got + chunk, m.(body := m.body + (s.buffer + chunk)));
    }
  }

  lemma ReceiveAccounted(s: State, got: string, chunk: string)
    requires SizesFit(s) && TimersFit(s) && Enabled(s, Receive(chunk)) && Accounted(s, got)
    ensures var (t, hook) := OnReceive(s, chunk);
            (hook.NoHook? ==> Accounted(t, got + chunk)) && HandsOver(s, got + chunk, hook)
  {
    if s.pending.ReadingHead? {
      HeadAccounted(s, got + chunk);
    } else {
      BodyAccounted(s, got, chunk);
    }
  }

  lemma QuietReceiveKeeps(s: State, chunk: string)
    requires Enabled(s, Receive(chunk)) && SizesFit(s) && TimersFit(s) && OnReceive(s, chunk).1.NoHook?
    ensures var t := OnReceive(s, chunk).0; SizesFit(t) && TimersFit(t) && t.cfg == s.cfg && t.kind == s.kind
  {
    ReceiveKeeps(s, chunk);
  }

  // A delivered message is the one-shot parse of exactly the bytes taken, and those are a
  // whole message with head and body within their limits.
  lemma {:induction false} DeliveredIsOneShotParse(s: State, got: string, chunks: seq<string>)
    requires SizesFit(s) && TimersFit(s) && Legal(s, chunks) && Accounted(s, got)
    requires Feed(s, chunks).1.Parsed?
    ensures HandsOver(s, got + Cat(chunks), Feed(s, chunks).1)
    decreases chunks
  {
    ReceiveAccounted(s, got, chunks[0]);
    Assoc(got, chunks[0], Cat(chunks[1..]));
    if OnReceive(s, chunks[0]).1.NoHook? {
      QuietReceiveKeeps(s, chunks[0]);
      DeliveredIsOneShotParse(OnReceive(s, chunks[0]).0, got + chunks[0], chunks[1..]);
    } else {
      assert got + chunks[0] + "" == got + chunks[0];
    }
  }

  predicate Fresh(s: State) {
    s.pending.ReadingHead? && s.buffer == "" && s.open && s.armed
  }

  lemma FreshDelivers(s: State, chunks: seq<string>)
    requires Fresh(s) && Legal(s, chunks) && Feed(s, chunks).1.Parsed?
    ensures Parse(s.kind, Cat(chunks)) == Ok(Feed(s, chunks).1.msg) && Acceptable(s.kind, s.cfg, Cat(chunks))
  {
    DeliveredIsOneShotParse(s, "", chunks);
    assert "" + Cat(chunks) == Cat(chunks);
  }

  lemma SamePrefix(kind: Kind, a: string, b: string, stream: string)
    requires Whole(kind, a) && Whole(kind, b) && a <= stream && b <= stream
    ensures a == b
  {
    if |a| <= |b| {
      WholePrefixIsUnique(kind, a, b);
    } else {
      WholePrefixIsUnique(kind, b, a);
    }
  }

  // ---------------------------------------------------------------- chunking independence

  // One read cycle with the timer: chunks, and timer waits that expire and handlers that fire
  // in between, up to the hook that ends the read. A timer that fires has shut the session
  // down; reads that were already queued still arrive.
  predicate Plays(s: State, events: seq<Event>)
    decreases events
  {
    events != [] ==>
      && !events[0].IoFail? && !events[0].WriteDone? && Enabled(s, events[0])
      && var (t, hook) := Step(s, events[0]);
         if events[0].Receive? && !hook.NoHook? then events[1..] == [] else Plays(t, events[1..])
  }

  function Play(s: State, events: seq<Event>): (State, Hook)
    requires Plays(s, events)
    decreases events
  {
    if events == [] then (s, NoHook)
    else
      var (t, hook) := Step(s, events[0]);
      if events[0].Receive? && !hook.NoHook? then (t, hook) else Play(t, events[1..])
  }

  function Chunks(events: seq<Event>): seq<string> {
    if events == [] then []
    else (if events[0].Receive? then [events[0].chunk] else []) + Chunks(events[1..])
  }

  // What a read goes by: all but the socket's and the timer's state.
  predicate ReadsAlike(s: State, t: State) {
    t == s.(open := t.open, armed := t.armed, expired := t.expired)
  }

  lemma ParsedAlike(s: State, t: State, msg: Message, length: Result<nat>)
    requires ReadsAlike(s, t)
    ensures ReadsAlike(OnParsed(s, msg, length).0, OnParsed(t, msg, length).0)
    ensures OnParsed(s, msg, length).1 == OnParsed(t, msg, length).1
  {
  }

  lemma HeadReadsAlike(s: State, t: State, d: nat, parsed: Result<Message>)
    requires ReadsAlike(s, t)
    ensures ReadsAlike(OnHead(s, d, parsed).0, OnHead(t, d, parsed).0)
    ensures OnHead(s, d, parsed).1 == OnHead(t, d, parsed).1
  {
    if parsed.Ok? {
      var u, v := CancelTimer(s).(pending := Idle), CancelTimer(t).(pending := Idle);
      ParsedAlike(u.(buffer := ""), v.(buffer := ""), parsed.value, ContentLength(parsed.value.headers));
    }
  }

  lemma HeadsAlike(s: State, t: State)
    requires ReadsAlike(s, t)
    ensures ReadsAlike(ReadUntil(s).0, ReadUntil(t).0) && ReadUntil(s).1 == ReadUntil(t).1
  {
    HeadReadsAlike(s, t, Delimiter(s.buffer), Parse(s.kind, s.buffer));
  }

  lemma BodiesAlike(s: State, t: State, msg: Message, left: nat)
    requires ReadsAlike(s, t)
    ensures ReadsAlike(ReadExactly(s, msg, left).0, ReadExactly(t, msg, left).0)
    ensures ReadExactly(s, msg, left).1 == ReadExactly(t, msg, left).1
  {
  }

  lemma ReceivesAlike(s: State, t: State, chunk: string)
    requires ReadsAlike(s, t) && Enabled(s, Receive(chunk))
    ensures Enabled(t, Receive(chunk))
    ensures ReadsAlike(OnReceive(s, chunk).0, OnReceive(t, chunk).0)
    ensures OnReceive(s, chunk).1 == OnReceive(t, chunk).1
  {
    var sb, tb := s.(buffer := s.buffer + chunk), t.(buffer := t.buffer + chunk);
    if s.pending.ReadingHead? {
      HeadsAlike(sb, tb);
    } else {
      BodiesAlike(sb, tb, s.pending.msg, s.pending.left - |chunk|);
    }
  }

  // Timers change nothing in what a read cycle makes of its chunks.
  lemma {:induction false} PlayFeeds(s: State, t: State, events: seq<Event>)
    requires ReadsAlike(s, t) && Plays(s, events)
    ensures Legal(t, Chunks(events)) && Play(s, events).1 == Feed(t, Chunks(events)).1
    decreases events
  {
    if events != [] {
      var e, rest := events[0], events[1..];
      if e.Receive? {
        ReceivesAlike(s, t, e.chunk);
        assert Chunks(events) == [e.chunk] + Chunks(rest) && Chunks(events)[1..] == Chunks(rest);
        if OnReceive(s, e.chunk).1.NoHook? {
          PlayFeeds(OnReceive(s, e.chunk).0, OnReceive(t, e.chunk).0, rest);
        }
      } else {
        assert Chunks(events) == Chunks(rest);
        PlayFeeds(Step(s, e).0, t, rest);
      }
    }
  }

  // Chunking independence: two read cycles over one stream, split in any two ways and with
  // any timer events in between, deliver the same message and consume the same bytes.
  lemma ChunkingIndependence(s: State, left: seq<Event>, right: seq<Event>, stream: string)
    requires Fresh(s) && Plays(s, left) && Plays(s, right)
    requires Cat(Chunks(left)) <= stream && Cat(Chunks(right)) <= stream
    requires Play(s, left).1.Parsed? && Play(s, right).1.Parsed?
    ensures Play(s, left).1 == Play(s, right).1 && Cat(Chunks(left)) == Cat(Chunks(right))
  {
    PlayFeeds(s, s, left);
    PlayFeeds(s, s, right);
    FreshDelivers(s, Chunks(left));
    FreshDelivers(s, Chunks(right));
    SamePrefix(s.kind, Cat(Chunks(left)), Cat(Chunks(right)), stream);
  }

  // ---------------------------------------------------------------- when a cycle delivers

  lemma CommonPrefix(head: string, body: string, extra: string, b: string) returns (more: string)
    requires b <= head + body + extra && |head| <= |b|
    ensures b == head + more
  {
    more := b[|head|..];
  }

  lemma HeadOfFramed(kind: Kind, whole: string) returns (head: string)
    requires Framed(kind, whole) && Delimiter(whole) < |whole|
    ensures whole == head + Parse(kind, whole).value.body && |head| <= Delimiter(whole) + 4
    ensures Framed(kind, head) && Parse(kind, head) == Ok(Parse(kind, whole).value.(body := ""))
  {
    DelimiterFrames(kind, whole);
    head := HeadAlone(kind, whole);
  }

  lemma HeadThenMore(kind: Kind, head: string, more: string)
    requires Framed(kind, head) && Parse(kind, head).value.body == ""
    ensures Parse(kind, head + more) == Ok(Parse(kind, head).value.(body := more))
  {
    MoreTextIsMoreBody(kind, head, more);
    NothingAdded(more, "");
  }

  // Once the delimiter is buffered, the parser sees the head of the message, whatever part
  // of the body came along.
  lemma BufferedHead(kind: Kind, whole: string, extra: string, b: string) returns (more: string)
    requires Framed(kind, whole) && Delimiter(whole) < |whole|
    requires b <= whole + extra && Delimiter(whole) + 4 <= |b|
    ensures Parse(kind, b) == Ok(Parse(kind, whole).value.(body := more))
    ensures |b| == HeadSize(kind, whole) + |more|
  {
    var head := HeadOfFramed(kind, whole);
    more := CommonPrefix(head, Parse(kind, whole).value.body, extra, b);
    HeadThenMore(kind, head, more);
  }

  lemma AcceptedHead(s: State, d: nat, m: Message, n: nat)
    requires d < |s.buffer| && d + 4 <= s.cfg.maxHeader && ContentLength(m.headers) == Ok(n) && n <= s.cfg.maxBody
    ensures var (t, hook) := OnHead(s, d, Ok(m));
            if |m.body| > n then hook == Failed(InvalidArgument)
            else if |m.body| == n then hook == Parsed(m)
            else hook == NoHook && t == s.(armed := true, buffer := "", pending := ReadingBody(m, n - |m.body|))
  {
  }

  lemma SameSizePrefix(a: string, whole: string, extra: string)
    requires a <= whole + extra && |a| == |whole|
    ensures a == whole
  {
  }

  // What the completed head leads to, by the size of the buffer.
  predicate HeadVerdict(s: State, b: string, size: nat, t: State, hook: Hook) {
    if |b| > size then hook == Failed(InvalidArgument)
    else if |b| == size then hook.Parsed?
    else
      && hook == NoHook && t.pending.ReadingBody?
      && t == s.(armed := true, buffer := "", pending := ReadingBody(t.pending.msg, size - |b|))
  }

  lemma VerdictOfParsed(s: State, b: string, m: Message, n: nat, size: nat)
    requires Delimiter(b) < |b| && Delimiter(b) + 4 <= s.cfg.maxHeader
    requires Parse(s.kind, b) == Ok(m) && ContentLength(m.headers) == Ok(n) && n <= s.cfg.maxBody
    requires |b| - |m.body| == size - n
    ensures var (t, hook) := ReadUntil(s.(buffer := b)); HeadVerdict(s, b, size, t, hook)
  {
    AcceptedHead(s.(buffer := b), Delimiter(b), m, n);
  }

  // The chunk that completes the head of an acceptable message.
  lemma AcceptableHead(s: State, b: string, whole: string, extra: string)
    requires Acceptable(s.kind, s.cfg, whole) && b <= whole + extra && Delimiter(b) < |b|
    ensures var (t, hook) := ReadUntil(s.(buffer := b)); HeadVerdict(s, b, |whole|, t, hook)
  {
    PrefixDelimiter(whole, extra, b);
    var more := BufferedHead(s.kind, whole, extra, b);
    var m := Parse(s.kind, whole).value;
    VerdictOfParsed(s, b, m.(body := more), |m.body|, |whole|);
  }

  // After all bytes so far: waiting, delivered, or over-read.
  predicate CycleVerdict(all: string, whole: string, hook: Hook) {
    match hook
    case NoHook => |all| < |whole|
    case Parsed(_) => all == whole
    case Failed(e) => |all| > |whole| && e == InvalidArgument
    case Written => false
  }

  lemma SizeDecides(all: string, whole: string, extra: string, hook: Hook)
    requires all <= whole + extra
    requires if |all| > |whole| then hook == Failed(InvalidArgument)
             else if |all| == |whole| then hook.Parsed? else hook.NoHook?
    ensures CycleVerdict(all, whole, hook)
  {
    if |all| == |whole| { SameSizePrefix(all, whole, extra); }
  }

  lemma BodyDecides(t: State, rest: seq<string>, size: nat)
    requires t.pending.ReadingBody? && SizesFit(t) && Legal(t, rest) && t.pending.left == size
    ensures |Cat(rest)| <= size
    ensures if |Cat(rest)| == size then Feed(t, rest).1.Parsed? else Feed(t, rest).1.NoHook?
  {
    FeedBody(t, rest);
  }

  lemma VerdictAfterHead(s: State, b: string, rest: seq<string>, whole: string, extra: string)
    requires s.pending.ReadingHead? && TimersFit(s) && |b| <= s.cfg.Capacity() && Delimiter(b) < |b|
    requires Acceptable(s.kind, s.cfg, whole) && b <= whole + extra && b + Cat(rest) <= whole + extra
    requires var (t, hook) := ReadUntil(s.(buffer := b)); if hook.NoHook? then Legal(t, rest) else rest == []
    ensures var (t, hook) := ReadUntil(s.(buffer := b));
            CycleVerdict(b + Cat(rest), whole, if hook.NoHook? then Feed(t, rest).1 else hook)
  {
    AcceptableHead(s, b, whole, extra);
    var (t, hook) := ReadUntil(s.(buffer := b));
    if hook.NoHook? {
      ReadUntilKeeps(s, s.(buffer := b));
      BodyDecides(t, rest, |whole| - |b|);
      SizeDecides(b + Cat(rest), whole, extra, Feed(t, rest).1);
    } else {
      SizeDecides(b, whole, extra, hook);
      assert b + Cat(rest) == b;
    }
  }

  // Total account of a read cycle over a stream that starts with an acceptable message: it
  // waits while bytes are missing, delivers on exactly the last byte of the message, and
  // rejects exactly when one chunk ran past its end.
  lemma {:induction false} FeedAcceptable(s: State, chunks: seq<string>, whole: string, extra: string)
    requires s.pending.ReadingHead? && SizesFit(s) && TimersFit(s) && Legal(s, chunks)
    requires Acceptable(s.kind, s.cfg, whole) && s.buffer + Cat(chunks) <= whole + extra
    ensures CycleVerdict(s.buffer + Cat(chunks), whole, Feed(s, chunks).1)
    decreases chunks
  {
    if chunks == [] {
      assert s.buffer + Cat(chunks) == s.buffer;
      PrefixDelimiter(whole, extra, s.buffer);
    } else {
      var chunk, rest := chunks[0], chunks[1..];
      var b := s.buffer + chunk;
      Assoc(s.buffer, chunk, Cat(rest));
      if Delimiter(b) < |b| {
        ShorterPrefix(b, Cat(rest), whole + extra);
        VerdictAfterHead(s, b, rest, whole, extra);
      } else {
        PrefixDelimiter(whole, extra, b);
        ReceiveKeeps(s, chunk);
        FeedAcceptable(OnReceive(s, chunk).0, rest, whole, extra);
      }
    }
  }

  lemma FeedFresh(s: State, chunks: seq<string>, whole: string, extra: string)
    requires Fresh(s) && Legal(s, chunks) && Acceptable(s.kind, s.cfg, whole)
    requires Cat(chunks) <= whole + extra
    ensures CycleVerdict(Cat(chunks), whole, Feed(s, chunks).1)
  {
    NothingAdded(Cat(chunks), s.buffer);
    FeedAcceptable(s, chunks, whole, extra);
  }

  // A finished read cycle delivers if and only if it did not read past the message.
  lemma FinishedCycleDeliversIff(s: State, chunks: seq<string>, whole: string, extra: string)
    requires Fresh(s) && Legal(s, chunks) && Acceptable(s.kind, s.cfg, whole)
    requires Cat(chunks) <= whole + extra && !Feed(s, chunks).1.NoHook?
    ensures Feed(s, chunks).1.Parsed? <==> |Cat(chunks)| <= |whole|
    ensures Feed(s, chunks).1.Parsed? <==> Feed(s, chunks).1 == Parsed(Parse(s.kind, whole).value)
  {
    FeedFresh(s, chunks, whole, extra);
    if Feed(s, chunks).1.Parsed? { FreshDelivers(s, chunks); }
  }

  // Whatever the bytes are, a finished read cycle delivers if and only if those it read are
  // exactly one acceptable message.
  lemma DeliversIffAcceptable(s: State, chunks: seq<string>)
    requires Fresh(s) && Legal(s, chunks) && !Feed(s, chunks).1.NoHook?
    ensures Feed(s, chunks).1.Parsed? <==> Acceptable(s.kind, s.cfg, Cat(chunks))
  {
    if Feed(s, chunks).1.Parsed? {
      FreshDelivers(s, chunks);
    } else if Acceptable(s.kind, s.cfg, Cat(chunks)) {
      NothingExtra(Cat(chunks));
      FeedFresh(s, chunks, Cat(chunks), "");
    }
  }

  lemma PrefixedIsLonger(whole: string, extra: string)
    requires extra != ""
    ensures |whole + extra| > |whole|
  {
  }

  // The bytes taken break a size limit: a full buffer without a delimiter, too long a head, or
  // a Content-Length above the body limit.
  predicate TooLarge(kind: Kind, cfg: Config, all: string) {
    if Delimiter(all) == |all| then |all| >= cfg.Capacity()
    else
      || Delimiter(all) + 4 > cfg.maxHeader
      || match Parse(kind, all)
         case Err(_) => false
         case Ok(m) => match ContentLength(m.headers) case Ok(n) => n > cfg.maxBody case Err(_) => false
  }

  lemma HeadFailure(s: State, b: string)
    requires ReadUntil(s.(buffer := b)).1.Failed?
    ensures ReadUntil(s.(buffer := b)).1
         == Failed(if TooLarge(s.kind, s.cfg, b) then MessageSize else InvalidArgument)
  {
  }

  // A refused head leaves the buffer as far as it was read: all of it when it was not parsed,
  // what follows the first line when that line was refused, and nothing after a whole parse.
  lemma RefusedLeaves(s: State, d: nat, parsed: Result<Message>)
    requires OnHead(s, d, parsed).1.Failed?
    ensures OnHead(s, d, parsed).0.buffer ==
            if d == |s.buffer| || d + 4 > s.cfg.maxHeader then s.buffer
            else if parsed.Err? && Find(s.buffer, '\n') < |s.buffer| then s.buffer[Find(s.buffer, '\n') + 1..]
            else ""
  {
  }

  lemma BodyNeverFails(t: State, rest: seq<string>)
    requires t.pending.ReadingBody? && SizesFit(t) && Legal(t, rest)
    ensures !Feed(t, rest).1.Failed?
  {
    FeedBody(t, rest);
  }

  // Why a read cycle fails depends on the bytes taken alone: a broken size limit is a message
  // size error, everything else an invalid argument.
  lemma {:induction false} FailureIsExplained(s: State, chunks: seq<string>)
    requires s.pending.ReadingHead? && SizesFit(s) && TimersFit(s) && Legal(s, chunks)
    requires Feed(s, chunks).1.Failed?
    ensures Feed(s, chunks).1
         == Failed(if TooLarge(s.kind, s.cfg, s.buffer + Cat(chunks)) then MessageSize else InvalidArgument)
    decreases chunks
  {
    var chunk, rest := chunks[0], chunks[1..];
    var b := s.buffer + chunk;
    Assoc(s.buffer, chunk, Cat(rest));
    if OnReceive(s, chunk).1.NoHook? {
      QuietReceiveKeeps(s, chunk);
      if Delimiter(b) < |b| {
        HeadCompletes(s, b);
        BodyNeverFails(OnReceive(s, chunk).0, rest);
        assert false;
      } else {
        NoDelimiterYet(s, b);
        FailureIsExplained(OnReceive(s, chunk).0, rest);
      }
    } else {
      HeadFailure(s, b);
      NothingAdded(b, Cat(rest));
    }
  }

  lemma FreshFailure(s: State, chunks: seq<string>)
    requires Fresh(s) && Legal(s, chunks) && Feed(s, chunks).1.Failed?
    ensures Feed(s, chunks).1 == Failed(if TooLarge(s.kind, s.cfg, Cat(chunks)) then MessageSize else InvalidArgument)
  {
    var all := s.buffer + Cat(chunks);
    NothingAdded(Cat(chunks), s.buffer);
    FailureIsExplained(s, chunks);
    assert TooLarge(s.kind, s.cfg, all) == TooLarge(s.kind, s.cfg, Cat(chunks));
  }

  // An acceptable message is rejected whenever its chunk brings anything more.
  lemma OverReadIsRejected(s: State, whole: string, extra: string)
    requires Fresh(s) && Acceptable(s.kind, s.cfg, whole)
    requires extra != "" && |whole + extra| <= s.cfg.Capacity()
    ensures Enabled(s, Receive(whole + extra))
    ensures OnReceive(s, whole + extra).1 == Failed(InvalidArgument)
  {
    var b := whole + extra;
    PrefixDelimiter(whole, extra, b);
    NothingAdded(b, s.buffer);
    AcceptableHead(s, b, whole, extra);
    PrefixedIsLonger(whole, extra);
  }

  lemma NothingExtra(all: string)
    ensures all <= all + ""
  {
  }

  // Every chunking of an acceptable message delivers it.
  lemma EveryChunkingDelivers(s: State, chunks: seq<string>, whole: string)
    requires Fresh(s) && Legal(s, chunks) && Acceptable(s.kind, s.cfg, whole) && Cat(chunks) == whole
    ensures Feed(s, chunks) == (s.(pending := Idle, armed := false), Parsed(Parse(s.kind, whole).value))
  {
    NothingExtra(whole);
    FeedFresh(s, chunks, whole, "");
    FreshDelivers(s, chunks);
    DeliveredState(s, chunks);
  }

  lemma ReceiveFrame(s: State, chunk: string)
    requires Enabled(s, Receive(chunk))
    ensures var (t, hook) := OnReceive(s, chunk);
            && t == s.(buffer := t.buffer, pending := t.pending, armed := t.armed)
            && (hook.Parsed? ==> t.buffer == "" && t.pending.Idle? && !t.armed)
            && (hook.Failed? ==> t.pending.Idle?) && !hook.Written?
  {
    if s.pending.ReadingHead? {
      HeadFrame(s.(buffer := s.buffer + chunk));
    }
  }

  lemma HeadFrame(s: State)
    ensures var (t, hook) := ReadUntil(s);
            && t == s.(buffer := t.buffer, pending := t.pending, armed := t.armed)
            && (hook.Parsed? ==> t.buffer == "" && t.pending.Idle? && !t.armed)
            && (hook.Failed? ==> t.pending.Idle?) && !hook.Written?
  {
    OnHeadFrame(s, Delimiter(s.buffer), Parse(s.kind, s.buffer));
  }

  lemma OnHeadFrame(s: State, d: nat, parsed: Result<Message>)
    ensures var (t, hook) := OnHead(s, d, parsed);
            && t == s.(buffer := t.buffer, pending := t.pending, armed := t.armed)
            && (hook.Parsed? ==> t.buffer == "" && t.pending.Idle? && !t.armed)
            && (hook.Failed? ==> t.pending.Idle?) && !hook.Written?
  {
  }

  // A delivering cycle leaves the session idle with an empty buffer and no timer.
  lemma {:induction false} DeliveredState(s: State, chunks: seq<string>)
    requires Legal(s, chunks) && Feed(s, chunks).1.Parsed?
    ensures Feed(s, chunks).0 == s.(buffer := "", pending := Idle, armed := false)
    decreases chunks
  {
    ReceiveFrame(s, chunks[0]);
    if OnReceive(s, chunks[0]).1.NoHook? {
      DeliveredState(OnReceive(s, chunks[0]).0, chunks[1..]);
    }
  }

  // ---------------------------------------------------------------- every split can happen

  predicate NonEmpty(chunks: seq<string>) {
    forall i | 0 <= i < |chunks| :: chunks[i] != ""
  }

  lemma NothingLeft(chunks: seq<string>)
    requires NonEmpty(chunks) && Cat(chunks) == ""
    ensures chunks == []
  {
  }

  lemma BodyChunkFits(t: State, chunk: string)
    requires t.pending.ReadingBody? && SizesFit(t) && chunk != "" && |chunk| <= t.pending.left
    ensures Enabled(t, Receive(chunk))
  {
  }

  lemma {:induction false} BodySplitIsLegal(t: State, chunks: seq<string>)
    requires t.pending.ReadingBody? && SizesFit(t) && NonEmpty(chunks) && |Cat(chunks)| <= t.pending.left
    ensures Legal(t, chunks)
    decreases chunks
  {
    if chunks != [] {
      BodyChunkFits(t, chunks[0]);
      BodyStep(t, chunks[0]);
      if |chunks[0]| < t.pending.left {
        BodySplitIsLegal(OnReceive(t, chunks[0]).0, chunks[1..]);
      } else {
        NothingLeft(chunks[1..]);
      }
    }
  }

  lemma AcceptableFits(kind: Kind, cfg: Config, whole: string)
    requires Acceptable(kind, cfg, whole)
    ensures |whole| <= cfg.Capacity()
  {
    DelimiterFrames(kind, whole);
  }

  lemma VerdictGoesOn(s: State, b: string, size: nat, t: State, hook: Hook, rest: seq<string>)
    requires HeadVerdict(s, b, size, t, hook) && (hook.NoHook? ==> SizesFit(t))
    requires |b| + |Cat(rest)| <= size && NonEmpty(rest)
    ensures if hook.NoHook? then Legal(t, rest) else rest == []
  {
    if |b| < size {
      BodySplitIsLegal(t, rest);
    } else {
      NothingLeft(rest);
    }
  }

  lemma QuietHeadFits(s: State, b: string)
    requires s.pending.ReadingHead? && TimersFit(s) && |b| <= s.cfg.Capacity()
    ensures var (t, hook) := ReadUntil(s.(buffer := b)); hook.NoHook? ==> SizesFit(t)
  {
    ReadUntilKeeps(s, s.(buffer := b));
  }

  lemma RestAfterHead(s: State, b: string, rest: seq<string>, whole: string)
    requires s.pending.ReadingHead? && TimersFit(s) && |b| <= s.cfg.Capacity() && Delimiter(b) < |b|
    requires Acceptable(s.kind, s.cfg, whole) && b <= whole && |b| + |Cat(rest)| <= |whole| && NonEmpty(rest)
    ensures var (t, hook) := ReadUntil(s.(buffer := b)); if hook.NoHook? then Legal(t, rest) else rest == []
  {
    NothingExtra(whole);
    AcceptableHead(s, b, whole, "");
    QuietHeadFits(s, b);
    var (t, hook) := ReadUntil(s.(buffer := b));
    VerdictGoesOn(s, b, |whole|, t, hook, rest);
  }

  // A chunk that leaves the head incomplete only grows the buffer.
  lemma StillReading(s: State, b: string, whole: string)
    requires s.pending.ReadingHead? && Acceptable(s.kind, s.cfg, whole)
    requires b <= whole && Delimiter(b) == |b|
    ensures ReadUntil(s.(buffer := b)) == (s.(buffer := b), NoHook)
    ensures SizesFit(s.(buffer := b))
  {
    NothingExtra(whole);
    PrefixDelimiter(whole, "", b);
  }

  lemma HeadChunkFits(s: State, chunk: string, whole: string)
    requires s.pending.ReadingHead? && Acceptable(s.kind, s.cfg, whole) && chunk != "" && s.buffer + chunk <= whole
    ensures Enabled(s, Receive(chunk))
  {
    AcceptableFits(s.kind, s.cfg, whole);
  }

  lemma LegalFromHead(s: State, chunks: seq<string>)
    requires chunks != [] && s.pending.ReadingHead? && Enabled(s, Receive(chunks[0]))
    requires var (t, hook) := ReadUntil(s.(buffer := s.buffer + chunks[0]));
             if hook.NoHook? then Legal(t, chunks[1..]) else chunks[1..] == []
    ensures Legal(s, chunks)
  {
  }

  lemma FirstChunkFits(s: State, chunks: seq<string>, whole: string)
    requires s.pending.ReadingHead? && Acceptable(s.kind, s.cfg, whole)
    requires chunks != [] && chunks[0] != "" && s.buffer + Cat(chunks) <= whole
    ensures var b := s.buffer + chunks[0];
            b <= whole && b + Cat(chunks[1..]) <= whole && |b| + |Cat(chunks[1..])| <= |whole|
    ensures Enabled(s, Receive(chunks[0]))
  {
    Assoc(s.buffer, chunks[0], Cat(chunks[1..]));
    ShorterPrefix(s.buffer + chunks[0], Cat(chunks[1..]), whole);
    HeadChunkFits(s, chunks[0], whole);
  }

  lemma RestNonEmpty(chunks: seq<string>)
    requires NonEmpty(chunks) && chunks != []
    ensures chunks[0] != "" && NonEmpty(chunks[1..])
  {
  }

  // Any split of an acceptable message, or of a prefix of it, into non-empty chunks is one
  // the session's own reads can produce: nothing else constrains how the network delivers.
  lemma {:induction false} EverySplitIsLegal(s: State, chunks: seq<string>, whole: string)
    requires s.pending.ReadingHead? && TimersFit(s) && NonEmpty(chunks)
    requires Acceptable(s.kind, s.cfg, whole) && s.buffer + Cat(chunks) <= whole
    ensures Legal(s, chunks)
    decreases chunks, 0
  {
    if chunks != [] {
      RestNonEmpty(chunks);
      FirstChunkFits(s, chunks, whole);
      SplitGoesOn(s, s.buffer + chunks[0], chunks[1..], whole);
      LegalFromHead(s, chunks);
    }
  }

  lemma SplitGoesOn(s: State, b: string, rest: seq<string>, whole: string)
    requires s.pending.ReadingHead? && TimersFit(s) && NonEmpty(rest) && |b| <= s.cfg.Capacity()
    requires Acceptable(s.kind, s.cfg, whole) && b <= whole && b + Cat(rest) <= whole
    ensures var (t, hook) := ReadUntil(s.(buffer := b)); if hook.NoHook? then Legal(t, rest) else rest == []
    decreases rest, 1
  {
    if Delimiter(b) < |b| {
      RestAfterHead(s, b, rest, whole);
    } else {
      StillReading(s, b, whole);
      EverySplitIsLegal(s.(buffer := b), rest, whole);
    }
  }

  lemma NothingBefore(all: string)
    ensures "" + all <= all
  {
  }

  lemma FreshSplitIsLegal(s: State, chunks: seq<string>)
    requires Fresh(s) && NonEmpty(chunks) && Acceptable(s.kind, s.cfg, Cat(chunks))
    ensures Legal(s, chunks)
  {
    NothingBefore(Cat(chunks));
    EverySplitIsLegal(s, chunks, Cat(chunks));
  }
}
