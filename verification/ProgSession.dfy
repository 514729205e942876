/**
 * One bridged socket: messages of the browser become frames toward the program, frames of
 * the program become messages toward the browser, and limits or failures tear it down.
 */
module ProgSession {
  import opened BigEndian
  import opened Framing

  datatype Ip = Ip(text: string)

  datatype Config = Config(
    maxTotal: int, maxPerIp: int, idleMs: int, maxMs: int,
    inputBps: int, maxMsg: nat, maxBytes: int, outBufCap: int)

  /**
   * The last four fields record what passed: bytes written to the program, messages given
   * to the browser's socket, bytes taken from the program, messages taken from the browser.
   */
  datatype Session = Session(
    ip: Ip, handshake: Bytes, down: bool, child: bool, rxBuf: Bytes, pending: seq<Bytes>,
    started: int, lastActive: int, winStart: int, winBytes: nat, totalIn: nat, totalOut: nat,
    toProgram: Bytes, toBrowser: seq<Bytes>, received: Bytes, accepted: seq<Bytes>)

  function NewSession(ip: Ip, handshake: Bytes, now: int): Session
  {
    Session(ip, handshake, false, false, [], [], now, now, now, 0, 0, 0, [], [], [], [])
  }

  /** Tearing down also drops the child. */
  function Down(s: Session): Session { s.(down := true, child := false) }

  function Concat(parts: seq<Bytes>): Bytes
  {
    if parts == [] then [] else Concat(parts[..|parts| - 1]) + parts[|parts| - 1]
  }

  /** The dial has ended; on success the handshake goes first, then what waited for it. */
  function Dialed(s: Session, ok: bool): Session
  {
    if s.down then s
    else if !ok then Down(s)
    else s.(child := true, toProgram := s.toProgram + Frame(s.handshake) + Concat(s.pending), pending := [])
  }

  /** The rate window restarts after a second. */
  function Window(s: Session, now: int): Session
  {
    if now - s.winStart >= 1000 then s.(winStart := now, winBytes := 0) else s
  }

  function FromBrowser(s: Session, data: Bytes, now: int, c: Config): Session
  {
    if s.down then s
    else
      var a := s.(lastActive := now);
      if |data| > c.maxMsg then Down(a)
      else
        var b := Window(a, now).(winBytes := Window(a, now).winBytes + |data|);
        if b.winBytes > c.inputBps then Down(b)
        else
          var t := b.(totalIn := b.totalIn + |data|);
          if t.totalIn > c.maxBytes then Down(t) else Forward(t, data)
  }

  function Forward(s: Session, data: Bytes): Session
  {
    if s.child then s.(accepted := s.accepted + [data], toProgram := s.toProgram + Frame(data))
    else s.(accepted := s.accepted + [data], pending := s.pending + [Frame(data)])
  }

  /** The de-framing loop; `amount(n)` is what the browser's socket still buffers before message `n`. */
  function Drain(s: Session, amount: nat -> int, c: Config): Session
    decreases |s.rxBuf|
  {
    match First(s.rxBuf, c.maxMsg)
    case Incomplete => s
    case TooLong => Down(s)
    case Whole(payload, rest) =>
      var t := s.(rxBuf := rest);
      if amount(|s.toBrowser|) > c.outBufCap then Down(t)
      else Drain(t.(toBrowser := s.toBrowser + [payload]), amount, c)
  }

  function FromProgram(s: Session, d: Bytes, now: int, amount: nat -> int, c: Config): Session
  {
    if s.down then s
    else
      var t := s.(lastActive := now, totalOut := s.totalOut + |d|);
      if t.totalOut > c.maxBytes then Down(t) else Drain(Took(s, d, now), amount, c)
  }

  /** The chunk is counted and appended. */
  function Took(s: Session, d: Bytes, now: int): Session
  {
    s.(lastActive := now, totalOut := s.totalOut + |d|, rxBuf := s.rxBuf + d, received := s.received + d)
  }

  function Expire(s: Session, now: int, c: Config): Session
  {
    if s.down then s
    else if now - s.lastActive > c.idleMs || now - s.started > c.maxMs then Down(s)
    else s
  }

  // ---- Toward the program ----

  function FramesOf(messages: seq<Bytes>): (r: seq<Bytes>)
    ensures |r| == |messages|
  {
    seq(|messages|, i requires 0 <= i < |messages| => Frame(messages[i]))
  }

  /** Nothing before the dial; then the handshake and every accepted message, in arrival order. */
  ghost predicate Ordered(s: Session)
  {
    && (s.child ==> s.toProgram == Frame(s.handshake) + Frames(s.accepted) && s.pending == [] && !s.down)
    && (!s.child && !s.down ==> s.toProgram == [] && s.pending == FramesOf(s.accepted))
    && (s.toProgram == [] || s.toProgram == Frame(s.handshake) + Frames(s.accepted))
  }

  lemma {:induction false} ConcatFrames(messages: seq<Bytes>)
    ensures Concat(FramesOf(messages)) == Frames(messages)
  {
    if messages != [] {
      var front, last := messages[..|messages| - 1], messages[|messages| - 1];
      ConcatFrames(front);
      assert FramesOf(messages)[..|messages| - 1] == FramesOf(front);
      FramesSnoc(front, last);
      assert messages == front + [last];
    }
  }

  lemma DialedOrdered(s: Session, ok: bool)
    requires Ordered(s) && !s.child
    ensures Ordered(Dialed(s, ok))
  {
    ConcatFrames(s.accepted);
  }

  lemma ForwardOrdered(s: Session, data: Bytes)
    requires Ordered(s) && !s.down
    ensures Ordered(Forward(s, data))
  {
    FramesSnoc(s.accepted, data);
    assert FramesOf(s.accepted + [data]) == FramesOf(s.accepted) + [Frame(data)];
    if s.child {
      assert Frame(s.handshake) + Frames(s.accepted) + Frame(data)
          == Frame(s.handshake) + (Frames(s.accepted) + Frame(data));
    }
  }

  lemma FromBrowserOrdered(s: Session, data: Bytes, now: int, c: Config)
    requires Ordered(s)
    ensures Ordered(FromBrowser(s, data, now, c))
  {
    if !s.down {
      var b := Window(s.(lastActive := now), now);
      var t := b.(winBytes := b.winBytes + |data|, totalIn := b.totalIn + |data|);
      ForwardOrdered(t, data);
    }
  }

  // ---- Toward the browser ----

  /** The browser was given exactly the messages in what the program sent; `rxBuf` is the rest. */
  ghost predicate Synced(s: Session, c: Config)
  {
    s.down || Deframe(s.received, c.maxMsg) == Scan(s.toBrowser, s.rxBuf, false)
  }

  /** Even a session torn down half-way was only ever given a start of those messages. */
  ghost predicate Faithful(s: Session, c: Config)
  {
    s.toBrowser <= Deframe(s.received, c.maxMsg).payloads
  }

  ghost predicate Quiet(amount: nat -> int, c: Config)
  {
    forall n :: amount(n) <= c.outBufCap
  }

  /** Fields the de-framing loop does not touch. */
  ghost predicate OnlyDelivers(s: Session, t: Session)
  {
    t == s.(rxBuf := t.rxBuf, toBrowser := t.toBrowser, down := t.down, child := t.child)
    && (t.down || t.child == s.child)
    && (t.down ==> !t.child)
  }

  lemma {:induction false} DrainDelivers(s: Session, amount: nat -> int, c: Config)
    requires !s.down
    ensures var t := Drain(s, amount, c); var d := Deframe(s.rxBuf, c.maxMsg);
      && OnlyDelivers(s, t)
      && s.toBrowser <= t.toBrowser <= s.toBrowser + d.payloads
      && (!t.down ==> t.toBrowser == s.toBrowser + d.payloads && t.rxBuf == d.rest && !d.bad)
      && (Quiet(amount, c) ==> t.down == d.bad)
    decreases |s.rxBuf|
  {
    var f := First(s.rxBuf, c.maxMsg);
    if f.Whole? {
      DeframeWhole(s.rxBuf, c.maxMsg, f.payload, f.rest);
      var n := s.(rxBuf := f.rest, toBrowser := s.toBrowser + [f.payload]);
      if amount(|s.toBrowser|) <= c.outBufCap {
        DrainDelivers(n, amount, c);
        Regroup3(s.toBrowser, f.payload, Deframe(f.rest, c.maxMsg).payloads);
      }
    }
  }

  lemma Regroup3(a: seq<Bytes>, b: Bytes, rest: seq<Bytes>)
    ensures a + [b] + rest == a + ([b] + rest)
  {
  }

  /** A scan of the stream so far, and the bytes that came after it. */
  lemma StreamGrows(stream: Bytes, d: Bytes, out: seq<Bytes>, buf: Bytes, cap: nat)
    requires Deframe(stream, cap) == Scan(out, buf, false)
    ensures Deframe(stream + d, cap) == Joined(Scan(out, buf, false), Deframe(buf + d, cap))
  {
    DeframeResumes(stream, d, cap);
  }

  lemma DrainSynced(t: Session, amount: nat -> int, c: Config)
    requires !t.down
    requires Deframe(t.received, c.maxMsg) == Joined(Scan(t.toBrowser, [], false), Deframe(t.rxBuf, c.maxMsg))
    ensures Synced(Drain(t, amount, c), c) && Faithful(Drain(t, amount, c), c)
  {
    DrainDelivers(t, amount, c);
  }

  lemma FromProgramSynced(s: Session, d: Bytes, now: int, amount: nat -> int, c: Config)
    requires Synced(s, c) && Faithful(s, c)
    ensures var t := FromProgram(s, d, now, amount, c);
      Synced(t, c) && Faithful(t, c)
  {
    if !s.down && s.totalOut + |d| <= c.maxBytes {
      StreamGrows(s.received, d, s.toBrowser, s.rxBuf, c.maxMsg);
      DrainSynced(Took(s, d, now), amount, c);
    }
  }

  lemma FromProgramOrdered(s: Session, d: Bytes, now: int, amount: nat -> int, c: Config)
    requires Ordered(s)
    ensures Ordered(FromProgram(s, d, now, amount, c))
  {
    if !s.down && s.totalOut + |d| <= c.maxBytes {
      DrainDelivers(Took(s, d, now), amount, c);
    }
  }

  // ---- Every history of a session ----

  datatype Event =
    | Dial(ok: bool)
    | Message(data: Bytes, at: int)
    | Chunk(bytes: Bytes, at: int, amount: nat -> int)
    | Tick(at: int)
    | Close

  /** The dial ends once; everything else may come at any time. */
  predicate Possible(s: Session, e: Event) { e.Dial? ==> !s.child }

  function Step(s: Session, e: Event, c: Config): Session
  {
    match e
    case Dial(ok) => Dialed(s, ok)
    case Message(data, at) => FromBrowser(s, data, at, c)
    case Chunk(bytes, at, amount) => FromProgram(s, bytes, at, amount, c)
    case Tick(at) => Expire(s, at, c)
    case Close => if s.down then s else Down(s)
  }

  ghost predicate Short(messages: seq<Bytes>, cap: nat)
  {
    forall i :: 0 <= i < |messages| ==> |messages[i]| <= cap
  }

  /** Limits that hold while the socket is up. */
  ghost predicate WithinLimits(s: Session, c: Config)
  {
    && Short(s.accepted, c.maxMsg)
    && (!s.down ==> |s.received| == s.totalOut && (s.totalOut <= c.maxBytes || s.totalOut == 0))
    && (!s.down ==> |Concat(s.accepted)| == s.totalIn && (s.totalIn <= c.maxBytes || s.accepted == []))
    && (!s.down ==> s.winBytes <= c.inputBps || s.accepted == [])
  }

  ghost predicate Inv(s: Session, c: Config)
  {
    Ordered(s) && Synced(s, c) && Faithful(s, c) && WithinLimits(s, c)
  }

  lemma ForwardLimits(s: Session, t: Session, data: Bytes, c: Config)
    requires WithinLimits(s, c) && |data| <= c.maxMsg && !s.down
    requires t == s.(winBytes := t.winBytes, winStart := t.winStart, lastActive := t.lastActive,
        totalIn := s.totalIn + |data|)
    requires t.totalIn <= c.maxBytes && t.winBytes <= c.inputBps
    ensures WithinLimits(Forward(t, data), c)
  {
    MessageAdded(s.accepted, data, c.maxMsg);
  }

  lemma MessageAdded(messages: seq<Bytes>, data: Bytes, cap: nat)
    requires Short(messages, cap) && |data| <= cap
    ensures Short(messages + [data], cap) && |Concat(messages + [data])| == |Concat(messages)| + |data|
  {
    assert (messages + [data])[..|messages|] == messages;
  }

  lemma FromBrowserLimits(s: Session, data: Bytes, now: int, c: Config)
    requires WithinLimits(s, c)
    ensures WithinLimits(FromBrowser(s, data, now, c), c)
  {
    if !s.down && |data| <= c.maxMsg {
      var b := Window(s.(lastActive := now), now);
      var t := b.(winBytes := b.winBytes + |data|, totalIn := b.totalIn + |data|);
      if t.winBytes <= c.inputBps && t.totalIn <= c.maxBytes { ForwardLimits(s, t, data, c); }
    }
  }

  /** The browser's messages do not touch the other direction. */
  lemma FromBrowserSynced(s: Session, data: Bytes, now: int, c: Config)
    ensures var t := FromBrowser(s, data, now, c);
      t.received == s.received && t.toBrowser == s.toBrowser && t.rxBuf == s.rxBuf && (s.down ==> t.down)
  {
  }

  lemma MessageKeeps(s: Session, data: Bytes, now: int, c: Config)
    requires Inv(s, c)
    ensures Inv(FromBrowser(s, data, now, c), c)
  {
    FromBrowserOrdered(s, data, now, c);
    FromBrowserLimits(s, data, now, c);
    FromBrowserSynced(s, data, now, c);
  }

  lemma FromProgramLimits(s: Session, d: Bytes, now: int, amount: nat -> int, c: Config)
    requires WithinLimits(s, c)
    ensures WithinLimits(FromProgram(s, d, now, amount, c), c)
  {
    if !s.down && s.totalOut + |d| <= c.maxBytes {
      DrainDelivers(Took(s, d, now), amount, c);
    }
  }

  lemma ChunkKeeps(s: Session, d: Bytes, now: int, amount: nat -> int, c: Config)
    requires Inv(s, c)
    ensures Inv(FromProgram(s, d, now, amount, c), c)
  {
    FromProgramOrdered(s, d, now, amount, c);
    FromProgramSynced(s, d, now, amount, c);
    FromProgramLimits(s, d, now, amount, c);
  }

  lemma DialKeeps(s: Session, ok: bool, c: Config)
    requires Inv(s, c) && !s.child
    ensures Inv(Dialed(s, ok), c)
  {
    DialedOrdered(s, ok);
  }

  lemma StepKeeps(s: Session, e: Event, c: Config)
    requires Inv(s, c) && Possible(s, e)
    ensures Inv(Step(s, e, c), c)
  {
    match e
    case Dial(ok) => DialKeeps(s, ok, c);
    case Message(data, at) => MessageKeeps(s, data, at, c);
    case Chunk(bytes, at, amount) => ChunkKeeps(s, bytes, at, amount, c);
    case Tick(at) =>
    case Close =>
  }

  ghost predicate IsHistory(events: seq<Event>, start: Session, c: Config, s: Session)
  {
    if events == [] then s == start
    else
      var past, e := events[..|events| - 1], events[|events| - 1];
      exists p :: IsHistory(past, start, c, p) && Leads(p, e, c, s)
  }

  ghost predicate Leads(p: Session, e: Event, c: Config, s: Session)
  {
    Possible(p, e) && s == Step(p, e, c)
  }

  lemma NewSessionInv(ip: Ip, handshake: Bytes, now: int, c: Config)
    ensures Inv(NewSession(ip, handshake, now), c)
  {
  }

  lemma {:induction false} HistoryKeeps(events: seq<Event>, start: Session, c: Config, s: Session)
    requires IsHistory(events, start, c, s) && Inv(start, c)
    ensures Inv(s, c)
  {
    if events != [] {
      var past, e := events[..|events| - 1], events[|events| - 1];
      var p :| IsHistory(past, start, c, p) && Leads(p, e, c, s);
      HistoryKeeps(past, start, c, p);
      StepKeeps(p, e, c);
    }
  }

  /**
   * In every history: toward the program the handshake comes first and then the accepted
   * messages in order, whenever the dial completes; toward the browser goes exactly what the
   * program framed.
   */
  lemma BridgeIsFaithful(events: seq<Event>, ip: Ip, handshake: Bytes, now: int, c: Config, s: Session)
    requires IsHistory(events, NewSession(ip, handshake, now), c, s)
    ensures s.toProgram == [] || s.toProgram == Frame(s.handshake) + Frames(s.accepted)
    ensures s.child ==> s.toProgram != []
    ensures !s.down ==> Frames(s.toBrowser) + s.rxBuf == s.received
    ensures s.toBrowser <= Deframe(s.received, c.maxMsg).payloads
  {
    NewSessionInv(ip, handshake, now, c);
    HistoryKeeps(events, NewSession(ip, handshake, now), c, s);
    DeframeCuts(s.received, c.maxMsg);
  }

  // ---- Cutting the stream ----

  lemma {:induction false} BadStays(buf: Bytes, more: Bytes, cap: nat)
    requires Deframe(buf, cap).bad
    ensures Deframe(buf + more, cap).bad
    decreases |buf|
  {
    FirstGrows(buf, more, cap);
    var f := First(buf, cap);
    if f.Whole? { BadStays(f.rest, more, cap); }
  }

  function FeedAll(s: Session, chunks: seq<Bytes>, at: nat -> int, amount: nat -> int, c: Config): Session
  {
    if chunks == [] then s
    else
      var n := |chunks| - 1;
      FromProgram(FeedAll(s, chunks[..n], at, amount, c), chunks[n], at(n), amount, c)
  }

  lemma {:induction false} FedSoFar(s: Session, chunks: seq<Bytes>, later: Bytes, at: nat -> int,
      amount: nat -> int, c: Config)
    requires !s.down && s.received == [] && s.rxBuf == [] && s.toBrowser == [] && s.totalOut == 0
    requires Quiet(amount, c) && |Concat(chunks) + later| <= c.maxBytes
    requires !Deframe(Concat(chunks) + later, c.maxMsg).bad
    ensures var t := FeedAll(s, chunks, at, amount, c); var d := Deframe(Concat(chunks), c.maxMsg);
      && !t.down && t.received == Concat(chunks) && t.totalOut == |t.received|
      && d == Scan(t.toBrowser, t.rxBuf, false)
  {
    if chunks != [] {
      var n := |chunks| - 1;
      var front, last := Concat(chunks[..n]), chunks[n];
      assert front + (last + later) == front + last + later;
      FedSoFar(s, chunks[..n], last + later, at, amount, c);
      var p := FeedAll(s, chunks[..n], at, amount, c);
      FeedOne(p, last, later, at(n), amount, c);
    }
  }

  lemma FeedOne(p: Session, d: Bytes, later: Bytes, now: int, amount: nat -> int, c: Config)
    requires !p.down && p.totalOut == |p.received| && Quiet(amount, c)
    requires Deframe(p.received, c.maxMsg) == Scan(p.toBrowser, p.rxBuf, false)
    requires |p.received + d| <= c.maxBytes && !Deframe(p.received + d + later, c.maxMsg).bad
    ensures var t := FromProgram(p, d, now, amount, c);
      && !t.down && t.received == p.received + d && t.totalOut == |t.received|
      && Deframe(t.received, c.maxMsg) == Scan(t.toBrowser, t.rxBuf, false)
  {
    var t := Took(p, d, now);
    if Deframe(p.received + d, c.maxMsg).bad { BadStays(p.received + d, later, c.maxMsg); }
    DeframeResumes(p.received, d, c.maxMsg);
    DrainDelivers(t, amount, c);
  }

  /**
   * Every list of messages within the cap, however its framed bytes are cut into chunks,
   * is delivered whole and in order with nothing left, if the byte limit and the browser's
   * buffer allow it.
   */
  lemma ChunkingIsInvisible(s: Session, payloads: seq<Bytes>, chunks: seq<Bytes>, at: nat -> int,
      amount: nat -> int, c: Config)
    requires !s.down && s.received == [] && s.rxBuf == [] && s.toBrowser == [] && s.totalOut == 0
    requires c.maxMsg < Pow256(4) && forall i :: 0 <= i < |payloads| ==> |payloads[i]| <= c.maxMsg
    requires Concat(chunks) == Frames(payloads) && |Frames(payloads)| <= c.maxBytes && Quiet(amount, c)
    ensures var t := FeedAll(s, chunks, at, amount, c);
      !t.down && t.toBrowser == payloads && t.rxBuf == []
  {
    RoundTrip(payloads, c.maxMsg);
    assert Concat(chunks) + [] == Concat(chunks);
    FedSoFar(s, chunks, [], at, amount, c);
  }
}
