/**
 * What the trace itself says about ops in flight: which packet a reply answers, which key
 * checks it, and when an op is due.
 */
module SettlementHistory {
  import opened SettlementModel
  import opened SettlementInvariant
  import opened SettlementRuns
  import opened BigEndian

  // ---- Reading a trace backwards ----

  /** The last thing observed on channel `c`. */
  function LastOn(tr: seq<Obs>, c: nat): Option<Obs>
  {
    if tr == [] then None
    else
      var o := tr[|tr| - 1];
      if !o.Fired? && o.ch == c then Some(o) else LastOn(tr[..|tr| - 1], c)
  }

  /** The last packet that carried op `id`, on any channel. */
  function LastSend(tr: seq<Obs>, id: nat): Option<Obs>
  {
    if tr == [] then None
    else
      var o := tr[|tr| - 1];
      if o.OpSent? && o.id == id then Some(o) else LastSend(tr[..|tr| - 1], id)
  }

  /** The key the last accepted INFO brought to channel `c`. */
  function LastInfo(tr: seq<Obs>, c: nat): Option<Key>
  {
    if tr == [] then None
    else
      var o := tr[|tr| - 1];
      if o.InfoAccepted? && o.ch == c then Some(o.key) else LastInfo(tr[..|tr| - 1], c)
  }

  lemma SnocLast(tr: seq<Obs>, o: Obs, c: nat, id: nat)
    ensures LastOn(tr + [o], c) == if !o.Fired? && o.ch == c then Some(o) else LastOn(tr, c)
    ensures LastSend(tr + [o], id) == if o.OpSent? && o.id == id then Some(o) else LastSend(tr, id)
    ensures LastInfo(tr + [o], c) == if o.InfoAccepted? && o.ch == c then Some(o.key) else LastInfo(tr, c)
  {
    assert (tr + [o])[..|tr|] == tr;
  }

  // ---- The packet in flight ----

  predicate SentAs(o: Obs, i: nat, c: Channel)
    requires c.state.Busy?
  {
    o.OpSent? && o.ch == i && o.id == c.state.op.id && o.kind == c.state.op.kind && o.gpass == c.sentGPass
  }

  /**
   * A busy channel: the last packet of the channel is the last packet of its op, and the key is that
   * of its last INFO.
   */
  predicate WiredAt(c: Channel, i: nat, tr: seq<Obs>)
  {
    && (c.state.Busy? ==>
          && LastOn(tr, i).Some? && SentAs(LastOn(tr, i).value, i, c)
          && LastSend(tr, c.state.op.id) == LastOn(tr, i))
    && (c.state.Busy? || c.state.Ready? ==> LastInfo(tr, i) == Some(c.serverKey))
  }

  ghost predicate Wired(cs: seq<Channel>, tr: seq<Obs>)
  {
    forall i :: 0 <= i < |cs| ==> WiredAt(cs[i], i, tr)
  }

  /** A reply is accepted only for the packet in flight on its channel, under the key of that channel's last INFO. */
  ghost predicate Answers(before: seq<Obs>, o: Obs)
  {
    o.ReplyAccepted? ==>
      && LastOn(before, o.ch).Some? && Matches(LastOn(before, o.ch).value, o)
      && LastSend(before, o.id) == LastOn(before, o.ch)
      && LastInfo(before, o.ch) == Some(o.key)
  }

  /** The packet `sent` is what the reply answers. */
  predicate Matches(sent: Obs, reply: Obs)
    requires reply.ReplyAccepted?
  {
    sent.OpSent? && sent.id == reply.id && sent.kind == reply.kind && sent.gpass == reply.spass
  }

  ghost predicate Answered(tr: seq<Obs>)
  {
    forall k :: 0 <= k < |tr| ==> Answers(tr[..k], tr[k])
  }

  lemma AnsweredSnoc(tr: seq<Obs>, o: Obs)
    requires Answered(tr) && Answers(tr, o)
    ensures Answered(tr + [o])
  {
    var t := tr + [o];
    forall k | 0 <= k < |t| ensures Answers(t[..k], t[k]) {
      assert t[..k] == tr[..k];
    }
  }

  /** Another channel's observation leaves channel `j` alone, unless it sends `j`'s op. */
  lemma WiredAside(c: Channel, j: nat, tr: seq<Obs>, o: Obs)
    requires WiredAt(c, j, tr) && (o.Fired? || o.ch != j)
    requires o.OpSent? && c.state.Busy? ==> o.id != c.state.op.id
    ensures WiredAt(c, j, tr + [o])
  {
    SnocLast(tr, o, j, if c.state.Busy? then c.state.op.id else 0);
  }

  lemma WiredUpdate(cs: seq<Channel>, tr: seq<Obs>, i: nat, c: Channel, o: Obs)
    requires Wired(cs, tr) && i < |cs| && (o.Fired? || o.ch == i) && WiredAt(c, i, tr + [o])
    requires o.OpSent? ==> forall j :: 0 <= j < |cs| && j != i && cs[j].state.Busy? ==> cs[j].state.op.id != o.id
    ensures Wired(cs[i := c], tr + [o])
  {
    var after := cs[i := c];
    forall j | 0 <= j < |after|
      ensures WiredAt(after[j], j, tr + [o])
    {
      if j != i { WiredAside(cs[j], j, tr, o); }
    }
  }

  // ---- When an op is due ----

  datatype Submission = Submission(kind: OpKind, at: int)

  function Due(sub: Submission): int { sub.at + Life(sub.kind) }

  /** Ops and observations agree with the submissions `d`. */
  predicate OpDue(op: Op, submitted: nat, d: nat -> Submission)
  {
    op.id < submitted && op.kind == d(op.id).kind && op.deadline == Due(d(op.id))
  }

  predicate ObsDue(o: Obs, submitted: nat, d: nat -> Submission)
  {
    && (o.OpSent? ==> o.id < submitted && o.kind == d(o.id).kind && o.deadline == Due(d(o.id)))
    && (o.Fired? && o.cause.GaveUp? ==> o.id < submitted && o.cause.deadline == Due(d(o.id)))
  }

  ghost predicate QueueDue(q: seq<Op>, submitted: nat, d: nat -> Submission)
  {
    forall i :: 0 <= i < |q| ==> OpDue(q[i], submitted, d)
  }

  ghost predicate ChannelsDue(cs: seq<Channel>, submitted: nat, d: nat -> Submission)
  {
    forall i :: 0 <= i < |cs| && cs[i].state.Busy? ==> OpDue(cs[i].state.op, submitted, d)
  }

  ghost predicate TraceDue(tr: seq<Obs>, submitted: nat, d: nat -> Submission)
  {
    forall k :: 0 <= k < |tr| ==> ObsDue(tr[k], submitted, d)
  }

  ghost predicate AllDue(s: State, d: nat -> Submission)
  {
    QueueDue(s.queue, s.submitted, d) && ChannelsDue(s.channels, s.submitted, d) && TraceDue(s.trace, s.submitted, d)
  }

  ghost predicate Traced(s: State, d: nat -> Submission)
  {
    Wired(s.channels, s.trace) && Answered(s.trace) && AllDue(s, d)
  }

  // ---- Atomic steps ----

  lemma HandshakeTraced(e: Env, s: State, i: nat, d: nat -> Submission)
    requires Traced(s, d) && i < |s.channels|
    ensures Traced(Handshake(e, s, i), d)
  {
    var t := Handshake(e, s, i);
    var o := t.trace[|s.trace|];
    SnocLast(s.trace, o, i, 0);
    WiredUpdate(s.channels, s.trace, i, t.channels[i], o);
    AnsweredSnoc(s.trace, o);
  }

  lemma SendFrontTraced(e: Env, s: State, i: nat, d: nat -> Submission)
    requires Traced(s, d) && Placed(s) && i < |s.channels| && s.channels[i].state.Ready? && s.queue != []
    ensures Traced(SendFront(e, s, i), d)
  {
    var t := SendFront(e, s, i);
    var o := t.trace[|s.trace|];
    FrontIsAlone(s);
    SnocLast(s.trace, o, i, o.id);
    WiredUpdate(s.channels, s.trace, i, t.channels[i], o);
    AnsweredSnoc(s.trace, o);
  }

  lemma TracedDispatchSafe(e: Env, d: nat -> Submission)
    requires SteadyClock(e)
    ensures DispatchSafe(e, (t: State) => Inv(e, t) && Traced(t, d))
  {
    var p := (t: State) => Inv(e, t) && Traced(t, d);
    forall t: State, j: nat | p(t) && !t.closed && j < |t.channels| && t.channels[j].state.Idle?
      ensures p(Handshake(e, t, j))
    {
      HandshakeKeeps(e, t, j);
      HandshakeTraced(e, t, j, d);
    }
    forall t: State, j: nat | p(t) && !t.closed && t.queue != [] && ReadyAt(t, j)
      ensures p(SendFront(e, t, j))
    {
      SendFrontKeeps(e, t, j);
      SendFrontTraced(e, t, j, d);
    }
  }

  lemma DispatchTraced(e: Env, s: State, d: nat -> Submission)
    requires SteadyClock(e) && Inv(e, s) && Traced(s, d)
    ensures Traced(Dispatch(e, s), d)
  {
    if !s.closed {
      TracedDispatchSafe(e, d);
      DispatchInduct(e, s, 0, (t: State) => Inv(e, t) && Traced(t, d));
    }
  }

  lemma FireTraced(s: State, id: nat, rc: int, paid: nat, cause: Cause, d: nat -> Submission)
    requires Traced(s, d) && (cause.GaveUp? ==> id < s.submitted && cause.deadline == Due(d(id)))
    ensures Traced(Fire(s, id, rc, paid, cause), d)
  {
    var o := Fired(id, rc, paid, cause);
    forall j | 0 <= j < |s.channels|
      ensures WiredAt(s.channels[j], j, s.trace + [o])
    {
      WiredAside(s.channels[j], j, s.trace, o);
    }
    AnsweredSnoc(s.trace, o);
  }

  /** A channel that leaves its op or its ticket behind. */
  lemma ReleaseTraced(s: State, i: nat, c: Channel, d: nat -> Submission)
    requires Traced(s, d) && i < |s.channels| && !c.state.Busy? && !c.state.Ready?
    ensures Traced(s.(channels := s.channels[i := c]), d)
  {
  }

  lemma AcceptInfoTraced(s: State, i: nat, grant: nat, key: Key, d: nat -> Submission)
    requires Traced(s, d) && i < |s.channels|
    ensures Traced(AcceptInfo(s, i, grant, key), d)
  {
    var t := AcceptInfo(s, i, grant, key);
    var o := t.trace[|s.trace|];
    SnocLast(s.trace, o, i, 0);
    WiredUpdate(s.channels, s.trace, i, t.channels[i], o);
    AnsweredSnoc(s.trace, o);
  }

  lemma AcceptReplyTraced(s: State, i: nat, grant: nat, body: seq<byte>, rc: int, paid: nat, d: nat -> Submission)
    requires Traced(s, d) && i < |s.channels| && s.channels[i].state.Busy?
    ensures Traced(AcceptReply(s, i, grant, body, rc, paid), d)
  {
    var c := s.channels[i];
    var op := c.state.op;
    var o := ReplyAccepted(i, op.id, c.sentGPass, grant, op.kind, c.serverKey, body);
    var t := s.(channels := s.channels[i := c.(ticket := grant, state := Ready)], pending := s.pending - 1,
        trace := s.trace + [o]);
    SnocLast(s.trace, o, i, 0);
    WiredUpdate(s.channels, s.trace, i, t.channels[i], o);
    AnsweredSnoc(s.trace, o);
    FireTraced(t, op.id, rc, paid, Replied, d);
  }

  lemma GiveUpTraced(s: State, i: nat, now: int, d: nat -> Submission)
    requires Traced(s, d) && i < |s.channels| && s.channels[i].state.Busy?
    ensures Traced(GiveUp(s, i, now), d)
  {
    var c := s.channels[i];
    ReleaseTraced(s, i, c.(state := Idle), d);
    var t := s.(channels := s.channels[i := c.(state := Idle)], pending := s.pending - 1);
    FireTraced(t, c.state.op.id, CES_ERROR_TIMEOUT, 0, GaveUp(now, c.state.op.deadline), d);
  }

  lemma RetriedOutTraced(s: State, i: nat, now: int, d: nat -> Submission)
    requires Traced(s, d) && i < |s.channels| && s.channels[i].state.Busy?
    ensures Traced(GiveUp(CountRetry(s, i), i, now), d)
  {
    var t := CountRetry(s, i);
    forall j | 0 <= j < |t.channels|
      ensures WiredAt(t.channels[j], j, t.trace)
    {
      assert WiredAt(s.channels[j], j, s.trace);
    }
    GiveUpTraced(t, i, now, d);
  }

  lemma RetryHandshakeTraced(e: Env, s: State, i: nat, now: int, d: nat -> Submission)
    requires Traced(s, d) && i < |s.channels| && s.channels[i].state.Handshaking?
    ensures Traced(RetryHandshake(e, s, i, now), d)
  {
    var t := RetryHandshake(e, s, i, now);
    if t.channels[i].state.Idle? {
      ReleaseTraced(s, i, t.channels[i], d);
    } else {
      AskedTraced(s, i, t.channels[i], t.channels[i].sentGPass, s.drawn + 1, d);
    }
  }

  /** Another request for an INFO goes out. */
  lemma AskedTraced(s: State, i: nat, c: Channel, pw: nat, drawn: nat, d: nat -> Submission)
    requires Traced(s, d) && i < |s.channels| && c.state.Handshaking?
    ensures Traced(s.(channels := s.channels[i := c], drawn := drawn, trace := s.trace + [GetInfoSent(i, pw)]), d)
  {
    var o := GetInfoSent(i, pw);
    SnocLast(s.trace, o, i, 0);
    WiredUpdate(s.channels, s.trace, i, c, o);
    AnsweredSnoc(s.trace, o);
  }

  lemma RequeueTraced(e: Env, s: State, i: nat, d: nat -> Submission)
    requires Traced(s, d) && i < |s.channels| && s.channels[i].state.Busy?
    ensures Traced(Requeue(e, s, i), d)
  {
    HandshakeTraced(e, s.(queue := [s.channels[i].state.op] + s.queue), i, d);
  }

  // ---- Events ----

  lemma SweepChannelTraced(e: Env, s: State, i: nat, now: int, d: nat -> Submission)
    requires Traced(s, d) && i < |s.channels|
    ensures Traced(SweepChannel(e, s, i, now), d)
  {
    var c := s.channels[i];
    match c.state
    case Handshaking => RetryHandshakeTraced(e, s, i, now, d);
    case Busy(op) =>
      if op.deadline != 0 && now >= op.deadline {
        GiveUpTraced(s, i, now, d);
      } else if c.retries + 1 >= e.maxRetries {
        RetriedOutTraced(s, i, now, d);
      } else {
        RequeueTraced(e, s, i, d);
      }
    case _ =>
  }

  lemma {:induction false} SweepFromTraced(e: Env, s: State, i: nat, now: int, d: nat -> Submission)
    requires Traced(s, d) && i <= |s.channels|
    ensures Traced(SweepFrom(e, s, i, now), d)
    decreases |s.channels| - i
  {
    if i < |s.channels| {
      SweepChannelTraced(e, s, i, now, d);
      SweepChannelFrame(e, s, i, now);
      SweepFromTraced(e, SweepChannel(e, s, i, now), i + 1, now, d);
    }
  }

  lemma SweepTraced(e: Env, s: State, d: nat -> Submission)
    requires SteadyClock(e) && RunInv(e, s) && Traced(s, d)
    ensures Traced(SweepAll(e, s), d)
  {
    if !s.closed {
      SweptHolds(e, s);
      SweepFromTraced(e, Ticked(s), 0, e.clock(s.ticks), d);
      DispatchTraced(e, Swept(e, s), d);
    }
  }

  lemma FailChannelTraced(s: State, i: nat, d: nat -> Submission)
    requires Traced(s, d) && i < |s.channels|
    ensures Traced(FailChannel(s, i), d)
  {
    var c := s.channels[i];
    var t := if c.state.Busy? then Fire(s, c.state.op.id, CES_ERROR_INTERNAL, 0, Closed) else s;
    if c.state.Busy? { FireTraced(s, c.state.op.id, CES_ERROR_INTERNAL, 0, Closed, d); }
    ReleaseTraced(t, i, c.(state := Idle), d);
  }

  lemma {:induction false} FailChannelsTraced(s: State, i: nat, d: nat -> Submission)
    requires Traced(s, d) && i <= |s.channels|
    ensures Traced(FailChannels(s, i), d)
    decreases |s.channels| - i
  {
    if i < |s.channels| {
      FailChannelTraced(s, i, d);
      FailChannelsTraced(FailChannel(s, i), i + 1, d);
    }
  }

  lemma {:induction false} FailQueueTraced(s: State, d: nat -> Submission)
    requires Traced(s, d)
    ensures Traced(FailQueue(s), d)
    decreases |s.queue|
  {
    if s.queue != [] {
      FireTraced(s.(queue := s.queue[1..]), s.queue[0].id, CES_ERROR_INTERNAL, 0, Closed, d);
      FailQueueTraced(FailFront(s), d);
    }
  }

  lemma CloseTraced(s: State, d: nat -> Submission)
    requires Traced(s, d)
    ensures Traced(CloseAll(s), d)
  {
    if !s.closed {
      FailChannelsTraced(s.(closed := true, armed := false), 0, d);
      FailQueueTraced(FailChannels(s.(closed := true, armed := false), 0), d);
    }
  }

  lemma InfoTraced(e: Env, s: State, spass: nat, grant: nat, key: Key, d: nat -> Submission)
    requires SteadyClock(e) && RunInv(e, s) && !s.closed && Traced(s, d)
    ensures Traced(OnInfo(e, s, spass, grant, key), d)
  {
    var i := FindWaiting(s.channels, false, spass, 0);
    if i < |s.channels| {
      AcceptInfoKeeps(e, s, i, grant, key);
      AcceptInfoTraced(s, i, grant, key, d);
      DispatchTraced(e, AcceptInfo(s, i, grant, key), d);
    }
  }

  lemma MessageTraced(e: Env, s: State, spass: nat, grant: nat, body: seq<byte>, d: nat -> Submission)
    requires SteadyClock(e) && RunInv(e, s) && !s.closed && Traced(s, d)
    ensures Traced(OnMessage(e, s, spass, grant, body), d)
  {
    var i := FindWaiting(s.channels, true, spass, 0);
    if i < |s.channels| {
      var r := DecodeResult(e, s.channels[i].state.op.kind, s.channels[i].serverKey, body);
      if r.Some? {
        AcceptReplyKeeps(e, s, i, grant, body, r.value.0, r.value.1);
        AcceptReplyTraced(s, i, grant, body, r.value.0, r.value.1, d);
        DispatchTraced(e, AcceptReply(s, i, grant, body, r.value.0, r.value.1), d);
      }
    }
  }

  lemma ReceiveTraced(e: Env, s: State, data: seq<byte>, d: nat -> Submission)
    requires SteadyClock(e) && RunInv(e, s) && Traced(s, d)
    ensures Traced(OnReceive(e, s, data), d)
  {
    if !s.closed && data != [] {
      if data[0] == e.infoCode {
        if |data| >= ENVELOPE_BYTES + KEY_BYTES + 1 {
          InfoTraced(e, s, Get(data[10..18]), Get(data[2..10]), data[18..50], d);
        }
      } else if data[0] == e.messageCode {
        if |data| >= ENVELOPE_BYTES + 1 {
          MessageTraced(e, s, Get(data[10..18]), Get(data[2..10]), data[18..], d);
        }
      }
    }
  }

  lemma SubmitTraced(e: Env, s: State, kind: OpKind, payload: Payload, d: nat -> Submission)
    requires SteadyClock(e) && RunInv(e, s) && Traced(s.(submitted := s.submitted + 1), d)
    requires d(s.submitted) == Submission(kind, e.clock(s.ticks))
    ensures Traced(Submit(e, s, kind, payload), d)
  {
    if Refuses(s, kind) {
      FireTraced(s.(submitted := s.submitted + 1), s.submitted,
                 if s.closed then CES_ERROR_INTERNAL else CES_ERROR_QUEUE_FULL, 0, Rejected, d);
    } else {
      AdmittedTraced(e, s, kind, payload, d);
    }
  }

  lemma AdmittedTraced(e: Env, s: State, kind: OpKind, payload: Payload, d: nat -> Submission)
    requires SteadyClock(e) && RunInv(e, s) && Traced(s.(submitted := s.submitted + 1), d) && !Refuses(s, kind)
    requires d(s.submitted) == Submission(kind, e.clock(s.ticks))
    ensures Traced(Submit(e, s, kind, payload), d)
  {
    EnqueuedReady(e, s, kind, payload);
    EnqueuedTraced(e, s, kind, payload, d);
    DispatchTraced(e, Enqueued(e, s, kind, payload), d);
  }

  lemma EnqueuedTraced(e: Env, s: State, kind: OpKind, payload: Payload, d: nat -> Submission)
    requires Traced(s.(submitted := s.submitted + 1), d) && d(s.submitted) == Submission(kind, e.clock(s.ticks))
    ensures Traced(Enqueued(e, s, kind, payload), d)
  {
  }

  // ---- Every run ----

  function IsSubmit(ev: Event): Option<OpKind>
  {
    match ev
    case SubmitTransfer(_) => Some(OpenTransfer)
    case SubmitGossip(_) => Some(Gossip)
    case _ => None
  }

  /** When and as what op `id` was submitted in this run. */
  function SubmissionOf(e: Env, n: nat, events: seq<Event>, id: nat): Submission
  {
    if events == [] then Submission(OpenTransfer, 0)
    else
      var past, ev := events[..|events| - 1], events[|events| - 1];
      var s := Run(e, n, past);
      if IsSubmit(ev).Some? && s.submitted == id then Submission(IsSubmit(ev).value, e.clock(s.ticks))
      else SubmissionOf(e, n, past, id)
  }

  function Submissions(e: Env, n: nat, events: seq<Event>): nat -> Submission
  {
    (id: nat) => SubmissionOf(e, n, events, id)
  }

  /** Only ids below the count matter. */
  lemma SameBelow(s: State, d: nat -> Submission, d': nat -> Submission, more: nat)
    requires Traced(s, d) && s.submitted <= more && forall id: nat :: id < s.submitted ==> d'(id) == d(id)
    ensures Traced(s.(submitted := more), d')
  {
  }

  lemma SubmitEventTraced(e: Env, n: nat, past: seq<Event>, ev: Event, kind: OpKind, payload: Payload)
    requires SteadyClock(e) && IsSubmit(ev) == Some(kind) && Traced(Run(e, n, past), Submissions(e, n, past))
    requires Step(e, Run(e, n, past), ev) == Submit(e, Run(e, n, past), kind, payload)
    ensures Traced(Run(e, n, past + [ev]), Submissions(e, n, past + [ev]))
  {
    var s, d, d' := Run(e, n, past), Submissions(e, n, past), Submissions(e, n, past + [ev]);
    assert (past + [ev])[..|past|] == past;
    Reachable(e, n, past);
    SameBelow(s, d, d', s.submitted + 1);
    SubmitTraced(e, s, kind, payload, d');
  }

  lemma OtherEventTraced(e: Env, n: nat, past: seq<Event>, ev: Event)
    requires SteadyClock(e) && IsSubmit(ev).None? && Traced(Run(e, n, past), Submissions(e, n, past))
    ensures Traced(Run(e, n, past + [ev]), Submissions(e, n, past + [ev]))
  {
    var s, d, d' := Run(e, n, past), Submissions(e, n, past), Submissions(e, n, past + [ev]);
    assert (past + [ev])[..|past|] == past;
    Reachable(e, n, past);
    SameBelow(s, d, d', s.submitted);
    match ev
    case Receive(data) =>
      ReceiveTraced(e, s, data, d');
    case Sweep => SweepTraced(e, s, d');
    case Close => CloseTraced(s, d');
  }

  lemma {:induction false} RunTraced(e: Env, n: nat, events: seq<Event>)
    requires SteadyClock(e)
    ensures Traced(Run(e, n, events), Submissions(e, n, events))
  {
    if events != [] {
      var past, ev := events[..|events| - 1], events[|events| - 1];
      RunTraced(e, n, past);
      assert past + [ev] == events;
      match ev
      case SubmitTransfer(payload) => SubmitEventTraced(e, n, past, ev, OpenTransfer, payload);
      case SubmitGossip(payload) => SubmitEventTraced(e, n, past, ev, Gossip, payload);
      case _ => OtherEventTraced(e, n, past, ev);
    }
  }

  // ---- Finding the observations ----

  lemma {:induction false} WhenLastOn(tr: seq<Obs>, c: nat) returns (j: nat)
    requires LastOn(tr, c).Some?
    ensures j < |tr| && tr[j] == LastOn(tr, c).value && !tr[j].Fired? && tr[j].ch == c
    ensures forall m :: j < m < |tr| && !tr[m].Fired? ==> tr[m].ch != c
  {
    var n := |tr| - 1;
    if !tr[n].Fired? && tr[n].ch == c { j := n; } else { j := WhenLastOn(tr[..n], c); }
  }

  lemma {:induction false} WhenLastSend(tr: seq<Obs>, id: nat) returns (j: nat)
    requires LastSend(tr, id).Some?
    ensures j < |tr| && tr[j] == LastSend(tr, id).value && tr[j].OpSent? && tr[j].id == id
    ensures forall m :: j < m < |tr| && tr[m].OpSent? ==> tr[m].id != id
  {
    var n := |tr| - 1;
    if tr[n].OpSent? && tr[n].id == id { j := n; } else { j := WhenLastSend(tr[..n], id); }
  }

  lemma {:induction false} WhenLastInfo(tr: seq<Obs>, c: nat) returns (j: nat)
    requires LastInfo(tr, c).Some?
    ensures j < |tr| && tr[j].InfoAccepted? && tr[j].ch == c && tr[j].key == LastInfo(tr, c).value
    ensures forall m :: j < m < |tr| && tr[m].InfoAccepted? ==> tr[m].ch != c
  {
    var n := |tr| - 1;
    if tr[n].InfoAccepted? && tr[n].ch == c { j := n; } else { j := WhenLastInfo(tr[..n], c); }
  }
}
