/** What every run of the settlement client guarantees, stated about its state and trace. */
module SettlementTheorems {
  import opened BigEndian
  import opened SettlementModel
  import opened SettlementInvariant
  import opened SettlementRuns
  import opened SettlementHistory

  // ---- Reading the summaries of a trace ----

  lemma {:induction false} SentAt(tr: seq<Obs>, j: nat, k: nat)
    requires j < k <= |tr| && tr[j].OpSent?
    ensures tr[j].id in SentIds(tr[..k])
    ensures tr[j].at >= tr[j].deadline ==> tr[j].id in LateIds(tr[..k])
  {
    assert tr[..k][..k - 1] == tr[..k - 1];
    if j < k - 1 {
      SentAt(tr, j, k - 1);
    }
  }

  lemma {:induction false} AcceptedAt(tr: seq<Obs>, j: nat, k: nat)
    requires j < k <= |tr| && IsGrant(tr[j])
    ensures tr[j].spass in AcceptedPasswords(tr[..k])
  {
    assert tr[..k][..k - 1] == tr[..k - 1];
    if j < k - 1 {
      AcceptedAt(tr, j, k - 1);
    }
  }

  lemma {:induction false} WhenSent(tr: seq<Obs>, id: nat) returns (j: nat)
    requires id in SentIds(tr)
    ensures j < |tr| && tr[j].OpSent? && tr[j].id == id
  {
    var o := tr[|tr| - 1];
    if o.OpSent? && o.id == id {
      j := |tr| - 1;
    } else {
      j := WhenSent(tr[..|tr| - 1], id);
    }
  }

  // ---- Every op, exactly one place, exactly one callback ----

  lemma EveryOpInOnePlace(e: Env, n: nat, events: seq<Event>, id: nat)
    requires SteadyClock(e)
    ensures var s := Run(e, n, events);
            QueueCount(s.queue, id) + BusyCount(s.channels, id) + FiredCount(s.trace, id)
            == if id < s.submitted then 1 else 0
  {
    Reachable(e, n, events);
    var s := Run(e, n, events);
    assert Places(s.queue, s.channels, s.trace, id) == if id < s.submitted then 1 else 0;
  }

  /** Once closed, every op submitted before or after has been called back exactly once. */
  lemma ClosedMeansCalledBack(e: Env, n: nat, events: seq<Event>, id: nat)
    requires SteadyClock(e)
    ensures var s := Run(e, n, events);
            s.closed && id < s.submitted ==> FiredCount(s.trace, id) == 1
    ensures Step(e, Run(e, n, events), Close).closed
  {
    Reachable(e, n, events);
    EveryOpInOnePlace(e, n, events, id);
    var s := Run(e, n, events);
    CloseKeeps(e, s);
    if s.closed {
      QuietCount(s.channels);
    }
  }

  /**
   * Every accepted reply answers the packet in flight: the last packet of its channel, which
   * is also the last packet of its op, went out at `j` under the password the reply answers.
   * The key that checks the reply is the one brought by the channel's last accepted INFO, at
   * `h`; the client compares it with nothing else.
   */
  lemma RepliesAnswerTheFlight(e: Env, n: nat, events: seq<Event>, k: nat) returns (h: nat, j: nat)
    requires SteadyClock(e)
    requires var tr := Run(e, n, events).trace; k < |tr| && tr[k].ReplyAccepted?
    ensures var tr := Run(e, n, events).trace;
            && h < j < k && Matches(tr[j], tr[k]) && tr[j].ch == tr[k].ch
            && (forall m :: j < m < k && !tr[m].Fired? ==> tr[m].ch != tr[k].ch)
            && (forall m :: j < m < k && tr[m].OpSent? ==> tr[m].id != tr[k].id)
            && tr[h].InfoAccepted? && tr[h].ch == tr[k].ch && tr[h].key == tr[k].key
            && (forall m :: h < m < k && tr[m].InfoAccepted? ==> tr[m].ch != tr[k].ch)
  {
    RunTraced(e, n, events);
    var tr := Run(e, n, events).trace;
    var before := tr[..k];
    assert Answers(before, tr[k]);
    j := WhenLastOn(before, tr[k].ch);
    h := WhenLastInfo(before, tr[k].ch);
    var i := WhenLastSend(before, tr[k].id);
    assert before[i].ch == tr[k].ch && before[j].id == tr[k].id;
    assert forall m :: 0 <= m < k ==> before[m] == tr[m];
  }

  /**
   * A callback reports a payment only right after a reply that was accepted for that very
   * gossip, and the reply body carries the reported code and amount under a signature that
   * checks.  Which packet it answers and which key it checks under: `RepliesAnswerTheFlight`.
   */
  lemma PaidOnlyIfVerified(e: Env, n: nat, events: seq<Event>, k: nat) returns (h: nat, j: nat)
    requires SteadyClock(e)
    requires var tr := Run(e, n, events).trace; k < |tr| && tr[k].Fired? && tr[k].paid != 0
    ensures var tr := Run(e, n, events).trace;
            && h < j && j + 1 < k
            && tr[k].cause == Replied
            && tr[k - 1].ReplyAccepted? && tr[k - 1].id == tr[k].id && tr[k - 1].kind == Gossip
            && Matches(tr[j], tr[k - 1]) && tr[j].ch == tr[k - 1].ch
            && (forall m :: j < m < k - 1 && !tr[m].Fired? ==> tr[m].ch != tr[j].ch)
            && (forall m :: j < m < k - 1 && tr[m].OpSent? ==> tr[m].id != tr[k].id)
            && tr[h].InfoAccepted? && tr[h].ch == tr[j].ch && tr[h].key == tr[k - 1].key
            && (forall m :: h < m < k && tr[m].InfoAccepted? ==> tr[m].ch != tr[j].ch)
            && DecodeResult(e, Gossip, tr[k - 1].key, tr[k - 1].body) == Some((tr[k].rc, tr[k].paid))
            && e.verify(tr[k - 1].key, tr[k - 1].body[..18], tr[k - 1].body[18..])
  {
    PaidAfterReply(e, n, events, k);
    h, j := RepliesAnswerTheFlight(e, n, events, k - 1);
  }

  lemma PaidAfterReply(e: Env, n: nat, events: seq<Event>, k: nat)
    requires SteadyClock(e)
    requires var tr := Run(e, n, events).trace; k < |tr| && tr[k].Fired? && tr[k].paid != 0
    ensures var tr := Run(e, n, events).trace;
            && k > 0 && tr[k].cause == Replied
            && tr[k - 1].ReplyAccepted? && tr[k - 1].id == tr[k].id && tr[k - 1].kind == Gossip
            && DecodeResult(e, Gossip, tr[k - 1].key, tr[k - 1].body) == Some((tr[k].rc, tr[k].paid))
            && e.verify(tr[k - 1].key, tr[k - 1].body[..18], tr[k - 1].body[18..])
  {
    Reachable(e, n, events);
    var tr := Run(e, n, events).trace;
    assert Lawful(e, tr[..k], tr[k]);
    assert tr[..k][k - 1] == tr[k - 1];
  }

  // ---- Order ----

  /** The queue: retried ops, then never-sent ops in acceptance order, a gossip only at their head. */
  lemma QueueShape(e: Env, n: nat, events: seq<Event>) returns (k: nat)
    requires SteadyClock(e)
    ensures var s := Run(e, n, events);
            && k <= |s.queue|
            && (forall i :: 0 <= i < k ==> s.queue[i].id in SentIds(s.trace))
            && (forall i :: k <= i < |s.queue| ==> s.queue[i].id !in SentIds(s.trace))
            && (forall i, j :: k <= i < j < |s.queue| ==> s.queue[i].id < s.queue[j].id)
            && (forall i :: k < i < |s.queue| ==> s.queue[i].kind == OpenTransfer)
  {
    Reachable(e, n, events);
    var s := Run(e, n, events);
    k := SplitPoint(s.queue, SentIds(s.trace), s.submitted);
    forall i | k < i < |s.queue| ensures s.queue[i].kind == OpenTransfer {
      assert s.queue[k].id !in SentIds(s.trace);
    }
  }

  lemma {:induction false} SplitPoint(q: seq<Op>, sent: set<nat>, submitted: nat) returns (k: nat)
    requires Ordered(q, sent, submitted)
    ensures k <= |q|
    ensures forall i :: 0 <= i < |q| ==> (q[i].id in sent <==> i < k)
  {
    if q == [] || q[|q| - 1].id in sent {
      k := |q|;
    } else {
      k := SplitPoint(q[..|q| - 1], sent, submitted);
      assert forall i :: 0 <= i < |q| - 1 ==> q[i] == q[..|q| - 1][i];
    }
  }

  /** First transmissions follow acceptance order. */
  lemma FirstSendsInOrder(e: Env, n: nat, events: seq<Event>, j: nat, k: nat)
    requires SteadyClock(e)
    requires var tr := Run(e, n, events).trace; j < k < |tr| && tr[j].OpSent? && tr[k].OpSent?
    requires var tr := Run(e, n, events).trace; forall i :: 0 <= i < k && tr[i].OpSent? ==> tr[i].id != tr[k].id
    ensures var tr := Run(e, n, events).trace; tr[j].id < tr[k].id
  {
    Reachable(e, n, events);
    var tr := Run(e, n, events).trace;
    assert Lawful(e, tr[..k], tr[k]);
    SentAt(tr, j, k);
    if tr[k].id in SentIds(tr[..k]) {
      var i := WhenSent(tr[..k], tr[k].id);
      assert tr[..k][i] == tr[i];
    }
  }

  // ---- Deadlines ----

  /** Every deadline in the trace is that of its op: the time it was submitted plus the life of its kind. */
  lemma DeadlinesAgree(e: Env, n: nat, events: seq<Event>, k: nat)
    requires SteadyClock(e) && k < |Run(e, n, events).trace|
    ensures var o := Run(e, n, events).trace[k];
      && (o.OpSent? ==>
            && o.kind == SubmissionOf(e, n, events, o.id).kind
            && o.deadline == Due(SubmissionOf(e, n, events, o.id)))
      && (o.Fired? && o.cause.GaveUp? ==> o.cause.deadline == Due(SubmissionOf(e, n, events, o.id)))
  {
    RunTraced(e, n, events);
    assert ObsDue(Run(e, n, events).trace[k], Run(e, n, events).submitted, Submissions(e, n, events));
  }

  /** Whatever is transmitted again was, every time before, transmitted ahead of its deadline. */
  lemma OnlyTheLastSendCanBeLate(e: Env, n: nat, events: seq<Event>, j: nat, k: nat)
    requires SteadyClock(e)
    requires var tr := Run(e, n, events).trace;
             j < k < |tr| && tr[j].OpSent? && tr[k].OpSent? && tr[j].id == tr[k].id
    ensures var tr := Run(e, n, events).trace; tr[j].at < Due(SubmissionOf(e, n, events, tr[j].id))
  {
    Reachable(e, n, events);
    DeadlinesAgree(e, n, events, j);
    var tr := Run(e, n, events).trace;
    assert Lawful(e, tr[..k], tr[k]);
    SentAt(tr, j, k);
  }

  /** The first sweep at or after its deadline ends an op in flight. */
  lemma SweepEndsExpired(e: Env, n: nat, events: seq<Event>, i: nat)
    requires SteadyClock(e)
    requires var s := Run(e, n, events);
             !s.closed && i < |s.channels| && s.channels[i].state.Busy?
                 && e.clock(s.ticks) >= s.channels[i].state.op.deadline
    ensures var s := Run(e, n, events);
            FiredCount(Step(e, s, Sweep).trace, s.channels[i].state.op.id) == 1
  {
    var s := Run(e, n, events);
    var id := s.channels[i].state.op.id;
    Reachable(e, n, events);
    SweptFires(e, s, i);
    assert (events + [Sweep])[..|events|] == events;
    EveryOpInOnePlace(e, n, events + [Sweep], id);
  }

  lemma SweptFires(e: Env, s: State, i: nat)
    requires !s.closed && i < |s.channels| && s.channels[i].state.Busy?
    requires 0 < s.channels[i].state.op.deadline <= e.clock(s.ticks)
    ensures FiredCount(SweepAll(e, s).trace, s.channels[i].state.op.id) >= 1
  {
    SweepFires(e, Ticked(s), 0, i, e.clock(s.ticks));
    var t := Swept(e, s);
    DispatchFromGrows(e, t, 0);
    FiredGrows(t.trace, Dispatch(e, t).trace, s.channels[i].state.op.id);
  }

  lemma {:induction false} DispatchFromGrows(e: Env, s: State, i: nat)
    requires i <= |s.channels|
    ensures s.trace <= DispatchFrom(e, s, i).trace
    decreases |s.channels| - i
  {
    if i < |s.channels| && s.queue != [] {
      match s.channels[i].state
      case Idle => DispatchFromGrows(e, Handshake(e, s, i), i + 1);
      case Ready => DispatchFromGrows(e, SendFront(e, s, i), i + 1);
      case _ => DispatchFromGrows(e, s, i + 1);
    }
  }

  lemma {:induction false} SweepFires(e: Env, s: State, k: nat, i: nat, now: int)
    requires k <= i < |s.channels| && s.channels[i].state.Busy?
    requires 0 < s.channels[i].state.op.deadline <= now
    ensures FiredCount(SweepFrom(e, s, k, now).trace, s.channels[i].state.op.id) >= 1
    decreases i - k
  {
    var t := SweepChannel(e, s, k, now);
    SweepChannelFrame(e, s, k, now);
    if k < i {
      SweepFires(e, t, k + 1, i, now);
    } else {
      ExpiredFires(e, s, i, now);
      SweepFromGrows(e, t, k + 1, now);
      FiredGrows(t.trace, SweepFrom(e, t, k + 1, now).trace, s.channels[i].state.op.id);
    }
  }

  lemma ExpiredFires(e: Env, s: State, i: nat, now: int)
    requires i < |s.channels| && s.channels[i].state.Busy? && 0 < s.channels[i].state.op.deadline <= now
    ensures FiredCount(SweepChannel(e, s, i, now).trace, s.channels[i].state.op.id) >= 1
  {
    var op := s.channels[i].state.op;
    SnocFired(s.trace, Fired(op.id, CES_ERROR_TIMEOUT, 0, GaveUp(now, op.deadline)), op.id);
  }

  lemma {:induction false} SweepFromGrows(e: Env, s: State, i: nat, now: int)
    requires i <= |s.channels|
    ensures s.trace <= SweepFrom(e, s, i, now).trace
    decreases |s.channels| - i
  {
    if i < |s.channels| {
      SweepChannelFrame(e, s, i, now);
      SweepFromGrows(e, SweepChannel(e, s, i, now), i + 1, now);
    }
  }

  // ---- What a sweep does not end ----

  lemma {:induction false} DispatchFromSpares(e: Env, s: State, i: nat, id: nat)
    requires i <= |s.channels|
    ensures FiredCount(DispatchFrom(e, s, i).trace, id) == FiredCount(s.trace, id)
    decreases |s.channels| - i
  {
    if i < |s.channels| && s.queue != [] {
      match s.channels[i].state
      case Idle =>
        SnocFired(s.trace, GetInfoSent(i, e.password(s.drawn)), id);
        DispatchFromSpares(e, Handshake(e, s, i), i + 1, id);
      case Ready =>
        SnocFired(s.trace, SendFront(e, s, i).trace[|s.trace|], id);
        DispatchFromSpares(e, SendFront(e, s, i), i + 1, id);
      case _ => DispatchFromSpares(e, s, i + 1, id);
    }
  }

  lemma SweepChannelSpares(e: Env, s: State, i: nat, now: int, id: nat)
    requires i < |s.channels| && Carries(s.channels[i], id) == 0
    ensures FiredCount(SweepChannel(e, s, i, now).trace, id) == FiredCount(s.trace, id)
  {
    var t := SweepChannel(e, s, i, now);
    if t.trace != s.trace { SnocFired(s.trace, t.trace[|s.trace|], id); }
  }

  lemma {:induction false} SweepFromSpares(e: Env, s: State, i: nat, now: int, id: nat)
    requires i <= |s.channels| && forall j :: i <= j < |s.channels| ==> Carries(s.channels[j], id) == 0
    ensures FiredCount(SweepFrom(e, s, i, now).trace, id) == FiredCount(s.trace, id)
    decreases |s.channels| - i
  {
    if i < |s.channels| {
      SweepChannelSpares(e, s, i, now, id);
      SweepChannelFrame(e, s, i, now);
      SweepFromSpares(e, SweepChannel(e, s, i, now), i + 1, now, id);
    }
  }

  lemma {:induction false} CarriedBy(cs: seq<Channel>, id: nat) returns (i: nat)
    ensures BusyCount(cs, id) == 0 ==> forall j :: 0 <= j < |cs| ==> Carries(cs[j], id) == 0
    ensures BusyCount(cs, id) > 0 ==> i < |cs| && cs[i].state.Busy? && cs[i].state.op.id == id
  {
    i := 0;
    if cs != [] {
      var k := CarriedBy(cs[1..], id);
      if Carries(cs[0], id) == 0 { i := k + 1; }
      assert forall j :: 0 < j < |cs| ==> cs[j] == cs[1..][j - 1];
    }
  }

  /** A sweep never calls back an op that waits in the queue. */
  lemma SweepSparesQueued(e: Env, s: State, id: nat)
    requires BusyCount(s.channels, id) == 0
    ensures FiredCount(SweepAll(e, s).trace, id) == FiredCount(s.trace, id)
  {
    if !s.closed {
      var i := CarriedBy(s.channels, id);
      SweepFromSpares(e, Ticked(s), 0, e.clock(s.ticks), id);
      DispatchFromSpares(e, Swept(e, s), 0, id);
    }
  }

  /**
   * At or after its deadline a pending op is called back by a sweep exactly when it is in
   * flight.  One that waits in the queue goes on waiting.
   */
  lemma SweepEndsOnlyFlights(e: Env, n: nat, events: seq<Event>, id: nat)
    requires SteadyClock(e)
    requires var s := Run(e, n, events);
             && !s.closed && id < s.submitted && FiredCount(s.trace, id) == 0
             && e.clock(s.ticks) >= Due(SubmissionOf(e, n, events, id))
    ensures var s := Run(e, n, events);
            FiredCount(Step(e, s, Sweep).trace, id) == 1 <==> BusyCount(s.channels, id) == 1
  {
    var s := Run(e, n, events);
    EveryOpInOnePlace(e, n, events, id);
    if BusyCount(s.channels, id) == 0 {
      SweepSparesQueued(e, s, id);
    } else {
      var i := CarriedBy(s.channels, id);
      RunTraced(e, n, events);
      assert OpDue(s.channels[i].state.op, s.submitted, Submissions(e, n, events));
      SweepEndsExpired(e, n, events, i);
    }
  }

  /** Nothing ever came from the peer, and the client was not closed. */
  ghost predicate Unheard(events: seq<Event>)
  {
    forall k :: 0 <= k < |events| ==> !events[k].Receive? && !events[k].Close?
  }

  /** Channels that only ever asked. */
  ghost predicate OnlyAsked(s: State)
  {
    && !s.closed
    && (forall i :: 0 <= i < |s.channels| ==> s.channels[i].state.Idle? || s.channels[i].state.Handshaking?)
    && (forall k :: 0 <= k < |s.trace| ==> AskOrRefusal(s.trace[k]))
  }

  predicate AskOrRefusal(o: Obs)
  {
    o.GetInfoSent? || (o.Fired? && o.cause == Rejected)
  }

  lemma {:induction false} DispatchOnlyAsks(e: Env, s: State, i: nat)
    requires OnlyAsked(s) && i <= |s.channels|
    ensures OnlyAsked(DispatchFrom(e, s, i)) && DispatchFrom(e, s, i).queue == s.queue
    decreases |s.channels| - i
  {
    if i < |s.channels| && s.queue != [] {
      if s.channels[i].state.Idle? {
        DispatchOnlyAsks(e, Handshake(e, s, i), i + 1);
      } else {
        DispatchOnlyAsks(e, s, i + 1);
      }
    }
  }

  lemma {:induction false} SweepOnlyAsks(e: Env, s: State, i: nat, now: int)
    requires OnlyAsked(s) && i <= |s.channels|
    ensures OnlyAsked(SweepFrom(e, s, i, now)) && SweepFrom(e, s, i, now).queue == s.queue
    decreases |s.channels| - i
  {
    if i < |s.channels| { SweepOnlyAsks(e, SweepChannel(e, s, i, now), i + 1, now); }
  }

  lemma StepOnlyAsks(e: Env, s: State, ev: Event)
    requires OnlyAsked(s) && !ev.Receive? && !ev.Close?
    ensures OnlyAsked(Step(e, s, ev)) && |s.queue| <= |Step(e, s, ev).queue|
  {
    match ev
    case SubmitTransfer(payload) => SubmitOnlyAsks(e, s, OpenTransfer, payload);
    case SubmitGossip(payload) => SubmitOnlyAsks(e, s, Gossip, payload);
    case Sweep =>
      SweepOnlyAsks(e, Ticked(s), 0, e.clock(s.ticks));
      DispatchOnlyAsks(e, Swept(e, s), 0);
  }

  lemma SubmitOnlyAsks(e: Env, s: State, kind: OpKind, payload: Payload)
    requires OnlyAsked(s)
    ensures OnlyAsked(Submit(e, s, kind, payload)) && |s.queue| <= |Submit(e, s, kind, payload).queue|
  {
    if !Refuses(s, kind) { DispatchOnlyAsks(e, Enqueued(e, s, kind, payload), 0); }
  }

  /**
   * With a peer that never answers the handshake no accepted op is ever sent, nor called back
   * until the client is closed, however many sweeps pass its deadline.
   */
  lemma {:induction false} UnheardWaits(e: Env, n: nat, events: seq<Event>)
    requires Unheard(events)
    ensures OnlyAsked(Run(e, n, events))
  {
    if events != [] {
      UnheardWaits(e, n, events[..|events| - 1]);
      StepOnlyAsks(e, Run(e, n, events[..|events| - 1]), events[|events| - 1]);
    }
  }

  /** An op given up before its deadline: the retry limit must be below 2. */
  lemma NoEarlyGiveUp(e: Env, n: nat, events: seq<Event>, k: nat)
    requires SteadyClock(e) && e.maxRetries >= 2
    requires var tr := Run(e, n, events).trace; k < |tr| && tr[k].Fired? && tr[k].cause.GaveUp?
    ensures var o := Run(e, n, events).trace[k];
            o.rc == CES_ERROR_TIMEOUT && o.paid == 0 && o.cause.at >= Due(SubmissionOf(e, n, events, o.id))
  {
    Reachable(e, n, events);
    DeadlinesAgree(e, n, events, k);
    var tr := Run(e, n, events).trace;
    assert Lawful(e, tr[..k], tr[k]);
  }

  ghost predicate GivesUpEarly(tr: seq<Obs>)
  {
    exists k :: 0 <= k < |tr| && tr[k].Fired? && tr[k].cause.GaveUp? && tr[k].cause.at < tr[k].cause.deadline
  }

  function SlowClock(t: nat): int { if t < 3 then 0 else 4000 * MS }

  function InfoPacket(code: byte): seq<byte>
  {
    [code, 0] + Put(7, 8) + Put(1, 8) + seq(33, _ => 0)
  }

  function SilentPeer(maxRetries: int): Env
  {
    Env((i: nat) => i + 1, SlowClock, (k, b, g) => true, maxRetries, 1, 2)
  }

  const LONG_OP := Op(0, OpenTransfer, [], SETTLEMENT_DEADLINE)

  lemma SilentPeerSubmit(maxRetries: int)
    ensures var s := Step(SilentPeer(maxRetries), Init(1), SubmitTransfer([]));
            && s.channels == [Channel(Handshaking, 0, 1, [], 0, 0)]
            && s.queue == [LONG_OP] && !s.closed && s.ticks == 2 && s.drawn == 1
  {
    var e := SilentPeer(maxRetries);
    var s0 := Init(1);
    assert s0.channels == [NEW_CHANNEL];
    var q := Enqueue(e, s0.(submitted := 1), 0, OpenTransfer, []);
    assert q.queue == [LONG_OP];
    assert DispatchFrom(e, q, 0) == Handshake(e, q, 0);
  }

  lemma SilentPeerInfo(maxRetries: int, s: State)
    requires s.channels == [Channel(Handshaking, 0, 1, [], 0, 0)]
    requires s.queue == [LONG_OP] && !s.closed && s.ticks == 2
    ensures var t := Step(SilentPeer(maxRetries), s, Receive(InfoPacket(1)));
            && |t.channels| == 1 && t.channels[0].state == Busy(LONG_OP) && t.channels[0].retries == 0
            && t.channels[0].sentAt == 0 && t.queue == [] && !t.closed && t.ticks == 3
  {
    var e := SilentPeer(maxRetries);
    var data := InfoPacket(1);
    assert data[10..18] == Put(1, 8);
    Widths();
    GetPut(1, 8);
    assert FindWaiting(s.channels, false, 1, 0) == 0;
    var a := AcceptInfo(s, 0, Get(data[2..10]), data[18..50]);
    assert DispatchFrom(e, a, 0) == SendFront(e, a, 0);
  }

  lemma SilentPeerSweep(maxRetries: int, s: State)
    requires maxRetries <= 1
    requires |s.channels| == 1 && s.channels[0].state == Busy(LONG_OP) && s.channels[0].retries == 0
    requires s.channels[0].sentAt == 0 && s.queue == [] && !s.closed && s.ticks == 3
    ensures GivesUpEarly(Step(SilentPeer(maxRetries), s, Sweep).trace)
  {
    var e := SilentPeer(maxRetries);
    var t := s.(ticks := 4, armed := false);
    var g := SweepChannel(e, t, 0, 4000 * MS);
    assert g == GiveUp(CountRetry(t, 0), 0, 4000 * MS);
    assert SweepFrom(e, t, 0, 4000 * MS) == g;
    assert g.trace[|s.trace|].cause == GaveUp(4000 * MS, SETTLEMENT_DEADLINE);
  }

  /**
   * A retry limit below 2 does give up early: one channel, one transfer, a peer that
   * answers the handshake and then stays silent for four seconds of an hour's deadline.
   */
  lemma LowRetryLimitGivesUpEarly(maxRetries: int)
    requires maxRetries <= 1
    ensures SteadyClock(SilentPeer(maxRetries)) && SilentPeer(maxRetries).maxRetries == maxRetries
    ensures GivesUpEarly(Run(SilentPeer(maxRetries), 1, [SubmitTransfer([]), Receive(InfoPacket(1)), Sweep]).trace)
  {
    var e := SilentPeer(maxRetries);
    var events := [SubmitTransfer([]), Receive(InfoPacket(1)), Sweep];
    SilentPeerSubmit(maxRetries);
    SilentPeerInfo(maxRetries, Step(e, Init(1), events[0]));
    SilentPeerSweep(maxRetries, Step(e, Step(e, Init(1), events[0]), events[1]));
    assert events[..2] == [events[0], events[1]] && events[..2][..1] == [events[0]] && events[..2][..1][..0] == [];
    assert Run(e, 1, events[..2][..1]) == Step(e, Init(1), events[0]);
    assert Run(e, 1, events[..2]) == Step(e, Step(e, Init(1), events[0]), events[1]);
  }

  // ---- Tickets ----

  /** Until close: tickets granted = op packets sent + channels holding one. */
  lemma TicketsConserved(e: Env, n: nat, events: seq<Event>)
    requires SteadyClock(e)
    ensures var s := Run(e, n, events);
            !s.closed ==> GrantCount(s.trace) == SentCount(s.trace) + Count(s.channels, IsReady)
  {
    Reachable(e, n, events);
  }

  /** Op packet `k` carries the ticket granted at `j`, and no packet of that channel went out in between. */
  ghost predicate Spends(tr: seq<Obs>, j: nat, k: nat)
  {
    && j < k < |tr| && IsGrant(tr[j]) && tr[k].OpSent?
    && tr[j].ch == tr[k].ch && tr[j].grant == tr[k].ticket
    && forall i :: j < i < k && tr[i].OpSent? ==> tr[i].ch != tr[k].ch
  }

  lemma {:induction false} UnspentSince(tr: seq<Obs>, c: nat) returns (j: nat)
    requires Unspent(tr, c).Some?
    ensures j < |tr| && IsGrant(tr[j]) && tr[j].ch == c && tr[j].grant == Unspent(tr, c).value
    ensures forall i :: j < i < |tr| && tr[i].OpSent? ==> tr[i].ch != c
  {
    var o := tr[|tr| - 1];
    if IsGrant(o) && o.ch == c {
      j := |tr| - 1;
    } else {
      j := UnspentSince(tr[..|tr| - 1], c);
    }
  }

  /**
   * Every op packet spends the ticket its channel was last granted.  That no ticket is spent
   * by two packets then follows from `Spends` alone.
   */
  lemma TicketSpentOnce(e: Env, n: nat, events: seq<Event>, k: nat) returns (j: nat)
    requires SteadyClock(e)
    requires var tr := Run(e, n, events).trace; k < |tr| && tr[k].OpSent?
    ensures var tr := Run(e, n, events).trace;
            Spends(tr, j, k) && forall m :: Spends(tr, j, m) ==> m == k
  {
    Reachable(e, n, events);
    var tr := Run(e, n, events).trace;
    assert Lawful(e, tr[..k], tr[k]);
    j := UnspentSince(tr[..k], tr[k].ch);
    assert forall i :: 0 <= i < k ==> tr[..k][i] == tr[i];
  }

  /** With fresh passwords, no two accepted replies answer the same password. */
  lemma RepliesAcceptedOnce(e: Env, n: nat, events: seq<Event>, j: nat, k: nat)
    requires SteadyClock(e) && Fresh(e, Run(e, n, events).drawn)
    requires var tr := Run(e, n, events).trace; j < k < |tr| && IsGrant(tr[j]) && IsGrant(tr[k])
    ensures var tr := Run(e, n, events).trace; tr[j].spass != tr[k].spass
  {
    Reachable(e, n, events);
    AcceptedAt(Run(e, n, events).trace, j, k);
  }

  // ---- Progress and load ----

  lemma NoStrandedWork(e: Env, n: nat, events: seq<Event>)
    requires SteadyClock(e)
    ensures var s := Run(e, n, events);
            !s.closed ==>
              && (s.queue != [] ==> forall i :: 0 <= i < |s.channels| ==> Outstanding(s.channels[i]))
              && (s.queue != [] || AnyOutstanding(s.channels) ==> s.armed)
  {
    Reachable(e, n, events);
  }

  function Load(pending: int): int
  {
    if pending >= MAX_QUEUE then 100 else pending * 100 / MAX_QUEUE
  }

  lemma PendingIsExact(e: Env, n: nat, events: seq<Event>)
    requires SteadyClock(e)
    ensures var s := Run(e, n, events);
            && s.pending == |s.queue| + Count(s.channels, IsBusy)
            && 0 <= s.pending <= MAX_QUEUE + n
            && (Load(s.pending) == 0 <==> 100 * s.pending < MAX_QUEUE)
            && (Load(s.pending) == 100 <==> s.pending >= MAX_QUEUE)
  {
    Reachable(e, n, events);
  }
}
