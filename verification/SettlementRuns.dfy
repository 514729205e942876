/** Safety of the settlement client over whole runs, against any packets. */
module SettlementRuns {
  import opened BigEndian
  import opened SettlementModel
  import opened SettlementInvariant

  // ---- Invariants that hold between events ----

  /** Nothing waits while a channel could take it, and work in progress keeps the timer armed. */
  ghost predicate Live(s: State)
  {
    && (s.queue != [] ==> forall i :: 0 <= i < |s.channels| ==> Outstanding(s.channels[i]))
    && (s.queue != [] || AnyOutstanding(s.channels) ==> s.armed)
  }

  ghost predicate Quiet(cs: seq<Channel>)
  {
    forall i :: 0 <= i < |cs| ==> cs[i].state.Idle?
  }

  ghost predicate RunInv(e: Env, s: State)
  {
    && Inv(e, s)
    && Counted(s)
    && Settled(s)
  }

  /** Closed and empty, or open with nothing stranded. */
  ghost predicate Settled(s: State)
  {
    if s.closed then s.queue == [] && Quiet(s.channels) else Live(s)
  }

  /** `t` is a later state of the same client: nothing observed is unobserved. */
  ghost predicate Later(s: State, t: State)
  {
    && |t.channels| == |s.channels|
    && t.closed == s.closed
    && t.submitted == s.submitted
    && s.trace <= t.trace
  }

  lemma {:induction false} FiredGrows(tr: seq<Obs>, more: seq<Obs>, id: nat)
    requires tr <= more
    ensures FiredCount(tr, id) <= FiredCount(more, id)
  {
    if tr != more {
      FiredGrows(tr, more[..|more| - 1], id);
    }
  }

  // ---- Dispatch ----

  lemma HandshakeCounted(e: Env, s: State, i: nat)
    requires Counted(s) && i < |s.channels| && !s.channels[i].state.Busy?
    ensures Counted(Handshake(e, s, i))
  {
    CountUpdate(s.channels, i, Handshake(e, s, i).channels[i], IsBusy);
  }

  lemma SendFrontCounted(e: Env, s: State, i: nat)
    requires Counted(s) && i < |s.channels| && !s.channels[i].state.Busy? && s.queue != []
    ensures Counted(SendFront(e, s, i))
  {
    CountUpdate(s.channels, i, SendFront(e, s, i).channels[i], IsBusy);
  }

  lemma {:induction false} DispatchFromCounted(e: Env, s: State, i: nat)
    requires Counted(s) && i <= |s.channels|
    ensures Counted(DispatchFrom(e, s, i))
    decreases |s.channels| - i
  {
    if i < |s.channels| && s.queue != [] {
      match s.channels[i].state
      case Idle =>
        HandshakeCounted(e, s, i);
        DispatchFromCounted(e, Handshake(e, s, i), i + 1);
      case Ready =>
        SendFrontCounted(e, s, i);
        DispatchFromCounted(e, SendFront(e, s, i), i + 1);
      case _ => DispatchFromCounted(e, s, i + 1);
    }
  }

  /** A property that opening a handshake and sending the front op keep. */
  ghost predicate DispatchSafe(e: Env, p: State -> bool)
  {
    && (forall t: State, j: nat :: p(t) && !t.closed && j < |t.channels| && t.channels[j].state.Idle? ==>
          p(Handshake(e, t, j)))
    && (forall t: State, j: nat :: p(t) && !t.closed && t.queue != [] && ReadyAt(t, j) ==> p(SendFront(e, t, j)))
  }

  predicate ReadyAt(s: State, i: nat)
  {
    i < |s.channels| && s.channels[i].state.Ready?
  }

  lemma {:induction false} DispatchInduct(e: Env, s: State, i: nat, p: State -> bool)
    requires p(s) && DispatchSafe(e, p) && !s.closed && i <= |s.channels|
    ensures p(DispatchFrom(e, s, i))
    decreases |s.channels| - i
  {
    if i < |s.channels| && s.queue != [] {
      match s.channels[i].state
      case Idle => DispatchInduct(e, Handshake(e, s, i), i + 1, p);
      case Ready => DispatchInduct(e, SendFront(e, s, i), i + 1, p);
      case _ => DispatchInduct(e, s, i + 1, p);
    }
  }

  lemma InvDispatchSafe(e: Env)
    requires SteadyClock(e)
    ensures DispatchSafe(e, (t: State) => Inv(e, t))
  {
    var p := (t: State) => Inv(e, t);
    forall t: State, j: nat | p(t) && !t.closed && j < |t.channels| && t.channels[j].state.Idle?
      ensures p(Handshake(e, t, j))
    {
      HandshakeKeeps(e, t, j);
    }
    forall t: State, j: nat | p(t) && !t.closed && t.queue != [] && ReadyAt(t, j)
      ensures p(SendFront(e, t, j))
    {
      SendFrontKeeps(e, t, j);
    }
  }

  lemma DispatchFromKeeps(e: Env, s: State, i: nat)
    requires SteadyClock(e) && Inv(e, s) && !s.closed && i <= |s.channels|
    ensures Inv(e, DispatchFrom(e, s, i))
  {
    InvDispatchSafe(e);
    DispatchInduct(e, s, i, (t: State) => Inv(e, t));
  }

  lemma {:induction false} DispatchFromLive(e: Env, s: State, i: nat)
    requires i <= |s.channels|
    requires AnyOutstanding(s.channels) ==> s.armed
    ensures var t := DispatchFrom(e, s, i);
            && Later(s, t)
            && (AnyOutstanding(t.channels) ==> t.armed)
            && (forall j :: 0 <= j < i ==> t.channels[j] == s.channels[j])
            && (t.queue != [] ==> forall j :: i <= j < |t.channels| ==> Outstanding(t.channels[j]))
    decreases |s.channels| - i
  {
    if i < |s.channels| && s.queue != [] {
      match s.channels[i].state
      case Idle => DispatchFromLive(e, Handshake(e, s, i), i + 1);
      case Ready => DispatchFromLive(e, SendFront(e, s, i), i + 1);
      case _ => DispatchFromLive(e, s, i + 1);
    }
  }

  lemma DispatchKeeps(e: Env, s: State)
    requires SteadyClock(e) && Inv(e, s) && Counted(s) && !s.closed
    requires AnyOutstanding(s.channels) ==> s.armed
    ensures RunInv(e, Dispatch(e, s)) && Later(s, Dispatch(e, s)) && !Dispatch(e, s).closed
  {
    DispatchFromKeeps(e, s, 0);
    DispatchFromCounted(e, s, 0);
    DispatchFromLive(e, s, 0);
  }

  // ---- Submission and receive ----

  lemma {:induction false} CountBound(cs: seq<Channel>, f: Channel -> bool)
    ensures Count(cs, f) <= |cs|
  {
    if cs != [] {
      CountBound(cs[1..], f);
    }
  }

  lemma RefusalKeeps(e: Env, s: State)
    requires RunInv(e, s)
    ensures RunInv(e, Refusal(s)) && |Refusal(s).channels| == |s.channels|
  {
    RejectKeeps(e, s);
    RefusalLive(s);
  }

  lemma RefusalLive(s: State)
    requires Counted(s) && Settled(s)
    ensures Counted(Refusal(s)) && Settled(Refusal(s))
  {
  }

  lemma EnqueuedReady(e: Env, s: State, kind: OpKind, payload: Payload)
    requires SteadyClock(e) && RunInv(e, s) && !Refuses(s, kind)
    ensures var t := Enqueued(e, s, kind, payload);
      && Inv(e, t) && Counted(t) && !t.closed && |t.channels| == |s.channels|
      && (AnyOutstanding(t.channels) ==> t.armed)
  {
    EnqueueKeeps(e, s, kind, payload);
    CountBound(s.channels, IsBusy);
  }

  lemma AdmittedKeeps(e: Env, s: State, kind: OpKind, payload: Payload)
    requires SteadyClock(e) && RunInv(e, s) && !Refuses(s, kind)
    ensures var t := Dispatch(e, Enqueued(e, s, kind, payload)); RunInv(e, t) && |t.channels| == |s.channels|
  {
    EnqueuedReady(e, s, kind, payload);
    DispatchKeeps(e, Enqueued(e, s, kind, payload));
  }

  lemma SubmitKeeps(e: Env, s: State, kind: OpKind, payload: Payload)
    requires SteadyClock(e) && RunInv(e, s)
    ensures RunInv(e, Submit(e, s, kind, payload)) && |Submit(e, s, kind, payload).channels| == |s.channels|
  {
    if Refuses(s, kind) { RefusalKeeps(e, s); } else { AdmittedKeeps(e, s, kind, payload); }
  }

  lemma InfoKeeps(e: Env, s: State, data: seq<byte>)
    requires SteadyClock(e) && RunInv(e, s) && !s.closed
    ensures RunInv(e, HandleInfo(e, s, data)) && |HandleInfo(e, s, data).channels| == |s.channels|
  {
    if |data| >= ENVELOPE_BYTES + KEY_BYTES + 1 {
      OnInfoKeeps(e, s, Get(data[10..18]), Get(data[2..10]), data[18..50]);
    }
  }

  lemma OnInfoKeeps(e: Env, s: State, spass: nat, grant: nat, key: Key)
    requires SteadyClock(e) && RunInv(e, s) && !s.closed
    ensures RunInv(e, OnInfo(e, s, spass, grant, key)) && |OnInfo(e, s, spass, grant, key).channels| == |s.channels|
  {
    var i := FindWaiting(s.channels, false, spass, 0);
    if i < |s.channels| { GrantedKeeps(e, s, i, grant, key); }
  }

  lemma GrantedKeeps(e: Env, s: State, i: nat, grant: nat, key: Key)
    requires SteadyClock(e) && RunInv(e, s) && !s.closed && i < |s.channels| && s.channels[i].state.Handshaking?
    ensures RunInv(e, Dispatch(e, AcceptInfo(s, i, grant, key)))
    ensures |Dispatch(e, AcceptInfo(s, i, grant, key)).channels| == |s.channels|
  {
    AcceptInfoKeeps(e, s, i, grant, key);
    CountUpdate(s.channels, i, AcceptInfo(s, i, grant, key).channels[i], IsBusy);
    assert Outstanding(s.channels[i]);
    DispatchKeeps(e, AcceptInfo(s, i, grant, key));
  }

  lemma AcceptReplyCounted(s: State, i: nat, grant: nat, body: seq<byte>, rc: int, paid: nat)
    requires Counted(s) && i < |s.channels| && s.channels[i].state.Busy?
    ensures Counted(AcceptReply(s, i, grant, body, rc, paid))
  {
    CountUpdate(s.channels, i, AcceptReply(s, i, grant, body, rc, paid).channels[i], IsBusy);
  }

  lemma ReplyKeeps(e: Env, s: State, i: nat, grant: nat, body: seq<byte>, rc: int, paid: nat)
    requires SteadyClock(e) && RunInv(e, s) && i < |s.channels| && s.channels[i].state.Busy? && !s.closed
    requires DecodeResult(e, s.channels[i].state.op.kind, s.channels[i].serverKey, body) == Some((rc, paid))
    ensures RunInv(e, Dispatch(e, AcceptReply(s, i, grant, body, rc, paid)))
    ensures |Dispatch(e, AcceptReply(s, i, grant, body, rc, paid)).channels| == |s.channels|
  {
    AcceptReplyKeeps(e, s, i, grant, body, rc, paid);
    AcceptReplyCounted(s, i, grant, body, rc, paid);
    assert Outstanding(s.channels[i]);
    DispatchKeeps(e, AcceptReply(s, i, grant, body, rc, paid));
  }

  lemma MessageKeeps(e: Env, s: State, data: seq<byte>)
    requires SteadyClock(e) && RunInv(e, s) && !s.closed
    ensures RunInv(e, HandleMessage(e, s, data)) && |HandleMessage(e, s, data).channels| == |s.channels|
  {
    if |data| >= ENVELOPE_BYTES + 1 {
      OnMessageKeeps(e, s, Get(data[10..18]), Get(data[2..10]), data[18..]);
    }
  }

  lemma OnMessageKeeps(e: Env, s: State, spass: nat, grant: nat, body: seq<byte>)
    requires SteadyClock(e) && RunInv(e, s) && !s.closed
    ensures RunInv(e, OnMessage(e, s, spass, grant, body))
        && |OnMessage(e, s, spass, grant, body).channels| == |s.channels|
  {
    var i := FindWaiting(s.channels, true, spass, 0);
    if i < |s.channels| {
      var r := DecodeResult(e, s.channels[i].state.op.kind, s.channels[i].serverKey, body);
      if r.Some? { ReplyKeeps(e, s, i, grant, body, r.value.0, r.value.1); }
    }
  }

  lemma ReceiveKeeps(e: Env, s: State, data: seq<byte>)
    requires SteadyClock(e) && RunInv(e, s)
    ensures RunInv(e, OnReceive(e, s, data)) && |OnReceive(e, s, data).channels| == |s.channels|
  {
    if s.closed || data == [] {
    } else if data[0] == e.infoCode {
      InfoKeeps(e, s, data);
    } else if data[0] == e.messageCode {
      MessageKeeps(e, s, data);
    }
  }

  // ---- Sweep ----

  lemma SweepChannelKeeps(e: Env, s: State, i: nat, now: int)
    requires SteadyClock(e) && Inv(e, s) && i < |s.channels| && now <= e.clock(s.ticks)
    requires Outstanding(s.channels[i]) ==> s.channels[i].sentAt <= now
    ensures Inv(e, SweepChannel(e, s, i, now))
  {
    match s.channels[i].state
    case Handshaking => RetryHandshakeKeeps(e, s, i, now);
    case Busy(op) => SweepBusyKeeps(e, s, i, now);
    case _ =>
  }

  /** Whatever each way a sweep may treat a busy channel keeps, the sweep of that channel keeps. */
  lemma SweepBusyCases(e: Env, s: State, i: nat, now: int, p: State -> bool)
    requires i < |s.channels| && s.channels[i].state.Busy? && p(s)
    requires Expired(s.channels[i], now) ==> p(GiveUp(s, i, now))
    requires !Expired(s.channels[i], now) ==> p(RetryBusy(e, s, i, now))
    ensures p(SweepChannel(e, s, i, now))
  {
  }

  predicate Expired(c: Channel, now: int)
    requires c.state.Busy?
  {
    c.state.op.deadline != 0 && now >= c.state.op.deadline
  }

  /** No reply for a while, and the deadline is ahead. */
  function RetryBusy(e: Env, s: State, i: nat, now: int): State
    requires i < |s.channels| && s.channels[i].state.Busy?
  {
    if s.channels[i].retries + 1 >= e.maxRetries then GiveUp(CountRetry(s, i), i, now) else Requeue(e, s, i)
  }

  lemma RetryBusyKeeps(e: Env, s: State, i: nat, now: int)
    requires SteadyClock(e) && Inv(e, s) && i < |s.channels| && s.channels[i].state.Busy?
    requires s.channels[i].sentAt <= now && !Expired(s.channels[i], now)
    ensures Inv(e, RetryBusy(e, s, i, now))
  {
    if s.channels[i].retries + 1 >= e.maxRetries {
      RetriedOutKeeps(e, s, i, now);
    } else {
      RequeueKeeps(e, s, i, now);
    }
  }

  lemma SweepBusyKeeps(e: Env, s: State, i: nat, now: int)
    requires SteadyClock(e) && Inv(e, s) && i < |s.channels| && s.channels[i].state.Busy?
    requires s.channels[i].sentAt <= now
    ensures Inv(e, SweepChannel(e, s, i, now))
  {
    if Expired(s.channels[i], now) { GiveUpKeeps(e, s, i, now); } else { RetryBusyKeeps(e, s, i, now); }
    SweepBusyCases(e, s, i, now, (t: State) => Inv(e, t));
  }

  lemma SweepChannelCounted(e: Env, s: State, i: nat, now: int)
    requires Counted(s) && i < |s.channels|
    ensures Counted(SweepChannel(e, s, i, now))
  {
    var t := SweepChannel(e, s, i, now);
    if t != s {
      CountUpdate(s.channels, i, t.channels[i], IsBusy);
      SweepChannelMoves(e, s, i, now);
    }
  }

  /** Sweeping a channel takes an op out of flight exactly when it is given up or requeued. */
  lemma SweepChannelMoves(e: Env, s: State, i: nat, now: int)
    requires i < |s.channels| && SweepChannel(e, s, i, now) != s
    ensures var t := SweepChannel(e, s, i, now);
            && t.channels == s.channels[i := t.channels[i]]
            && !t.channels[i].state.Busy?
            && t.pending - |t.queue| == s.pending - |s.queue| - (if s.channels[i].state.Busy? then 1 else 0)
            && t.pending <= s.pending
  {
  }

  lemma SweepChannelFrame(e: Env, s: State, i: nat, now: int)
    requires i < |s.channels|
    ensures var t := SweepChannel(e, s, i, now);
            && Later(s, t)
            && s.ticks <= t.ticks
            && (forall j :: 0 <= j < |s.channels| && j != i ==> t.channels[j] == s.channels[j])
            && (!Outstanding(s.channels[i]) ==> t == s)
  {
  }

  /** In flight means never retried on this channel, so only a retry limit below 2 ends an op early. */
  lemma RetriedOutKeeps(e: Env, s: State, i: nat, now: int)
    requires SteadyClock(e) && Inv(e, s) && i < |s.channels| && s.channels[i].state.Busy?
    requires s.channels[i].retries + 1 >= e.maxRetries
    ensures Inv(e, GiveUp(CountRetry(s, i), i, now))
  {
    GiveUpKeeps(e, s, i, now);
    var g := GiveUp(s, i, now);
    var c := g.channels[i].(retries := g.channels[i].retries + 1);
    IdleRetries(e, g, i, c);
    assert g.channels[i := c] == GiveUp(CountRetry(s, i), i, now).channels;
  }

  lemma IdleRetries(e: Env, s: State, i: nat, c: Channel)
    requires SteadyClock(e) && Inv(e, s) && i < |s.channels|
    requires s.channels[i].state.Idle? && c == s.channels[i].(retries := c.retries)
    ensures Inv(e, s.(channels := s.channels[i := c]))
  {
    var t := s.(channels := s.channels[i := c]);
    forall id: nat ensures Places(t.queue, t.channels, t.trace, id) == Places(s.queue, s.channels, s.trace, id) {
      BusyUpdate(s.channels, i, c, id);
    }
    CountUpdate(s.channels, i, c, IsReady);
    QuietUpdate(e, s, i, c, s.ticks);
    if Fresh(e, s.drawn) {
      UnansweredRelease(s.channels, Drawn(e, s.drawn), AcceptedPasswords(s.trace), i, c);
    }
  }

  ghost predicate SentBy(cs: seq<Channel>, i: nat, now: int)
  {
    forall j :: i <= j < |cs| && Outstanding(cs[j]) ==> cs[j].sentAt <= now
  }

  lemma {:induction false} SweepFromCounted(e: Env, s: State, i: nat, now: int)
    requires Counted(s) && i <= |s.channels|
    ensures Counted(SweepFrom(e, s, i, now)) && Later(s, SweepFrom(e, s, i, now))
    decreases |s.channels| - i
  {
    if i < |s.channels| {
      SweepChannelCounted(e, s, i, now);
      SweepChannelFrame(e, s, i, now);
      SweepFromCounted(e, SweepChannel(e, s, i, now), i + 1, now);
    }
  }

  lemma {:induction false} SweepFromKeeps(e: Env, s: State, i: nat, now: int)
    requires SteadyClock(e) && Inv(e, s) && i <= |s.channels| && now <= e.clock(s.ticks)
    requires SentBy(s.channels, i, now)
    ensures Inv(e, SweepFrom(e, s, i, now))
    decreases |s.channels| - i
  {
    if i < |s.channels| {
      SweepChannelKeeps(e, s, i, now);
      SweepChannelFrame(e, s, i, now);
      assert e.clock(s.ticks) <= e.clock(SweepChannel(e, s, i, now).ticks);
      SweepFromKeeps(e, SweepChannel(e, s, i, now), i + 1, now);
    }
  }

  /** The state in which the sweep handler looks at the channels. */
  function Ticked(s: State): State { s.(ticks := s.ticks + 1, armed := false) }

  lemma TickKeeps(e: Env, s: State)
    requires SteadyClock(e) && Inv(e, s)
    ensures Inv(e, Ticked(s)) && SentBy(s.channels, 0, e.clock(s.ticks)) && e.clock(s.ticks) <= e.clock(s.ticks + 1)
  {
    assert e.clock(s.ticks) <= e.clock(Ticked(s).ticks);
  }

  function Swept(e: Env, s: State): State
  {
    SweepFrom(e, Ticked(s), 0, e.clock(s.ticks))
  }

  lemma SweptInv(e: Env, s: State)
    requires SteadyClock(e) && Inv(e, s)
    ensures Inv(e, Swept(e, s))
  {
    TickKeeps(e, s);
    SweepFromKeeps(e, Ticked(s), 0, e.clock(s.ticks));
  }

  lemma SweptHolds(e: Env, s: State)
    requires SteadyClock(e) && Inv(e, s) && Counted(s) && !s.closed
    ensures var t := Swept(e, s);
            && Inv(e, t) && Counted(t) && !t.closed && |t.channels| == |s.channels|
            && (AnyOutstanding(s.channels) || !AnyOutstanding(t.channels))
  {
    SweptInv(e, s);
    SweepFromCounted(e, Ticked(s), 0, e.clock(s.ticks));
    SweptQuiet(e, s);
  }

  lemma SweptQuiet(e: Env, s: State)
    ensures AnyOutstanding(s.channels) || !AnyOutstanding(Swept(e, s).channels)
  {
    if !AnyOutstanding(s.channels) {
      NothingToSweep(e, Ticked(s), 0, e.clock(s.ticks));
    }
  }

  lemma {:induction false} NothingToSweep(e: Env, s: State, i: nat, now: int)
    requires i <= |s.channels| && !AnyOutstanding(s.channels)
    ensures SweepFrom(e, s, i, now) == s
    decreases |s.channels| - i
  {
    if i < |s.channels| {
      SweepChannelFrame(e, s, i, now);
      NothingToSweep(e, s, i + 1, now);
    }
  }

  lemma SweepKeeps(e: Env, s: State)
    requires SteadyClock(e) && RunInv(e, s)
    ensures RunInv(e, SweepAll(e, s)) && |SweepAll(e, s).channels| == |s.channels|
  {
    if !s.closed {
      SweptHolds(e, s);
      SweptKeeps(e, AnyOutstanding(s.channels), Swept(e, s));
    }
  }

  lemma SweptKeeps(e: Env, active: bool, t: State)
    requires SteadyClock(e) && Inv(e, t) && Counted(t) && !t.closed
    requires active || !AnyOutstanding(t.channels)
    ensures var u := Dispatch(e, t);
            RunInv(e, if active || u.queue != [] then u.(armed := true) else u) && |u.channels| == |t.channels|
  {
    if active {
      ArmedLast(e, t);
    } else {
      DispatchKeeps(e, t);
    }
  }

  /** Arming the timer before or after dispatch makes no difference. */
  lemma ArmedLast(e: Env, t: State)
    requires SteadyClock(e) && Inv(e, t) && Counted(t) && !t.closed
    ensures Dispatch(e, t).(armed := true) == Dispatch(e, t.(armed := true)).(armed := true)
    ensures RunInv(e, Dispatch(e, t).(armed := true))
    ensures Later(t, Dispatch(e, t))
  {
    var u := t.(armed := true);
    DispatchKeeps(e, u);
    DispatchArmed(e, t, 0);
  }

  lemma {:induction false} DispatchArmed(e: Env, t: State, i: nat)
    requires i <= |t.channels|
    ensures DispatchFrom(e, t, i).(armed := true) == DispatchFrom(e, t.(armed := true), i).(armed := true)
    decreases |t.channels| - i
  {
    if i < |t.channels| && t.queue != [] {
      match t.channels[i].state
      case Idle => 
        assert Handshake(e, t, i) == Handshake(e, t.(armed := true), i);
      case Ready =>
        assert SendFront(e, t, i) == SendFront(e, t.(armed := true), i);
      case _ => DispatchArmed(e, t, i + 1);
    }
  }

  // ---- Close ----

  lemma {:induction false} FailChannelsInduct(s: State, i: nat, p: State -> bool)
    requires p(s) && s.closed && i <= |s.channels|
    requires forall t: State, j: nat :: p(t) && t.closed && j < |t.channels| ==> p(FailChannel(t, j))
    ensures p(FailChannels(s, i)) && FailChannels(s, i).closed
    decreases |s.channels| - i
  {
    if i < |s.channels| { FailChannelsInduct(FailChannel(s, i), i + 1, p); }
  }

  lemma FailChannelsKeeps(e: Env, s: State, i: nat)
    requires SteadyClock(e) && Inv(e, s) && s.closed && i <= |s.channels|
    ensures Inv(e, FailChannels(s, i)) && FailChannels(s, i).closed
  {
    var p := (t: State) => Inv(e, t);
    forall t: State, j: nat | p(t) && t.closed && j < |t.channels|
      ensures p(FailChannel(t, j))
    {
      FailChannelKeeps(e, t, j);
    }
    FailChannelsInduct(s, i, p);
  }

  lemma {:induction false} FailChannelsFrame(s: State, i: nat)
    requires i <= |s.channels| && Quiet(s.channels[..i])
    ensures var t := FailChannels(s, i);
      t.submitted == s.submitted && Quiet(t.channels) && s.trace <= t.trace && |t.channels| == |s.channels|
    decreases |s.channels| - i
  {
    if i < |s.channels| {
      var t := FailChannel(s, i);
      assert t.channels[..i + 1] == s.channels[..i] + [t.channels[i]];
      FailChannelsFrame(t, i + 1);
    } else {
      assert s.channels[..i] == s.channels;
    }
  }

  lemma {:induction false} FailQueueKeeps(e: Env, s: State)
    requires Inv(e, s) && s.closed
    ensures var t := FailQueue(s);
            Inv(e, t) && t.closed && t.submitted == s.submitted && t.queue == []
            && t.channels == s.channels && s.trace <= t.trace
    decreases |s.queue|
  {
    if s.queue != [] {
      FailFrontKeeps(e, s);
      FailQueueKeeps(e, FailFront(s));
    }
  }

  lemma {:induction false} QuietCount(cs: seq<Channel>)
    requires Quiet(cs)
    ensures Count(cs, IsBusy) == 0
    ensures forall id :: BusyCount(cs, id) == 0
  {
    if cs != [] {
      QuietCount(cs[1..]);
    }
  }

  lemma CloseKeeps(e: Env, s: State)
    requires SteadyClock(e) && RunInv(e, s)
    ensures RunInv(e, CloseAll(s)) && CloseAll(s).closed && |CloseAll(s).channels| == |s.channels|
  {
    if !s.closed {
      var s1 := s.(closed := true, armed := false);
      FailChannelsKeeps(e, s1, 0);
      FailChannelsFrame(s1, 0);
      var t := FailChannels(s1, 0);
      FailQueueKeeps(e, t);
      var u := FailQueue(t);
      QuietCount(u.channels);
    }
  }

  // ---- Every reachable state ----

  lemma StepKeeps(e: Env, s: State, ev: Event)
    requires SteadyClock(e) && RunInv(e, s)
    ensures RunInv(e, Step(e, s, ev)) && |Step(e, s, ev).channels| == |s.channels|
  {
    match ev
    case SubmitTransfer(payload) => SubmitKeeps(e, s, OpenTransfer, payload);
    case SubmitGossip(payload) => SubmitKeeps(e, s, Gossip, payload);
    case Receive(data) => ReceiveKeeps(e, s, data);
    case Sweep => SweepKeeps(e, s);
    case Close => CloseKeeps(e, s);
  }

  lemma InitHolds(e: Env, n: nat)
    requires SteadyClock(e)
    ensures RunInv(e, Init(n))
  {
    var s := Init(n);
    NoneBusy(s.channels);
    assert forall id: nat :: Places(s.queue, s.channels, s.trace, id) == 0;
  }

  lemma {:induction false} NoneBusy(cs: seq<Channel>)
    requires Quiet(cs)
    ensures Count(cs, IsBusy) == 0 && Count(cs, IsReady) == 0
    ensures forall id :: BusyCount(cs, id) == 0
  {
    if cs != [] {
      NoneBusy(cs[1..]);
    }
  }

  lemma {:induction false} Reachable(e: Env, n: nat, events: seq<Event>)
    requires SteadyClock(e)
    ensures RunInv(e, Run(e, n, events)) && |Run(e, n, events).channels| == n
  {
    if events == [] {
      InitHolds(e, n);
    } else {
      Reachable(e, n, events[..|events| - 1]);
      StepKeeps(e, Run(e, n, events[..|events| - 1]), events[|events| - 1]);
    }
  }
}
