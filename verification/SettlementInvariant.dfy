/** The invariant of the settlement client and its preservation by every atomic step. */
module SettlementInvariant {
  import opened BigEndian
  import opened SettlementModel

  // ---- Assumptions on the environment ----

  /** The steady clock starts at or after its epoch and never goes back. */
  ghost predicate SteadyClock(e: Env)
  {
    forall t: nat, u: nat :: t <= u ==> 0 <= e.clock(t) <= e.clock(u)
  }

  /** The first `n` passwords drawn are pairwise different. */
  ghost predicate Fresh(e: Env, n: nat)
  {
    forall i: nat, j: nat :: i < j < n ==> e.password(i) != e.password(j)
  }

  ghost function Drawn(e: Env, n: nat): set<nat>
  {
    set i | 0 <= i < n :: e.password(i)
  }

  // ---- Where the ops are ----

  function QueueCount(q: seq<Op>, id: nat): nat
  {
    if q == [] then 0 else (if q[0].id == id then 1 else 0) + QueueCount(q[1..], id)
  }

  function Carries(c: Channel, id: nat): nat
  {
    if c.state.Busy? && c.state.op.id == id then 1 else 0
  }

  function BusyCount(cs: seq<Channel>, id: nat): nat
  {
    if cs == [] then 0 else Carries(cs[0], id) + BusyCount(cs[1..], id)
  }

  /** In how many places op `id` is: queued, in flight, or called back. */
  function Places(q: seq<Op>, cs: seq<Channel>, tr: seq<Obs>, id: nat): nat
  {
    QueueCount(q, id) + BusyCount(cs, id) + FiredCount(tr, id)
  }

  function Count(cs: seq<Channel>, f: Channel -> bool): nat
  {
    if cs == [] then 0 else (if f(cs[0]) then 1 else 0) + Count(cs[1..], f)
  }

  predicate IsBusy(c: Channel) { c.state.Busy? }

  predicate IsReady(c: Channel) { c.state.Ready? }

  // ---- The invariant ----

  /** Every submitted op is in exactly one place: queued, in flight, or called back once. */
  ghost predicate Placed(s: State)
  {
    OnePlaceEach(s.queue, s.channels, s.trace, s.submitted)
  }

  ghost predicate OnePlaceEach(q: seq<Op>, cs: seq<Channel>, tr: seq<Obs>, submitted: nat)
  {
    forall id: nat :: Places(q, cs, tr, id) == if id < submitted then 1 else 0
  }

  ghost predicate Counted(s: State)
  {
    && s.pending == |s.queue| + Count(s.channels, IsBusy)
    && s.pending <= MAX_QUEUE + |s.channels|
  }

  /** What channel `c` still has to spend, going by the trace, is the ticket it holds. */
  ghost predicate Ticketed(cs: seq<Channel>, tr: seq<Obs>)
  {
    && GrantCount(tr) == SentCount(tr) + Count(cs, IsReady)
    && forall c :: 0 <= c < |cs| ==> Unspent(tr, c) == if cs[c].state.Ready? then Some(cs[c].ticket) else None
  }

  /** Retried ops first, then never-sent ops in acceptance order, a gossip only at their head. */
  ghost predicate Ordered(q: seq<Op>, sent: set<nat>, submitted: nat)
  {
    && (forall i, j :: 0 <= i < j < |q| && q[j].id in sent ==> q[i].id in sent)
    && (forall i, j :: 0 <= i < j < |q| && q[i].id !in sent ==> q[i].id < q[j].id && q[j].kind == OpenTransfer)
    && (forall i, a :: 0 <= i < |q| && q[i].id !in sent && a in sent ==> a < q[i].id)
    && (forall i :: 0 <= i < |q| ==> q[i].id < submitted)
    && (forall a :: a in sent ==> a < submitted)
  }

  ghost predicate InFlight(cs: seq<Channel>, sent: set<nat>, under: set<(nat, OpKind, nat)>)
  {
    forall i :: 0 <= i < |cs| && cs[i].state.Busy? ==>
      && cs[i].retries == 0
      && cs[i].state.op.id in sent
      && (cs[i].state.op.id, cs[i].state.op.kind, cs[i].sentGPass) in under
  }

  ghost predicate TimelyQueue(q: seq<Op>, late: set<nat>)
  {
    forall i :: 0 <= i < |q| ==> q[i].deadline > 0 && q[i].id !in late
  }

  /** Only the last transmission of an op in flight can have been late. */
  ghost predicate TimelyChannels(cs: seq<Channel>, late: set<nat>, clock: int)
  {
    && (forall i :: 0 <= i < |cs| && Outstanding(cs[i]) ==> cs[i].sentAt <= clock)
    && (forall i :: 0 <= i < |cs| && cs[i].state.Busy? ==>
          && cs[i].state.op.deadline > 0
          && (cs[i].state.op.id in late ==> cs[i].sentAt >= cs[i].state.op.deadline))
  }

  /** The passwords out on the wire are different, were drawn, and are still unanswered. */
  ghost predicate Unanswered(cs: seq<Channel>, drawn: set<nat>, accepted: set<nat>)
  {
    && accepted <= drawn
    && (forall i :: 0 <= i < |cs| && Outstanding(cs[i]) ==> cs[i].sentGPass in drawn && cs[i].sentGPass !in accepted)
    && (forall i, j :: 0 <= i < j < |cs| && Outstanding(cs[i]) && Outstanding(cs[j]) ==>
          cs[i].sentGPass != cs[j].sentGPass)
  }

  /** No password of ours is answered twice. */
  ghost predicate NoRepeat(tr: seq<Obs>)
  {
    forall k :: 0 <= k < |tr| && IsGrant(tr[k]) ==> tr[k].spass !in AcceptedPasswords(tr[..k])
  }

  /** What may be observed next, given what was observed before. */
  ghost predicate Lawful(e: Env, before: seq<Obs>, o: Obs)
  {
    match o
    case GetInfoSent(_, _) => true
    case OpSent(c, id, _, _, ticket, _, _) =>
      && Unspent(before, c) == Some(ticket)
      && FiredCount(before, id) == 0
      && id !in LateIds(before)
      && (id !in SentIds(before) ==> forall a :: a in SentIds(before) ==> a < id)
    case InfoAccepted(_, _, _, _) => true
    case ReplyAccepted(_, id, spass, _, kind, key, body) =>
      && (id, kind, spass) in SentUnder(before)
      && FiredCount(before, id) == 0
      && DecodeResult(e, kind, key, body).Some?
    case Fired(id, rc, paid, cause) =>
      && FiredCount(before, id) == 0
      && match cause
         case Rejected => paid == 0 && id !in SentIds(before)
             && (rc == CES_ERROR_INTERNAL || rc == CES_ERROR_QUEUE_FULL)
         case Replied =>
           && before != []
           && var last := before[|before| - 1];
              last.ReplyAccepted? && last.id == id
              && DecodeResult(e, last.kind, last.key, last.body) == Some((rc, paid))
         case GaveUp(at, deadline) =>
           && paid == 0 && rc == CES_ERROR_TIMEOUT
           && (at >= deadline || e.maxRetries <= 1)
         case Closed => paid == 0 && rc == CES_ERROR_INTERNAL
  }

  ghost predicate Chronicle(e: Env, tr: seq<Obs>)
  {
    forall k :: 0 <= k < |tr| ==> Lawful(e, tr[..k], tr[k])
  }

  ghost predicate Inv(e: Env, s: State)
  {
    && Placed(s)
    && (!s.closed ==> Ticketed(s.channels, s.trace))
    && Ordered(s.queue, SentIds(s.trace), s.submitted)
    && InFlight(s.channels, SentIds(s.trace), SentUnder(s.trace))
    && TimelyQueue(s.queue, LateIds(s.trace))
    && TimelyChannels(s.channels, LateIds(s.trace), e.clock(s.ticks))
    && (Fresh(e, s.drawn) ==> Unanswered(s.channels, Drawn(e, s.drawn), AcceptedPasswords(s.trace)))
    && (Fresh(e, s.drawn) ==> NoRepeat(s.trace))
    && Chronicle(e, s.trace)
  }

  // ---- Bookkeeping lemmas ----

  lemma Snoc(tr: seq<Obs>, o: Obs)
    ensures (tr + [o])[..|tr|] == tr
    ensures GrantCount(tr + [o]) == GrantCount(tr) + if IsGrant(o) then 1 else 0
    ensures SentCount(tr + [o]) == SentCount(tr) + if o.OpSent? then 1 else 0
    ensures AcceptedPasswords(tr + [o])
        == if IsGrant(o) then AcceptedPasswords(tr) + {o.spass} else AcceptedPasswords(tr)
    ensures SentIds(tr + [o]) == if o.OpSent? then SentIds(tr) + {o.id} else SentIds(tr)
    ensures SentUnder(tr + [o]) == if o.OpSent? then SentUnder(tr) + {(o.id, o.kind, o.gpass)} else SentUnder(tr)
    ensures LateIds(tr + [o]) == if o.OpSent? && o.at >= o.deadline then LateIds(tr) + {o.id} else LateIds(tr)
  {
    assert (tr + [o])[..|tr|] == tr;
  }

  lemma SnocFired(tr: seq<Obs>, o: Obs, id: nat)
    ensures FiredCount(tr + [o], id) == FiredCount(tr, id) + if o.Fired? && o.id == id then 1 else 0
  {
    assert (tr + [o])[..|tr|] == tr;
  }

  lemma SnocUnspent(tr: seq<Obs>, o: Obs)
    ensures forall c :: Unspent(tr + [o], c) == (
                          if IsGrant(o) && o.ch == c then Some(o.grant)
                          else if o.OpSent? && o.ch == c then None
                          else Unspent(tr, c))
  {
    assert (tr + [o])[..|tr|] == tr;
  }

  lemma SnocChronicle(e: Env, tr: seq<Obs>, o: Obs)
    requires Chronicle(e, tr) && Lawful(e, tr, o)
    ensures Chronicle(e, tr + [o])
  {
    var t := tr + [o];
    forall k | 0 <= k < |t| ensures Lawful(e, t[..k], t[k]) {
      assert t[..k] == tr[..k];
    }
  }

  lemma SnocNoRepeat(tr: seq<Obs>, o: Obs)
    requires NoRepeat(tr) && (IsGrant(o) ==> o.spass !in AcceptedPasswords(tr))
    ensures NoRepeat(tr + [o])
  {
    var t := tr + [o];
    forall k | 0 <= k < |t| && IsGrant(t[k]) ensures t[k].spass !in AcceptedPasswords(t[..k]) {
      assert t[..k] == tr[..k];
    }
  }

  lemma {:induction false} CountUpdate(cs: seq<Channel>, i: nat, c: Channel, f: Channel -> bool)
    requires i < |cs|
    ensures Count(cs[i := c], f) == Count(cs, f) - (if f(cs[i]) then 1 else 0) + (if f(c) then 1 else 0)
  {
    if i == 0 {
      assert cs[0 := c][1..] == cs[1..];
    } else {
      assert cs[i := c][1..] == cs[1..][i - 1 := c];
      CountUpdate(cs[1..], i - 1, c, f);
    }
  }

  lemma {:induction false} BusyUpdate(cs: seq<Channel>, i: nat, c: Channel, id: nat)
    requires i < |cs|
    ensures BusyCount(cs[i := c], id) == BusyCount(cs, id) - Carries(cs[i], id) + Carries(c, id)
  {
    if i == 0 {
      assert cs[0 := c][1..] == cs[1..];
    } else {
      assert cs[i := c][1..] == cs[1..][i - 1 := c];
      BusyUpdate(cs[1..], i - 1, c, id);
    }
  }

  lemma {:induction false} QueueSnoc(q: seq<Op>, op: Op, id: nat)
    ensures QueueCount(q + [op], id) == QueueCount(q, id) + if op.id == id then 1 else 0
  {
    if q == [] {
      assert [op][1..] == [];
    } else {
      assert (q + [op])[1..] == q[1..] + [op];
      QueueSnoc(q[1..], op, id);
    }
  }

  lemma {:induction false} InBusy(cs: seq<Channel>, i: nat)
    requires i < |cs| && cs[i].state.Busy?
    ensures BusyCount(cs, cs[i].state.op.id) >= 1
  {
    if i > 0 {
      InBusy(cs[1..], i - 1);
    }
  }

  lemma {:induction false} InQueue(q: seq<Op>, i: nat)
    requires i < |q|
    ensures QueueCount(q, q[i].id) >= 1
  {
    if i > 0 {
      InQueue(q[1..], i - 1);
    }
  }

  /** An op that is queued or in flight has not been called back. */
  lemma QueuedNotFired(s: State, i: nat)
    requires Placed(s) && i < |s.queue|
    ensures FiredCount(s.trace, s.queue[i].id) == 0
  {
    InQueue(s.queue, i);
    assert Places(s.queue, s.channels, s.trace, s.queue[i].id) <= 1;
  }

  lemma BusyNotFired(s: State, i: nat)
    requires Placed(s) && i < |s.channels| && s.channels[i].state.Busy?
    ensures FiredCount(s.trace, s.channels[i].state.op.id) == 0
  {
    InBusy(s.channels, i);
    assert Places(s.queue, s.channels, s.trace, s.channels[i].state.op.id) <= 1;
  }

  /** The front of the queue is nowhere else: not behind itself, not in flight. */
  lemma FrontIsAlone(s: State)
    requires Placed(s) && s.queue != []
    ensures forall i :: 1 <= i < |s.queue| ==> s.queue[i].id != s.queue[0].id
    ensures forall i :: 0 <= i < |s.channels| && s.channels[i].state.Busy? ==>
      s.channels[i].state.op.id != s.queue[0].id
  {
    var id := s.queue[0].id;
    assert Places(s.queue, s.channels, s.trace, id) <= 1;
    forall i | 1 <= i < |s.queue| ensures s.queue[i].id != id {
      InQueue(s.queue[1..], i - 1);
    }
    forall i | 0 <= i < |s.channels| && s.channels[i].state.Busy? ensures s.channels[i].state.op.id != id {
      InBusy(s.channels, i);
    }
  }

  lemma FreshDraw(e: Env, n: nat)
    requires Fresh(e, n + 1)
    ensures Fresh(e, n)
    ensures e.password(n) !in Drawn(e, n)
    ensures Drawn(e, n + 1) == Drawn(e, n) + {e.password(n)}
  {
  }

  // ---- Preservation, one concern at a time ----

  lemma TicketedUpdate(cs: seq<Channel>, tr: seq<Obs>, i: nat, c: Channel, o: Obs)
    requires Ticketed(cs, tr) && i < |cs|
    requires
      if IsGrant(o) then o.ch == i && !cs[i].state.Ready? && c.state.Ready? && c.ticket == o.grant
      else if o.OpSent? then o.ch == i && cs[i].state.Ready? && !c.state.Ready?
      else !cs[i].state.Ready? && !c.state.Ready?
    ensures Ticketed(cs[i := c], tr + [o])
  {
    Snoc(tr, o);
    SnocUnspent(tr, o);
    CountUpdate(cs, i, c, IsReady);
  }

  lemma TicketedNote(cs: seq<Channel>, tr: seq<Obs>, o: Obs)
    requires Ticketed(cs, tr) && !IsGrant(o) && !o.OpSent?
    ensures Ticketed(cs, tr + [o])
  {
    Snoc(tr, o);
    SnocUnspent(tr, o);
  }

  lemma InFlightUpdate(cs: seq<Channel>, i: nat, c: Channel, sent: set<nat>, under: set<(nat, OpKind, nat)>,
                       sent': set<nat>, under': set<(nat, OpKind, nat)>)
    requires InFlight(cs, sent, under) && i < |cs| && sent <= sent' && under <= under'
    requires c.state.Busy? ==>
               c.retries == 0 && c.state.op.id in sent' && (c.state.op.id, c.state.op.kind, c.sentGPass) in under'
    ensures InFlight(cs[i := c], sent', under')
  {
  }

  lemma TimelyUpdate(cs: seq<Channel>, i: nat, c: Channel, late: set<nat>, clock: int, late': set<nat>, clock': int)
    requires TimelyChannels(cs, late, clock) && i < |cs| && clock <= clock'
    requires forall j :: 0 <= j < |cs| && cs[j].state.Busy? && cs[j].state.op.id in late' ==> cs[j].state.op.id in late
    requires Outstanding(c) ==> c.sentAt <= clock'
    requires c.state.Busy? ==> c.state.op.deadline > 0 && (c.state.op.id in late' ==> c.sentAt >= c.state.op.deadline)
    ensures TimelyChannels(cs[i := c], late', clock')
  {
  }

  lemma PopOrdered(q: seq<Op>, sent: set<nat>, submitted: nat)
    requires Ordered(q, sent, submitted) && q != []
    ensures Ordered(q[1..], sent + {q[0].id}, submitted)
    ensures Ordered(q[1..], sent, submitted)
  {
  }

  lemma PushFrontOrdered(q: seq<Op>, sent: set<nat>, submitted: nat, op: Op)
    requires Ordered(q, sent, submitted) && op.id in sent
    ensures Ordered([op] + q, sent, submitted)
  {
  }

  lemma PushBackOrdered(q: seq<Op>, sent: set<nat>, submitted: nat, op: Op)
    requires Ordered(q, sent, submitted) && op.id == submitted && (op.kind == Gossip ==> q == [])
    ensures Ordered(q + [op], sent, submitted + 1)
  {
  }

  /** What the invariant says of channel `i` when it changes without an op packet going out. */
  lemma QuietUpdate(e: Env, s: State, i: nat, c: Channel, ticks: nat)
    requires SteadyClock(e) && i < |s.channels| && s.ticks <= ticks
    requires InFlight(s.channels, SentIds(s.trace), SentUnder(s.trace))
    requires TimelyChannels(s.channels, LateIds(s.trace), e.clock(s.ticks))
    requires !c.state.Busy? && (Outstanding(c) ==> c.sentAt <= e.clock(ticks))
    ensures InFlight(s.channels[i := c], SentIds(s.trace), SentUnder(s.trace))
    ensures TimelyChannels(s.channels[i := c], LateIds(s.trace), e.clock(ticks))
  {
    InFlightUpdate(s.channels, i, c, SentIds(s.trace), SentUnder(s.trace), SentIds(s.trace), SentUnder(s.trace));
    TimelyUpdate(s.channels, i, c, LateIds(s.trace), e.clock(s.ticks), LateIds(s.trace), e.clock(ticks));
  }

  lemma UnansweredDraw(cs: seq<Channel>, drawn: set<nat>, accepted: set<nat>, i: nat, c: Channel, pw: nat)
    requires Unanswered(cs, drawn, accepted) && i < |cs| && pw !in drawn && c.sentGPass == pw
    ensures Unanswered(cs[i := c], drawn + {pw}, accepted)
  {
  }

  lemma UnansweredAccept(cs: seq<Channel>, drawn: set<nat>, accepted: set<nat>, i: nat, c: Channel)
    requires Unanswered(cs, drawn, accepted) && i < |cs| && Outstanding(cs[i]) && !Outstanding(c)
    ensures Unanswered(cs[i := c], drawn, accepted + {cs[i].sentGPass})
  {
  }

  lemma UnansweredRelease(cs: seq<Channel>, drawn: set<nat>, accepted: set<nat>, i: nat, c: Channel)
    requires Unanswered(cs, drawn, accepted) && i < |cs| && !Outstanding(c)
    ensures Unanswered(cs[i := c], drawn, accepted)
  {
  }

  // ---- Atomic steps ----

  lemma HandshakeKeeps(e: Env, s: State, i: nat)
    requires SteadyClock(e) && Inv(e, s) && i < |s.channels| && s.channels[i].state.Idle?
    ensures Inv(e, Handshake(e, s, i))
  {
    var t := Handshake(e, s, i);
    var c := t.channels[i];
    var o := t.trace[|s.trace|];
    SameOps(s, t, i, c, o);
    QuietUpdate(e, s, i, c, t.ticks);
    Snoc(s.trace, o);
    SnocChronicle(e, s.trace, o);
    if !s.closed {
      TicketedUpdate(s.channels, s.trace, i, c, o);
    }
    if Fresh(e, t.drawn) {
      FreshDraw(e, s.drawn);
      SnocNoRepeat(s.trace, o);
      UnansweredDraw(s.channels, Drawn(e, s.drawn), AcceptedPasswords(s.trace), i, c, e.password(s.drawn));
    }
  }

  lemma SendFrontPlaced(e: Env, s: State, i: nat)
    requires Placed(s) && i < |s.channels| && !s.channels[i].state.Busy? && s.queue != []
    ensures Placed(SendFront(e, s, i))
  {
    var t := SendFront(e, s, i);
    forall id: nat ensures Places(t.queue, t.channels, t.trace, id) == Places(s.queue, s.channels, s.trace, id) {
      SnocFired(s.trace, t.trace[|s.trace|], id);
      BusyUpdate(s.channels, i, t.channels[i], id);
    }
  }

  lemma SendFrontChannels(e: Env, s: State, i: nat)
    requires SteadyClock(e) && Placed(s) && i < |s.channels| && s.queue != []
    requires InFlight(s.channels, SentIds(s.trace), SentUnder(s.trace))
    requires TimelyQueue(s.queue, LateIds(s.trace))
    requires TimelyChannels(s.channels, LateIds(s.trace), e.clock(s.ticks))
    ensures var t := SendFront(e, s, i);
            && InFlight(t.channels, SentIds(t.trace), SentUnder(t.trace))
            && TimelyQueue(t.queue, LateIds(t.trace))
            && TimelyChannels(t.channels, LateIds(t.trace), e.clock(t.ticks))
  {
    var t := SendFront(e, s, i);
    Snoc(s.trace, t.trace[|s.trace|]);
    FrontIsAlone(s);
    InFlightUpdate(s.channels, i, t.channels[i], SentIds(s.trace), SentUnder(s.trace), SentIds(t.trace),
        SentUnder(t.trace));
    TimelyUpdate(s.channels, i, t.channels[i], LateIds(s.trace), e.clock(s.ticks), LateIds(t.trace), e.clock(t.ticks));
  }

  lemma SendFrontKeeps(e: Env, s: State, i: nat)
    requires SteadyClock(e) && Inv(e, s) && i < |s.channels| && s.channels[i].state.Ready? && s.queue != [] && !s.closed
    ensures Inv(e, SendFront(e, s, i))
  {
    var t := SendFront(e, s, i);
    var c := t.channels[i];
    var o := t.trace[|s.trace|];
    SendFrontPlaced(e, s, i);
    QueuedNotFired(s, 0);
    SnocChronicle(e, s.trace, o);
    SendFrontChannels(e, s, i);
    PopOrdered(s.queue, SentIds(s.trace), s.submitted);
    Snoc(s.trace, o);
    TicketedUpdate(s.channels, s.trace, i, c, o);
    if Fresh(e, t.drawn) {
      FreshDraw(e, s.drawn);
      SnocNoRepeat(s.trace, o);
      UnansweredDraw(s.channels, Drawn(e, s.drawn), AcceptedPasswords(s.trace), i, c, e.password(s.drawn));
    }
  }

  lemma EnqueueKeeps(e: Env, s: State, kind: OpKind, payload: Payload)
    requires SteadyClock(e) && Inv(e, s) && !s.closed && (kind == Gossip ==> s.queue == [])
    ensures Inv(e, Enqueue(e, s.(submitted := s.submitted + 1), s.submitted, kind, payload))
  {
    var t := Enqueue(e, s.(submitted := s.submitted + 1), s.submitted, kind, payload);
    var op := t.queue[|s.queue|];
    forall id: nat ensures Places(t.queue, t.channels, t.trace, id)
        == Places(s.queue, s.channels, s.trace, id) + if id == op.id then 1 else 0
    {
      QueueSnoc(s.queue, op, id);
    }
    PushBackOrdered(s.queue, SentIds(s.trace), s.submitted, op);
    LateAreSent(s.trace);
    assert e.clock(s.ticks) <= e.clock(s.ticks + 1);
  }

  lemma {:induction false} LateAreSent(tr: seq<Obs>)
    ensures LateIds(tr) <= SentIds(tr)
  {
    if tr != [] {
      LateAreSent(tr[..|tr| - 1]);
    }
  }

  lemma RejectPlaced(s: State)
    requires Placed(s)
    ensures Placed(Refusal(s))
  {
    var t := Refusal(s);
    var o := t.trace[|s.trace|];
    forall id: nat ensures Places(t.queue, t.channels, t.trace, id)
        == Places(s.queue, s.channels, s.trace, id) + if id == o.id then 1 else 0
    {
      SnocFired(s.trace, o, id);
    }
  }

  lemma RejectLawful(e: Env, s: State)
    requires Placed(s) && Ordered(s.queue, SentIds(s.trace), s.submitted)
    ensures Lawful(e, s.trace, Refusal(s).trace[|s.trace|])
  {
    assert Places(s.queue, s.channels, s.trace, s.submitted) == 0;
  }

  lemma RejectKeeps(e: Env, s: State)
    requires Inv(e, s)
    ensures Inv(e, Refusal(s))
  {
    RejectPlaced(s);
    RejectLawful(e, s);
    OrderedMore(s.queue, SentIds(s.trace), s.submitted);
    NoteKeeps(e, s, Refusal(s).trace[|s.trace|]);
  }

  /** A callback changes nothing the rest of the invariant reads. */
  lemma NoteKeeps(e: Env, s: State, o: Obs)
    requires Inv(e, s) && o.Fired? && Lawful(e, s.trace, o)
    ensures Chronicle(e, s.trace + [o])
    ensures !s.closed ==> Ticketed(s.channels, s.trace + [o])
    ensures SentIds(s.trace + [o]) == SentIds(s.trace) && SentUnder(s.trace + [o]) == SentUnder(s.trace)
    ensures LateIds(s.trace + [o]) == LateIds(s.trace) && AcceptedPasswords(s.trace + [o]) == AcceptedPasswords(s.trace)
    ensures Fresh(e, s.drawn) ==> NoRepeat(s.trace + [o])
  {
    SnocChronicle(e, s.trace, o);
    Snoc(s.trace, o);
    if !s.closed { TicketedNote(s.channels, s.trace, o); }
    if Fresh(e, s.drawn) { SnocNoRepeat(s.trace, o); }
  }

  lemma OrderedMore(q: seq<Op>, sent: set<nat>, submitted: nat)
    requires Ordered(q, sent, submitted)
    ensures Ordered(q, sent, submitted + 1)
  {
  }

  lemma AcceptInfoKeeps(e: Env, s: State, i: nat, grant: nat, key: Key)
    requires SteadyClock(e) && Inv(e, s) && i < |s.channels| && s.channels[i].state.Handshaking? && !s.closed
    ensures Inv(e, AcceptInfo(s, i, grant, key))
  {
    var t := AcceptInfo(s, i, grant, key);
    var c := t.channels[i];
    var o := t.trace[|s.trace|];
    SameOps(s, t, i, c, o);
    QuietUpdate(e, s, i, c, t.ticks);
    Snoc(s.trace, o);
    SnocChronicle(e, s.trace, o);
    TicketedUpdate(s.channels, s.trace, i, c, o);
    if Fresh(e, s.drawn) {
      SnocNoRepeat(s.trace, o);
      UnansweredAccept(s.channels, Drawn(e, s.drawn), AcceptedPasswords(s.trace), i, c);
    }
  }

  lemma AcceptReplyPlaced(s: State, i: nat, grant: nat, body: seq<byte>, rc: int, paid: nat)
    requires Placed(s) && i < |s.channels| && s.channels[i].state.Busy?
    ensures Placed(AcceptReply(s, i, grant, body, rc, paid))
  {
    var t := AcceptReply(s, i, grant, body, rc, paid);
    var tr := t.trace[..|s.trace| + 1];
    var o := t.trace[|s.trace| + 1];
    assert tr == s.trace + [t.trace[|s.trace|]] && t.trace == tr + [o];
    forall id: nat ensures Places(t.queue, t.channels, t.trace, id) == Places(s.queue, s.channels, s.trace, id) {
      SnocFired(s.trace, t.trace[|s.trace|], id);
      SnocFired(tr, o, id);
      BusyUpdate(s.channels, i, t.channels[i], id);
    }
  }

  lemma AcceptReplyKeeps(e: Env, s: State, i: nat, grant: nat, body: seq<byte>, rc: int, paid: nat)
    requires SteadyClock(e) && Inv(e, s) && i < |s.channels| && s.channels[i].state.Busy? && !s.closed
    requires DecodeResult(e, s.channels[i].state.op.kind, s.channels[i].serverKey, body) == Some((rc, paid))
    ensures Inv(e, AcceptReply(s, i, grant, body, rc, paid))
  {
    var t := AcceptReply(s, i, grant, body, rc, paid);
    var c := t.channels[i];
    var a := t.trace[|s.trace|];
    var o := t.trace[|s.trace| + 1];
    var tr := s.trace + [a];
    assert t.trace == tr + [o];
    AcceptReplyPlaced(s, i, grant, body, rc, paid);
    QuietUpdate(e, s, i, c, s.ticks);
    BusyNotFired(s, i);
    Snoc(s.trace, a);
    Snoc(tr, o);
    SnocFired(s.trace, a, o.id);
    SnocChronicle(e, s.trace, a);
    SnocChronicle(e, tr, o);
    TicketedUpdate(s.channels, s.trace, i, c, a);
    TicketedNote(t.channels, tr, o);
    if Fresh(e, s.drawn) {
      SnocNoRepeat(s.trace, a);
      SnocNoRepeat(tr, o);
      UnansweredAccept(s.channels, Drawn(e, s.drawn), AcceptedPasswords(s.trace), i, c);
    }
  }

  lemma RetryHandshakeKeeps(e: Env, s: State, i: nat, now: int)
    requires SteadyClock(e) && Inv(e, s) && i < |s.channels| && s.channels[i].state.Handshaking?
        && now <= e.clock(s.ticks)
    ensures Inv(e, RetryHandshake(e, s, i, now))
  {
    var t := RetryHandshake(e, s, i, now);
    var c := t.channels[i];
    if c.state.Idle? {
      CountUpdate(s.channels, i, c, IsReady);
      forall id: nat ensures Places(t.queue, t.channels, t.trace, id) == Places(s.queue, s.channels, s.trace, id) {
        BusyUpdate(s.channels, i, c, id);
      }
      QuietUpdate(e, s, i, c, s.ticks);
      if Fresh(e, s.drawn) {
        UnansweredRelease(s.channels, Drawn(e, s.drawn), AcceptedPasswords(s.trace), i, c);
      }
    } else {
      RetriedHandshakeKeeps(e, s, t, i, c);
    }
  }

  /** A channel update that starts and ends away from Busy moves no op. */
  lemma SameOps(s: State, t: State, i: nat, c: Channel, o: Obs)
    requires Placed(s) && i < |s.channels| && !s.channels[i].state.Busy? && !c.state.Busy? && !o.Fired?
    requires t.channels == s.channels[i := c] && t.trace == s.trace + [o]
    requires t.queue == s.queue && t.submitted == s.submitted
    ensures Placed(t)
  {
    forall id: nat ensures Places(t.queue, t.channels, t.trace, id) == Places(s.queue, s.channels, s.trace, id) {
      SnocFired(s.trace, o, id);
      BusyUpdate(s.channels, i, c, id);
    }
  }

  lemma RetriedHandshakeKeeps(e: Env, s: State, t: State, i: nat, c: Channel)
    requires SteadyClock(e) && Inv(e, s) && i < |s.channels| && s.channels[i].state.Handshaking? && c.state.Handshaking?
    requires c.sentAt <= e.clock(s.ticks) && c.sentGPass == e.password(s.drawn)
    requires t == s.(channels := s.channels[i := c], drawn := s.drawn + 1,
                     trace := s.trace + [GetInfoSent(i, e.password(s.drawn))])
    ensures Inv(e, t)
  {
    var o := t.trace[|s.trace|];
    SameOps(s, t, i, c, o);
    QuietUpdate(e, s, i, c, t.ticks);
    Snoc(s.trace, o);
    SnocChronicle(e, s.trace, o);
    if !s.closed {
      TicketedUpdate(s.channels, s.trace, i, c, o);
    }
    if Fresh(e, t.drawn) {
      FreshDraw(e, s.drawn);
      SnocNoRepeat(s.trace, o);
      UnansweredDraw(s.channels, Drawn(e, s.drawn), AcceptedPasswords(s.trace), i, c, e.password(s.drawn));
    }
  }

  lemma GiveUpKeeps(e: Env, s: State, i: nat, now: int)
    requires SteadyClock(e) && Inv(e, s) && i < |s.channels| && s.channels[i].state.Busy?
    requires now >= s.channels[i].state.op.deadline || e.maxRetries <= 1
    ensures Inv(e, GiveUp(s, i, now))
  {
    var t := GiveUp(s, i, now);
    var c := t.channels[i];
    var o := t.trace[|s.trace|];
    forall id: nat ensures Places(t.queue, t.channels, t.trace, id) == Places(s.queue, s.channels, s.trace, id) {
      SnocFired(s.trace, o, id);
      BusyUpdate(s.channels, i, c, id);
    }
    BusyNotFired(s, i);
    QuietUpdate(e, s, i, c, s.ticks);
    Snoc(s.trace, o);
    SnocChronicle(e, s.trace, o);
    if !s.closed {
      TicketedUpdate(s.channels, s.trace, i, c, o);
    }
    if Fresh(e, s.drawn) {
      SnocNoRepeat(s.trace, o);
      UnansweredRelease(s.channels, Drawn(e, s.drawn), AcceptedPasswords(s.trace), i, c);
    }
  }

  lemma RequeuePlaced(e: Env, s: State, i: nat)
    requires Placed(s) && i < |s.channels| && s.channels[i].state.Busy?
    ensures Placed(Requeue(e, s, i))
  {
    var t := Requeue(e, s, i);
    assert t.queue[1..] == s.queue;
    forall id: nat ensures Places(t.queue, t.channels, t.trace, id) == Places(s.queue, s.channels, s.trace, id) {
      SnocFired(s.trace, t.trace[|s.trace|], id);
      BusyUpdate(s.channels, i, t.channels[i], id);
    }
  }

  lemma RequeueKeeps(e: Env, s: State, i: nat, now: int)
    requires SteadyClock(e) && Inv(e, s) && i < |s.channels| && s.channels[i].state.Busy?
    requires s.channels[i].sentAt <= now < s.channels[i].state.op.deadline
    ensures Inv(e, Requeue(e, s, i))
  {
    var t := Requeue(e, s, i);
    var c := t.channels[i];
    var o := t.trace[|s.trace|];
    RequeuePlaced(e, s, i);
    QuietUpdate(e, s, i, c, t.ticks);
    Snoc(s.trace, o);
    SnocChronicle(e, s.trace, o);
    BusyBelow(s, i);
    PushFrontOrdered(s.queue, SentIds(s.trace), s.submitted, s.channels[i].state.op);
    if !s.closed {
      TicketedUpdate(s.channels, s.trace, i, c, o);
    }
    if Fresh(e, t.drawn) {
      FreshDraw(e, s.drawn);
      SnocNoRepeat(s.trace, o);
      UnansweredDraw(s.channels, Drawn(e, s.drawn), AcceptedPasswords(s.trace), i, c, e.password(s.drawn));
    }
  }

  lemma BusyBelow(s: State, i: nat)
    requires Placed(s) && i < |s.channels| && s.channels[i].state.Busy?
    ensures s.channels[i].state.op.id < s.submitted
  {
    InBusy(s.channels, i);
    assert Places(s.queue, s.channels, s.trace, s.channels[i].state.op.id) >= 1;
  }

  lemma FailChannelPlaced(s: State, i: nat)
    requires Placed(s) && i < |s.channels|
    ensures Placed(FailChannel(s, i))
  {
    var t := FailChannel(s, i);
    forall id: nat ensures Places(t.queue, t.channels, t.trace, id) == Places(s.queue, s.channels, s.trace, id) {
      if s.channels[i].state.Busy? {
        SnocFired(s.trace, t.trace[|s.trace|], id);
      }
      BusyUpdate(s.channels, i, t.channels[i], id);
    }
  }

  lemma FailChannelKeeps(e: Env, s: State, i: nat)
    requires SteadyClock(e) && Inv(e, s) && i < |s.channels| && s.closed
    ensures Inv(e, FailChannel(s, i))
  {
    var t := FailChannel(s, i);
    var c := t.channels[i];
    FailChannelPlaced(s, i);
    QuietUpdate(e, s, i, c, s.ticks);
    if s.channels[i].state.Busy? {
      var o := t.trace[|s.trace|];
      BusyNotFired(s, i);
      Snoc(s.trace, o);
      SnocChronicle(e, s.trace, o);
      if Fresh(e, s.drawn) {
        SnocNoRepeat(s.trace, o);
      }
    }
    if Fresh(e, s.drawn) {
      UnansweredRelease(s.channels, Drawn(e, s.drawn), AcceptedPasswords(s.trace), i, c);
    }
  }

  lemma FailFrontKeeps(e: Env, s: State)
    requires Inv(e, s) && s.queue != [] && s.closed
    ensures Inv(e, FailFront(s))
  {
    var t := FailFront(s);
    var o := t.trace[|s.trace|];
    QueuedNotFired(s, 0);
    PopOrdered(s.queue, SentIds(s.trace), s.submitted);
    NoteKeeps(e, s, o);
    forall id: nat ensures Places(t.queue, t.channels, t.trace, id) == Places(s.queue, s.channels, s.trace, id) {
      SnocFired(s.trace, o, id);
    }
  }
}
