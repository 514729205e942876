/** The settlement client itself: the in-place handlers, each proved to take one model step. */
module SettlementClient {
  import opened BigEndian
  import opened SettlementModel
  import opened SettlementInvariant
  import opened SettlementRuns

  class CesClientAsync {
    const env: Env
    var channels: seq<Channel>
    var queue: seq<Op>
    var pendingCount: nat
    var closed: bool
    var timerArmed: bool
    // How many passwords were drawn, clock reads taken and ops submitted.
    var drawn: nat
    var ticks: nat
    var submitted: nat
    ghost var trace: seq<Obs>

    ghost function View(): State
      reads this
    {
      State(channels, queue, pendingCount, closed, timerArmed, drawn, ticks, submitted, trace)
    }

    ghost predicate Valid()
      reads this
    {
      SteadyClock(env) && RunInv(env, View())
    }

    constructor (env: Env, numChannels: nat)
      requires SteadyClock(env)
      ensures View() == Init(numChannels) && this.env == env && Valid()
    {
      this.env := env;
      channels := seq(numChannels, _ => NEW_CHANNEL);
      queue, pendingCount, closed, timerArmed := [], 0, false, false;
      drawn, ticks, submitted, trace := 0, 0, 0, [];
      new;
      InitHolds(env, numChannels);
    }

    // ---- Public API ----

    method OpenTransfer(payload: Payload)
      requires Valid()
      modifies this
      ensures Valid() && View() == Step(env, old(View()), SubmitTransfer(payload))
    {
      StepKeeps(env, View(), SubmitTransfer(payload));
      SubmitOp(OpKind.OpenTransfer, payload);
    }

    /** What makes a gossip a `Payload` is `SettlementFrames.GossipFrame`: up to 270 message bytes. */
    method GossipTo(payload: Payload)
      requires Valid()
      modifies this
      ensures Valid() && View() == Step(env, old(View()), SubmitGossip(payload))
    {
      StepKeeps(env, View(), SubmitGossip(payload));
      SubmitOp(Gossip, payload);
    }

    /** Anything the network may deliver. */
    method Datagram(data: seq<byte>)
      requires Valid()
      modifies this
      ensures Valid() && View() == Step(env, old(View()), Receive(data))
    {
      StepKeeps(env, View(), Receive(data));
      if closed || data == [] {
        return;
      }
      if data[0] == env.infoCode {
        ReadInfo(data);
      } else if data[0] == env.messageCode {
        ReadMessage(data);
      }
    }

    method TimerFired()
      requires Valid()
      modifies this
      ensures Valid() && View() == Step(env, old(View()), Sweep)
    {
      StepKeeps(env, View(), Sweep);
      RunSweep();
    }

    method CloseClient()
      requires Valid()
      modifies this
      ensures Valid() && View() == Step(env, old(View()), Close)
    {
      StepKeeps(env, View(), Close);
      if closed {
        return;
      }
      closed := true;
      timerArmed := false;
      FailAll();
    }

    // ---- Submission ----

    method SubmitOp(kind: OpKind, payload: Payload)
      modifies this
      ensures View() == Submit(env, old(View()), kind, payload)
    {
      var id := submitted;
      submitted := id + 1;
      if closed {
        trace := trace + [Fired(id, CES_ERROR_INTERNAL, 0, Rejected)];
        return;
      }
      if |queue| >= MAX_QUEUE || (kind == Gossip && queue != []) {
        trace := trace + [Fired(id, CES_ERROR_QUEUE_FULL, 0, Rejected)];
        return;
      }
      pendingCount := pendingCount + 1;
      var now := Now();
      queue := queue + [Op(id, kind, payload, now + Life(kind))];
      DispatchQueue();
    }

    // ---- Dispatch and channels ----

    method GenPassword() returns (pw: nat)
      modifies this`drawn
      ensures pw == env.password(old(drawn)) && drawn == old(drawn) + 1
    {
      pw := env.password(drawn);
      drawn := drawn + 1;
    }

    method Now() returns (at: int)
      modifies this`ticks
      ensures at == env.clock(old(ticks)) && ticks == old(ticks) + 1
    {
      at := env.clock(ticks);
      ticks := ticks + 1;
    }

    method StartHandshake(i: nat)
      requires i < |channels|
      modifies this
      ensures View() == Handshake(env, old(View()), i)
    {
      var pw := GenPassword();
      var at := Now();
      channels := channels[i := channels[i].(state := Handshaking, sentGPass := pw, retries := 0, sentAt := at)];
      trace := trace + [GetInfoSent(i, pw)];
      timerArmed := true;
    }

    method SendOp(i: nat)
      requires i < |channels| && queue != []
      modifies this
      ensures View() == SendFront(env, old(View()), i)
    {
      var op := queue[0];
      queue := queue[1..];
      var pw := GenPassword();
      var at := Now();
      trace := trace + [OpSent(i, op.id, op.kind, pw, channels[i].ticket, at, op.deadline)];
      channels := channels[i := channels[i].(state := Busy(op), sentGPass := pw, retries := 0, sentAt := at,
          ticket := 0)];
      timerArmed := true;
    }

    method DispatchQueue()
      modifies this
      ensures View() == Dispatch(env, old(View()))
    {
      if closed || queue == [] {
        return;
      }
      var i := 0;
      while i < |channels| && queue != []
        invariant 0 <= i <= |channels|
        invariant DispatchFrom(env, View(), i) == DispatchFrom(env, old(View()), 0)
      {
        if channels[i].state.Idle? {
          StartHandshake(i);
        } else if channels[i].state.Ready? {
          SendOp(i);
        }
        i := i + 1;
      }
      if queue != [] {
        timerArmed := true;
      }
    }

    // ---- Receive ----

    method Search(busy: bool, pw: nat) returns (i: nat)
      ensures i == FindWaiting(channels, busy, pw, 0)
    {
      i := 0;
      while i < |channels| && !Awaits(channels[i], busy, pw)
        invariant 0 <= i <= |channels|
        invariant FindWaiting(channels, busy, pw, i) == FindWaiting(channels, busy, pw, 0)
      {
        i := i + 1;
      }
    }

    method ReadInfo(data: seq<byte>)
      modifies this
      ensures View() == HandleInfo(env, old(View()), data)
    {
      if |data| < ENVELOPE_BYTES + KEY_BYTES + 1 {
        return;
      }
      var i := Search(false, Get(data[10..18]));
      if i < |channels| {
        var c := channels[i];
        channels := channels[i := c.(ticket := Get(data[2..10]), serverKey := data[18..50], state := Ready)];
        trace := trace + [InfoAccepted(i, c.sentGPass, Get(data[2..10]), data[18..50])];
        DispatchQueue();
      }
    }

    method ReadMessage(data: seq<byte>)
      requires Counted(View())
      modifies this
      ensures View() == HandleMessage(env, old(View()), data)
    {
      if |data| < ENVELOPE_BYTES + 1 {
        return;
      }
      var body := data[18..];
      var i := Search(true, Get(data[10..18]));
      if i < |channels| {
        var c := channels[i];
        var r := DecodeResult(env, c.state.op.kind, c.serverKey, body);
        if r.Some? {
          TakeReply(i, Get(data[2..10]), body, r.value.0, r.value.1);
          DispatchQueue();
        }
      }
    }

    /** The channel is free again and the op is called back. */
    method TakeReply(i: nat, grant: nat, body: seq<byte>, rc: int, paid: nat)
      requires i < |channels| && channels[i].state.Busy? && Counted(View())
      modifies this
      ensures View() == AcceptReply(old(View()), i, grant, body, rc, paid)
    {
      BusyIsCounted(channels, i);
      var c := channels[i];
      var op := c.state.op;
      channels := channels[i := c.(ticket := grant, state := Ready)];
      pendingCount := pendingCount - 1;
      trace := trace + [ReplyAccepted(i, op.id, c.sentGPass, grant, op.kind, c.serverKey, body)];
      trace := trace + [Fired(op.id, rc, paid, Replied)];
    }

    // ---- Sweep ----

    method RunSweep()
      requires Counted(View())
      modifies this
      ensures View() == SweepAll(env, old(View()))
    {
      if closed {
        return;
      }
      timerArmed := false;
      var now := Now();
      var anyActive := SweepChannels(now);
      DispatchQueue();
      if anyActive || queue != [] {
        timerArmed := true;
      }
    }

    method SweepChannels(now: int) returns (anyActive: bool)
      requires Counted(View())
      modifies this
      ensures View() == SweepFrom(env, old(View()), 0, now)
      ensures anyActive == AnyOutstanding(old(channels))
    {
      anyActive := false;
      var i := 0;
      while i < |channels|
        invariant 0 <= i <= |channels| == |old(channels)|
        invariant Counted(View())
        invariant SweepFrom(env, View(), i, now) == SweepFrom(env, old(View()), 0, now)
        invariant anyActive <==> exists k :: 0 <= k < i && Outstanding(old(channels)[k])
        invariant forall k :: i <= k < |channels| ==> channels[k] == old(channels)[k]
      {
        anyActive := anyActive || Outstanding(channels[i]);
        SweepNext(i, now);
        i := i + 1;
      }
    }

    /** `SweepOne` leaves the other channels alone and the count right. */
    method SweepNext(i: nat, now: int)
      requires i < |channels| && Counted(View())
      modifies this
      ensures View() == SweepChannel(env, old(View()), i, now) && Counted(View())
      ensures |channels| == |old(channels)|
      ensures forall k :: 0 <= k < |channels| && k != i ==> channels[k] == old(channels)[k]
    {
      SweepChannelCounted(env, View(), i, now);
      SweepChannelFrame(env, View(), i, now);
      SweepOne(i, now);
    }

    method SweepOne(i: nat, now: int)
      requires i < |channels| && Counted(View())
      modifies this
      ensures View() == SweepChannel(env, old(View()), i, now)
    {
      var c := channels[i];
      match c.state {
        case Handshaking =>
          if now - c.sentAt > HANDSHAKE_RETRY {
            if c.retries + 1 >= env.maxRetries {
              channels := channels[i := c.(state := Idle, retries := c.retries + 1)];
            } else {
              var pw := GenPassword();
              channels := channels[i := c.(retries := c.retries + 1, sentGPass := pw, sentAt := now)];
              trace := trace + [GetInfoSent(i, pw)];
            }
          }
        case Busy(op) =>
          if op.deadline != 0 && now >= op.deadline {
            Abandon(i, now);
          } else if now - c.sentAt > RetryAfter(op.kind) {
            if c.retries + 1 >= env.maxRetries {
              channels := channels[i := c.(retries := c.retries + 1)];
              CountUpdate(old(channels), i, channels[i], IsBusy);
              Abandon(i, now);
            } else {
              queue := [op] + queue;
              StartHandshake(i);
            }
          }
        case _ =>
      }
    }

    method Abandon(i: nat, now: int)
      requires i < |channels| && channels[i].state.Busy? && Counted(View())
      modifies this
      ensures View() == GiveUp(old(View()), i, now)
    {
      BusyIsCounted(channels, i);
      var op := channels[i].state.op;
      pendingCount := pendingCount - 1;
      channels := channels[i := channels[i].(state := Idle)];
      trace := trace + [Fired(op.id, CES_ERROR_TIMEOUT, 0, GaveUp(now, op.deadline))];
    }

    // ---- Cleanup ----

    method FailAll()
      modifies this
      ensures View() == FailQueue(FailChannels(old(View()), 0)).(pending := 0)
    {
      var i := 0;
      while i < |channels|
        invariant 0 <= i <= |channels|
        invariant FailChannels(View(), i) == FailChannels(old(View()), 0)
      {
        if channels[i].state.Busy? {
          trace := trace + [Fired(channels[i].state.op.id, CES_ERROR_INTERNAL, 0, Closed)];
        }
        channels := channels[i := channels[i].(state := Idle)];
        i := i + 1;
      }
      while queue != []
        invariant FailQueue(View()) == FailQueue(FailChannels(old(View()), 0))
        decreases |queue|
      {
        trace := trace + [Fired(queue[0].id, CES_ERROR_INTERNAL, 0, Closed)];
        queue := queue[1..];
      }
      pendingCount := 0;
    }
  }

  lemma {:induction false} BusyIsCounted(cs: seq<Channel>, i: nat)
    requires i < |cs| && cs[i].state.Busy?
    ensures Count(cs, IsBusy) >= 1
  {
    if i > 0 {
      BusyIsCounted(cs[1..], i - 1);
    }
  }
}
