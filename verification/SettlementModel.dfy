/**
 * The settlement client `CesClientAsync` as a state machine: N ticketed channels to one
 * peer, a queue with front re-insertion on retry, per-op deadlines and a sweep timer.
 *
 * One `Event` is one handler run on the io_context. Clock reads and password draws are
 * streams in `Env`, indexed by how many were taken so far, so that every run is a function
 * of its events. `trace` records what an outside observer of the client could see.
 */
module SettlementModel {
  import opened BigEndian

  type Key = seq<byte>

  // ---- Constants ----

  const MAX_QUEUE := 50000
  // Time is counted in nanoseconds, the resolution of the steady clock.
  const MS := 1_000_000
  const RETRY := 3000 * MS
  const HANDSHAKE_RETRY := 2000 * MS
  const GOSSIP_RETRY := 1000 * MS
  const GOSSIP_DEADLINE := 5000 * MS
  const SETTLEMENT_DEADLINE := 3600 * 1000 * MS

  const CES_OK := 0x00
  const CES_ERROR_TIMEOUT := 0x0d
  const CES_ERROR_INTERNAL := 0x0e
  const CES_ERROR_QUEUE_FULL := 0x11
  const CES_OPEN_TRANSFER_RESULT := 0x10
  const CES_GOSSIP_RESULT := 0x15

  const ENVELOPE_BYTES := 18
  const KEY_BYTES := 32
  const SIG_BYTES := 65
  const OPEN_TRANSFER_RESULT_BYTES := 1 + 37 + SIG_BYTES
  const GOSSIP_RESULT_BYTES := 1 + 17 + SIG_BYTES
  const FRAME_BYTES := 512

  // ---- State ----

  datatype Option<+T> = None | Some(value: T)

  datatype OpKind = OpenTransfer | Gossip

  /** A signed op that fits the frame it is sent in; a longer one makes the frame buffer throw. */
  type Payload = p: seq<byte> | ENVELOPE_BYTES + |p| <= FRAME_BYTES

  /** `id` is the submission number; it stands for the callback the op carries. */
  datatype Op = Op(id: nat, kind: OpKind, payload: Payload, deadline: int)

  /** The current op is meaningful only while Busy, so it lives in that state. */
  datatype ChState = Idle | Handshaking | Ready | Busy(op: Op)

  datatype Channel = Channel(
    state: ChState, ticket: nat, sentGPass: nat, serverKey: Key, retries: int, sentAt: int)

  datatype Cause =
    | Rejected
    | Replied
    | GaveUp(at: int, deadline: int)
    | Closed

  datatype Obs =
    | GetInfoSent(ch: nat, gpass: nat)
    | OpSent(ch: nat, id: nat, kind: OpKind, gpass: nat, ticket: nat, at: int, deadline: int)
    | InfoAccepted(ch: nat, spass: nat, grant: nat, key: Key)
    | ReplyAccepted(ch: nat, id: nat, spass: nat, grant: nat, kind: OpKind, key: Key, body: seq<byte>)
    | Fired(id: nat, rc: int, paid: nat, cause: Cause)

  datatype State = State(
    channels: seq<Channel>,
    queue: seq<Op>,
    pending: int,
    closed: bool,
    armed: bool,
    drawn: nat,
    ticks: nat,
    submitted: nat,
    trace: seq<Obs>)

  /** What the client cannot decide itself. `verify` is the signature check. */
  datatype Env = Env(
    password: nat -> nat,
    clock: nat -> int,
    verify: (Key, seq<byte>, seq<byte>) -> bool,
    maxRetries: int,
    infoCode: byte,
    messageCode: byte)

  datatype Event =
    | SubmitTransfer(payload: Payload)
    | SubmitGossip(payload: Payload)
    | Receive(data: seq<byte>)
    | Sweep
    | Close

  const NEW_CHANNEL := Channel(Idle, 0, 0, [], 0, 0)

  function Init(channels: nat): State
  {
    State(seq(channels, _ => NEW_CHANNEL), [], 0, false, false, 0, 0, 0, [])
  }

  // ---- Channel operations ----

  function Handshake(e: Env, s: State, i: nat): State
    requires i < |s.channels|
  {
    var pw := e.password(s.drawn);
    var c := s.channels[i].(state := Handshaking, sentGPass := pw, retries := 0, sentAt := e.clock(s.ticks));
    s.(channels := s.channels[i := c], drawn := s.drawn + 1, ticks := s.ticks + 1, armed := true,
       trace := s.trace + [GetInfoSent(i, pw)])
  }

  /** Hands the front of the queue to channel `i` and transmits it, spending the ticket. */
  function SendFront(e: Env, s: State, i: nat): State
    requires i < |s.channels| && s.queue != []
  {
    var op := s.queue[0];
    var pw := e.password(s.drawn);
    var at := e.clock(s.ticks);
    var c := s.channels[i];
    var c' := c.(state := Busy(op), sentGPass := pw, retries := 0, sentAt := at, ticket := 0);
    s.(channels := s.channels[i := c'], queue := s.queue[1..],
       drawn := s.drawn + 1, ticks := s.ticks + 1, armed := true,
       trace := s.trace + [OpSent(i, op.id, op.kind, pw, c.ticket, at, op.deadline)])
  }

  function DispatchFrom(e: Env, s: State, i: nat): State
    requires i <= |s.channels|
    decreases |s.channels| - i
  {
    if i == |s.channels| || s.queue == [] then s
    else match s.channels[i].state
      case Idle => DispatchFrom(e, Handshake(e, s, i), i + 1)
      case Ready => DispatchFrom(e, SendFront(e, s, i), i + 1)
      case _ => DispatchFrom(e, s, i + 1)
  }

  function Dispatch(e: Env, s: State): State
  {
    if s.closed || s.queue == [] then s
    else
      var t := DispatchFrom(e, s, 0);
      if t.queue != [] then t.(armed := true) else t
  }

  // ---- Submission ----

  function Fire(s: State, id: nat, rc: int, paid: nat, cause: Cause): State
  {
    s.(trace := s.trace + [Fired(id, rc, paid, cause)])
  }

  function Submit(e: Env, s: State, kind: OpKind, payload: Payload): State
  {
    if Refuses(s, kind) then Refusal(s) else Dispatch(e, Enqueued(e, s, kind, payload))
  }

  predicate Refuses(s: State, kind: OpKind)
  {
    s.closed || |s.queue| >= MAX_QUEUE || (kind == Gossip && s.queue != [])
  }

  /** The callback of a refused op is called at once. */
  function Refusal(s: State): State
  {
    Fire(s.(submitted := s.submitted + 1), s.submitted,
         if s.closed then CES_ERROR_INTERNAL else CES_ERROR_QUEUE_FULL, 0, Rejected)
  }

  function Enqueued(e: Env, s: State, kind: OpKind, payload: Payload): State
  {
    Enqueue(e, s.(submitted := s.submitted + 1), s.submitted, kind, payload)
  }

  function Enqueue(e: Env, s: State, id: nat, kind: OpKind, payload: Payload): State
  {
    s.(pending := s.pending + 1, ticks := s.ticks + 1,
       queue := s.queue + [Op(id, kind, payload, e.clock(s.ticks) + Life(kind))])
  }

  function Life(kind: OpKind): int
  {
    if kind == Gossip then GOSSIP_DEADLINE else SETTLEMENT_DEADLINE
  }

  // ---- Receive ----

  /** First channel at or after `i` that waits for an INFO (or, if `busy`, a MESSAGE) answering `pw`. */
  function FindWaiting(cs: seq<Channel>, busy: bool, pw: nat, i: nat): (r: nat)
    requires i <= |cs|
    ensures i <= r <= |cs|
    ensures forall k :: i <= k < r ==> !Awaits(cs[k], busy, pw)
    ensures r < |cs| ==> Awaits(cs[r], busy, pw)
    decreases |cs| - i
  {
    if i == |cs| || Awaits(cs[i], busy, pw) then i else FindWaiting(cs, busy, pw, i + 1)
  }

  predicate Awaits(c: Channel, busy: bool, pw: nat)
  {
    (if busy then c.state.Busy? else c.state.Handshaking?) && c.sentGPass == pw
  }

  function HandleInfo(e: Env, s: State, data: seq<byte>): State
  {
    if |data| < ENVELOPE_BYTES + KEY_BYTES + 1 then s
    else OnInfo(e, s, Get(data[10..18]), Get(data[2..10]), data[18..50])
  }

  /** An INFO that answers `spass` grants a ticket and brings the server's key. */
  function OnInfo(e: Env, s: State, spass: nat, grant: nat, key: Key): State
  {
    var i := FindWaiting(s.channels, false, spass, 0);
    if i == |s.channels| then s else Dispatch(e, AcceptInfo(s, i, grant, key))
  }

  function AcceptInfo(s: State, i: nat, grant: nat, key: Key): State
    requires i < |s.channels|
  {
    var c := s.channels[i];
    s.(channels := s.channels[i := c.(ticket := grant, serverKey := key, state := Ready)],
       trace := s.trace + [InfoAccepted(i, c.sentGPass, grant, key)])
  }

  /**
   * The (rc, paid) a reply body carries for an in-flight op of this kind, if its opcode
   * matches the kind, its length is exact and its signature checks under the server key.
   */
  function DecodeResult(e: Env, kind: OpKind, key: Key, body: seq<byte>): Option<(int, nat)>
  {
    if body == [] then None
    else if kind == OpenTransfer then
      if body[0] == CES_OPEN_TRANSFER_RESULT && |body| == OPEN_TRANSFER_RESULT_BYTES
         && e.verify(key, body[..|body| - SIG_BYTES], body[|body| - SIG_BYTES..])
      then Some((body[37], 0)) else None
    else
      if body[0] == CES_GOSSIP_RESULT && |body| == GOSSIP_RESULT_BYTES
         && e.verify(key, body[..|body| - SIG_BYTES], body[|body| - SIG_BYTES..])
      then Some((body[9], Get(body[10..18]))) else None
  }

  function HandleMessage(e: Env, s: State, data: seq<byte>): State
  {
    if |data| < ENVELOPE_BYTES + 1 then s
    else OnMessage(e, s, Get(data[10..18]), Get(data[2..10]), data[18..])
  }

  /** A MESSAGE that answers `spass` ends the op in flight if its body decodes. */
  function OnMessage(e: Env, s: State, spass: nat, grant: nat, body: seq<byte>): State
  {
    var i := FindWaiting(s.channels, true, spass, 0);
    if i == |s.channels| then s
    else
      var r := DecodeResult(e, s.channels[i].state.op.kind, s.channels[i].serverKey, body);
      if r.None? then s else Dispatch(e, AcceptReply(s, i, grant, body, r.value.0, r.value.1))
  }

  function AcceptReply(s: State, i: nat, grant: nat, body: seq<byte>, rc: int, paid: nat): State
    requires i < |s.channels| && s.channels[i].state.Busy?
  {
    var c := s.channels[i];
    var op := c.state.op;
    var t := s.(channels := s.channels[i := c.(ticket := grant, state := Ready)], pending := s.pending - 1,
                trace := s.trace + [ReplyAccepted(i, op.id, c.sentGPass, grant, op.kind, c.serverKey, body)]);
    Fire(t, op.id, rc, paid, Replied)
  }

  function OnReceive(e: Env, s: State, data: seq<byte>): State
  {
    if s.closed || data == [] then s
    else if data[0] == e.infoCode then HandleInfo(e, s, data)
    else if data[0] == e.messageCode then HandleMessage(e, s, data)
    else s
  }

  // ---- Sweep ----

  predicate Outstanding(c: Channel)
  {
    c.state.Handshaking? || c.state.Busy?
  }

  function RetryHandshake(e: Env, s: State, i: nat, now: int): State
    requires i < |s.channels|
  {
    var c := s.channels[i];
    if c.retries + 1 >= e.maxRetries then
      s.(channels := s.channels[i := c.(state := Idle, retries := c.retries + 1)])
    else
      var pw := e.password(s.drawn);
      s.(channels := s.channels[i := c.(retries := c.retries + 1, sentGPass := pw, sentAt := now)],
         drawn := s.drawn + 1, trace := s.trace + [GetInfoSent(i, pw)])
  }

  function GiveUp(s: State, i: nat, now: int): State
    requires i < |s.channels| && s.channels[i].state.Busy?
  {
    var c := s.channels[i];
    var op := c.state.op;
    Fire(s.(channels := s.channels[i := c.(state := Idle)], pending := s.pending - 1),
         op.id, CES_ERROR_TIMEOUT, 0, GaveUp(now, op.deadline))
  }

  function CountRetry(s: State, i: nat): State
    requires i < |s.channels|
  {
    s.(channels := s.channels[i := s.channels[i].(retries := s.channels[i].retries + 1)])
  }

  function Requeue(e: Env, s: State, i: nat): State
    requires i < |s.channels| && s.channels[i].state.Busy?
  {
    Handshake(e, s.(queue := [s.channels[i].state.op] + s.queue), i)
  }

  function RetryAfter(kind: OpKind): int
  {
    if kind == Gossip then GOSSIP_RETRY else RETRY
  }

  function SweepChannel(e: Env, s: State, i: nat, now: int): State
    requires i < |s.channels|
  {
    var c := s.channels[i];
    match c.state
    case Handshaking =>
      if now - c.sentAt <= HANDSHAKE_RETRY then s else RetryHandshake(e, s, i, now)
    case Busy(op) =>
      if op.deadline != 0 && now >= op.deadline then GiveUp(s, i, now)
      else if now - c.sentAt <= RetryAfter(op.kind) then s
      else if c.retries + 1 >= e.maxRetries then GiveUp(CountRetry(s, i), i, now)
      else Requeue(e, s, i)
    case _ => s
  }

  function SweepFrom(e: Env, s: State, i: nat, now: int): State
    requires i <= |s.channels|
    decreases |s.channels| - i
  {
    if i == |s.channels| then s else SweepFrom(e, SweepChannel(e, s, i, now), i + 1, now)
  }

  predicate AnyOutstanding(cs: seq<Channel>)
  {
    exists i :: 0 <= i < |cs| && Outstanding(cs[i])
  }

  /** The timer has fired, so it is no longer armed when the handler starts. */
  function SweepAll(e: Env, s: State): State
  {
    if s.closed then s
    else
      var t := Dispatch(e, SweepFrom(e, s.(ticks := s.ticks + 1, armed := false), 0, e.clock(s.ticks)));
      if AnyOutstanding(s.channels) || t.queue != [] then t.(armed := true) else t
  }

  // ---- Close ----

  function FailChannels(s: State, i: nat): State
    requires i <= |s.channels|
    decreases |s.channels| - i
  {
    if i == |s.channels| then s else FailChannels(FailChannel(s, i), i + 1)
  }

  function FailChannel(s: State, i: nat): State
    requires i < |s.channels|
  {
    var c := s.channels[i];
    var t := if c.state.Busy? then Fire(s, c.state.op.id, CES_ERROR_INTERNAL, 0, Closed) else s;
    t.(channels := s.channels[i := c.(state := Idle)])
  }

  function FailQueue(s: State): State
    decreases |s.queue|
  {
    if s.queue == [] then s
    else FailQueue(FailFront(s))
  }

  function FailFront(s: State): State
    requires s.queue != []
  {
    Fire(s.(queue := s.queue[1..]), s.queue[0].id, CES_ERROR_INTERNAL, 0, Closed)
  }

  function CloseAll(s: State): State
  {
    if s.closed then s
    else FailQueue(FailChannels(s.(closed := true, armed := false), 0)).(pending := 0)
  }

  // ---- Runs ----

  function Step(e: Env, s: State, ev: Event): State
  {
    match ev
    case SubmitTransfer(payload) => Submit(e, s, OpenTransfer, payload)
    case SubmitGossip(payload) => Submit(e, s, Gossip, payload)
    case Receive(data) => OnReceive(e, s, data)
    case Sweep => SweepAll(e, s)
    case Close => CloseAll(s)
  }

  function Run(e: Env, channels: nat, events: seq<Event>): State
  {
    if events == [] then Init(channels)
    else Step(e, Run(e, channels, events[..|events| - 1]), events[|events| - 1])
  }

  // ---- What a trace says ----

  /** How often the callback of op `id` was called. */
  function FiredCount(tr: seq<Obs>, id: nat): nat
  {
    if tr == [] then 0
    else
      var o := tr[|tr| - 1];
      FiredCount(tr[..|tr| - 1], id) + if o.Fired? && o.id == id then 1 else 0
  }

  function SentIds(tr: seq<Obs>): set<nat>
  {
    if tr == [] then {}
    else
      var o := tr[|tr| - 1];
      SentIds(tr[..|tr| - 1]) + if o.OpSent? then {o.id} else {}
  }

  /** Which op went out under which of our passwords. */
  function SentUnder(tr: seq<Obs>): set<(nat, OpKind, nat)>
  {
    if tr == [] then {}
    else
      var o := tr[|tr| - 1];
      SentUnder(tr[..|tr| - 1]) + if o.OpSent? then {(o.id, o.kind, o.gpass)} else {}
  }

  /** Ops transmitted at or after their deadline. */
  function LateIds(tr: seq<Obs>): set<nat>
  {
    if tr == [] then {}
    else
      var o := tr[|tr| - 1];
      LateIds(tr[..|tr| - 1]) + if o.OpSent? && o.at >= o.deadline then {o.id} else {}
  }

  function AcceptedPasswords(tr: seq<Obs>): set<nat>
  {
    if tr == [] then {}
    else
      var o := tr[|tr| - 1];
      AcceptedPasswords(tr[..|tr| - 1]) + if IsGrant(o) then {o.spass} else {}
  }

  predicate IsGrant(o: Obs) { o.InfoAccepted? || o.ReplyAccepted? }

  function GrantCount(tr: seq<Obs>): nat
  {
    if tr == [] then 0
    else GrantCount(tr[..|tr| - 1]) + if IsGrant(tr[|tr| - 1]) then 1 else 0
  }

  function SentCount(tr: seq<Obs>): nat
  {
    if tr == [] then 0
    else SentCount(tr[..|tr| - 1]) + if tr[|tr| - 1].OpSent? then 1 else 0
  }

  /** The ticket channel `c` was granted and has not spent, going by the trace alone. */
  function Unspent(tr: seq<Obs>, c: nat): Option<nat>
  {
    if tr == [] then None
    else
      var o := tr[|tr| - 1];
      if IsGrant(o) && o.ch == c then Some(o.grant)
      else if o.OpSent? && o.ch == c then None
      else Unspent(tr[..|tr| - 1], c)
  }
}
