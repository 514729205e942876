/** The pool of bridged sockets: global and per-address counts kept beside the sessions. */
module ProgSockets {
  import opened BigEndian
  import opened Framing
  import opened ProgSession

  type Id = nat

  datatype Tables = Tables(slots: map<Id, Session>, open: set<Id>, perIp: map<Ip, nat>)

  datatype Call = Handle(id: Id, ip: Ip, handshake: Bytes, allowed: bool, at: int) | On(id: Id, event: Event)

  // ---- The tables ----

  function CountFor(perIp: map<Ip, nat>, ip: Ip): nat
  {
    if ip in perIp then perIp[ip] else 0
  }

  predicate Admits(t: Tables, ip: Ip, allowed: bool, c: Config)
  {
    |t.open| < c.maxTotal && CountFor(t.perIp, ip) < c.maxPerIp && allowed
  }

  function Admit(t: Tables, id: Id, ip: Ip, handshake: Bytes, now: int): Tables
  {
    Tables(t.slots[id := NewSession(ip, handshake, now)], t.open + {id}, t.perIp[ip := CountFor(t.perIp, ip) + 1])
  }

  /** A missing count is read as one; a count that reaches zero is removed. */
  function Dropped(perIp: map<Ip, nat>, ip: Ip): map<Ip, nat>
  {
    var n := (if CountFor(perIp, ip) == 0 then 1 else CountFor(perIp, ip)) - 1;
    if n <= 0 then perIp - {ip} else perIp[ip := n]
  }

  /** A session that went down in this step gives its slot back. */
  function Settle(t: Tables, id: Id, s: Session): Tables
    requires id in t.slots
  {
    if s.down && !t.slots[id].down then Tables(t.slots[id := s], t.open - {id}, Dropped(t.perIp, s.ip))
    else t.(slots := t.slots[id := s])
  }

  ghost predicate Becomes(t: Tables, call: Call, c: Config, u: Tables)
  {
    match call
    case Handle(id, ip, handshake, allowed, at) =>
      id !in t.slots && u == if Admits(t, ip, allowed, c) then Admit(t, id, ip, handshake, at) else t
    case On(id, e) =>
      id in t.slots && Possible(t.slots[id], e) && u == Settle(t, id, Step(t.slots[id], e, c))
  }

  // ---- What every run keeps ----

  function Up(slots: map<Id, Session>): set<Id>
  {
    set id | id in slots && !slots[id].down
  }

  function UpFrom(slots: map<Id, Session>, ip: Ip): set<Id>
  {
    set id | id in slots && !slots[id].down && slots[id].ip == ip
  }

  ghost predicate Counted(slots: map<Id, Session>, perIp: map<Ip, nat>)
  {
    && (forall ip :: ip in perIp ==> perIp[ip] > 0)
    && (forall ip :: CountFor(perIp, ip) == |UpFrom(slots, ip)|)
  }

  ghost predicate Capped(slots: map<Id, Session>, c: Config)
  {
    && (|Up(slots)| == 0 || |Up(slots)| <= c.maxTotal)
    && (forall ip :: |UpFrom(slots, ip)| == 0 || |UpFrom(slots, ip)| <= c.maxPerIp)
  }

  ghost predicate Sound(slots: map<Id, Session>, c: Config)
  {
    forall id :: id in slots ==> Inv(slots[id], c)
  }

  ghost predicate PoolInv(t: Tables, c: Config)
  {
    t.open == Up(t.slots) && Counted(t.slots, t.perIp) && Capped(t.slots, c)
  }

  lemma AddUpAll(slots: map<Id, Session>, id: Id, s: Session)
    requires id !in slots && !s.down
    ensures Up(slots[id := s]) == Up(slots) + {id} && |Up(slots[id := s])| == |Up(slots)| + 1
  {
    assert Up(slots[id := s]) == Up(slots) + {id};
  }

  lemma AddUpFrom(slots: map<Id, Session>, id: Id, s: Session)
    requires id !in slots && !s.down
    ensures UpFrom(slots[id := s], s.ip) == UpFrom(slots, s.ip) + {id} && id !in UpFrom(slots, s.ip)
  {
  }

  lemma AddUpOther(slots: map<Id, Session>, id: Id, s: Session, ip: Ip)
    requires id !in slots && ip != s.ip
    ensures UpFrom(slots[id := s], ip) == UpFrom(slots, ip)
  {
  }

  lemma AddUp(slots: map<Id, Session>, id: Id, s: Session, ip: Ip)
    requires id !in slots && !s.down
    ensures |UpFrom(slots[id := s], ip)| == |UpFrom(slots, ip)| + if ip == s.ip then 1 else 0
  {
    if ip == s.ip { AddUpFrom(slots, id, s); } else { AddUpOther(slots, id, s, ip); }
  }

  lemma DropUp(slots: map<Id, Session>, id: Id, s: Session, ip: Ip)
    requires id in slots && !slots[id].down && s.down && s.ip == slots[id].ip
    ensures Up(slots[id := s]) == Up(slots) - {id} && |Up(slots[id := s])| == |Up(slots)| - 1
    ensures |UpFrom(slots[id := s], ip)| == |UpFrom(slots, ip)| - if ip == s.ip then 1 else 0
  {
    assert Up(slots[id := s]) == Up(slots) - {id};
    if ip == s.ip {
      assert UpFrom(slots[id := s], ip) == UpFrom(slots, ip) - {id};
    } else {
      assert UpFrom(slots[id := s], ip) == UpFrom(slots, ip);
    }
  }

  lemma SameUp(slots: map<Id, Session>, id: Id, s: Session, ip: Ip)
    requires id in slots && s.down == slots[id].down && s.ip == slots[id].ip
    ensures Up(slots[id := s]) == Up(slots) && UpFrom(slots[id := s], ip) == UpFrom(slots, ip)
  {
  }

  lemma CountAdd(slots: map<Id, Session>, perIp: map<Ip, nat>, id: Id, s: Session)
    requires Counted(slots, perIp) && id !in slots && !s.down
    ensures Counted(slots[id := s], perIp[s.ip := CountFor(perIp, s.ip) + 1])
  {
    var after, counts := slots[id := s], perIp[s.ip := CountFor(perIp, s.ip) + 1];
    forall ip: Ip
      ensures CountFor(counts, ip) == |UpFrom(after, ip)|
    {
      AddUp(slots, id, s, ip);
    }
  }

  lemma CapAdd(slots: map<Id, Session>, id: Id, s: Session, c: Config)
    requires Capped(slots, c) && id !in slots && !s.down
    requires |Up(slots)| < c.maxTotal && |UpFrom(slots, s.ip)| < c.maxPerIp
    ensures Capped(slots[id := s], c)
  {
    var after := slots[id := s];
    forall ip: Ip
      ensures |UpFrom(after, ip)| == 0 || |UpFrom(after, ip)| <= c.maxPerIp
    {
      AddUp(slots, id, s, ip);
    }
    AddUpAll(slots, id, s);
  }

  lemma SoundSet(slots: map<Id, Session>, id: Id, s: Session, c: Config)
    requires Sound(slots, c) && Inv(s, c)
    ensures Sound(slots[id := s], c)
  {
  }

  lemma AdmitKeeps(t: Tables, id: Id, ip: Ip, handshake: Bytes, now: int, c: Config)
    requires PoolInv(t, c) && id !in t.slots && Admits(t, ip, true, c)
    ensures PoolInv(Admit(t, id, ip, handshake, now), c)
  {
    var s := NewSession(ip, handshake, now);
    CountAdd(t.slots, t.perIp, id, s);
    CapAdd(t.slots, id, s, c);
    AddUpAll(t.slots, id, s);
  }

  /** `s` replaces a session that was up, from the same address, and is down. */
  predicate Ends(slots: map<Id, Session>, id: Id, s: Session)
  {
    id in slots && !slots[id].down && s.down && s.ip == slots[id].ip
  }

  lemma CountDrop(slots: map<Id, Session>, perIp: map<Ip, nat>, id: Id, s: Session)
    requires Counted(slots, perIp) && Ends(slots, id, s)
    ensures Counted(slots[id := s], Dropped(perIp, s.ip))
  {
    assert id in UpFrom(slots, s.ip);
    var after, counts := slots[id := s], Dropped(perIp, s.ip);
    forall ip: Ip
      ensures CountFor(counts, ip) == |UpFrom(after, ip)|
    {
      DropUp(slots, id, s, ip);
    }
  }

  lemma CapDrop(slots: map<Id, Session>, id: Id, s: Session, c: Config)
    requires Capped(slots, c) && Ends(slots, id, s)
    ensures Capped(slots[id := s], c)
  {
    var after := slots[id := s];
    forall ip: Ip
      ensures |UpFrom(after, ip)| == 0 || |UpFrom(after, ip)| <= c.maxPerIp
    {
      DropUp(slots, id, s, ip);
    }
    DropUp(slots, id, s, s.ip);
  }

  lemma DropKeeps(t: Tables, id: Id, s: Session, c: Config)
    requires PoolInv(t, c) && Ends(t.slots, id, s)
    ensures PoolInv(Settle(t, id, s), c)
  {
    CountDrop(t.slots, t.perIp, id, s);
    CapDrop(t.slots, id, s, c);
    DropUp(t.slots, id, s, s.ip);
  }

  lemma StayKeeps(t: Tables, id: Id, s: Session, c: Config)
    requires PoolInv(t, c) && id in t.slots && s.down == t.slots[id].down && s.ip == t.slots[id].ip
    ensures PoolInv(Settle(t, id, s), c)
  {
    var after := t.slots[id := s];
    forall ip: Ip
      ensures UpFrom(after, ip) == UpFrom(t.slots, ip)
    {
      SameUp(t.slots, id, s, ip);
    }
    SameUp(t.slots, id, s, s.ip);
  }

  lemma NobodyUp(slots: map<Id, Session>, perIp: map<Ip, nat>)
    requires Counted(slots, perIp) && Up(slots) == {}
    ensures perIp == map[]
  {
    forall ip: Ip
      ensures CountFor(perIp, ip) == 0 && ip !in perIp
    {
      assert UpFrom(slots, ip) <= Up(slots);
      assert CountFor(perIp, ip) == |UpFrom(slots, ip)|;
    }
    assert perIp.Keys == {};
  }

  /** No event changes the address or brings a session back up. */
  lemma StepSameIp(s: Session, e: Event, c: Config)
    ensures Step(s, e, c).ip == s.ip && (s.down ==> Step(s, e, c).down)
  {
    match e
    case Chunk(d, now, amount) =>
      if !s.down && s.totalOut + |d| <= c.maxBytes {
        DrainDelivers(Took(s, d, now), amount, c);
      }
    case Message(data, now) =>
    case _ =>
  }

  lemma CallKeeps(t: Tables, call: Call, c: Config, u: Tables)
    requires PoolInv(t, c) && Becomes(t, call, c, u)
    ensures PoolInv(u, c)
  {
    match call
    case Handle(id, ip, handshake, allowed, at) =>
      if Admits(t, ip, allowed, c) { AdmitKeeps(t, id, ip, handshake, at, c); }
    case On(id, e) =>
      var s := Step(t.slots[id], e, c);
      StepSameIp(t.slots[id], e, c);
      if s.down && !t.slots[id].down { DropKeeps(t, id, s, c); } else { StayKeeps(t, id, s, c); }
  }

  ghost predicate IsRun(calls: seq<Call>, c: Config, u: Tables)
  {
    if calls == [] then u == Tables(map[], {}, map[])
    else
      var past, call := calls[..|calls| - 1], calls[|calls| - 1];
      exists t :: IsRun(past, c, t) && Becomes(t, call, c, u)
  }

  lemma EmptyPool(c: Config)
    ensures PoolInv(Tables(map[], {}, map[]), c)
  {
    assert forall ip :: UpFrom(map[], ip) == {};
  }

  lemma {:induction false} RunKeeps(calls: seq<Call>, c: Config, u: Tables)
    requires IsRun(calls, c, u)
    ensures PoolInv(u, c)
  {
    if calls == [] {
      EmptyPool(c);
    } else {
      var past, call := calls[..|calls| - 1], calls[|calls| - 1];
      var t :| IsRun(past, c, t) && Becomes(t, call, c, u);
      RunKeeps(past, c, t);
      CallKeeps(t, call, c, u);
    }
  }

  lemma CallSound(t: Tables, call: Call, c: Config, u: Tables)
    requires Sound(t.slots, c) && Becomes(t, call, c, u)
    ensures Sound(u.slots, c)
  {
    match call
    case Handle(id, ip, handshake, allowed, at) =>
      NewSessionInv(ip, handshake, at, c);
      SoundSet(t.slots, id, NewSession(ip, handshake, at), c);
    case On(id, e) =>
      ProgSession.StepKeeps(t.slots[id], e, c);
      SoundSet(t.slots, id, Step(t.slots[id], e, c), c);
  }

  /** Every session of the pool, in every run, bridges faithfully. */
  lemma {:induction false} EverySessionIsSound(calls: seq<Call>, c: Config, u: Tables)
    requires IsRun(calls, c, u)
    ensures forall id :: id in u.slots ==> Inv(u.slots[id], c)
  {
    if calls != [] {
      var past, call := calls[..|calls| - 1], calls[|calls| - 1];
      var t :| IsRun(past, c, t) && Becomes(t, call, c, u);
      EverySessionIsSound(past, c, t);
      CallSound(t, call, c, u);
    }
  }

  /** In every run the tables say exactly which sockets are up, and the caps hold globally and per address. */
  lemma PoolIsExact(calls: seq<Call>, c: Config, u: Tables, ip: Ip)
    requires IsRun(calls, c, u)
    ensures u.open == Up(u.slots) && (u.open == {} || |u.open| <= c.maxTotal)
    ensures CountFor(u.perIp, ip) == |UpFrom(u.slots, ip)| && (ip in u.perIp <==> UpFrom(u.slots, ip) != {})
    ensures ip in u.perIp ==> u.perIp[ip] <= c.maxPerIp
    ensures u.open == {} ==> u.perIp == map[]
  {
    RunKeeps(calls, c, u);
    if u.open == {} { NobodyUp(u.slots, u.perIp); }
  }

  // ---- The object ----

  class ProgWsManager {
    const c: Config
    var slots: map<Id, Session>
    var sessions: set<Id>
    var perIp: map<Ip, nat>

    ghost function View(): Tables
      reads this
    {
      Tables(slots, sessions, perIp)
    }

    ghost predicate Valid()
      reads this
    {
      PoolInv(View(), c)
    }

    constructor (config: Config)
      ensures Valid() && c == config && View() == Tables(map[], {}, map[])
    {
      c, slots, sessions, perIp := config, map[], {}, map[];
      EmptyPool(config);
    }

    method HandleSocket(id: Id, ip: Ip, handshake: Bytes, allowed: bool, now: int) returns (ok: bool)
      requires Valid() && id !in slots
      modifies this
      ensures Valid() && Becomes(old(View()), Handle(id, ip, handshake, allowed, now), c, View())
      ensures ok == Admits(old(View()), ip, allowed, c)
    {
      ghost var before := View();
      ok := TryAdmit(id, ip, handshake, allowed, now);
      CallKeeps(before, Handle(id, ip, handshake, allowed, now), c, View());
    }

    method TryAdmit(id: Id, ip: Ip, handshake: Bytes, allowed: bool, now: int) returns (ok: bool)
      modifies this
      ensures ok == Admits(old(View()), ip, allowed, c)
      ensures View() == if ok then Admit(old(View()), id, ip, handshake, now) else old(View())
    {
      if |sessions| >= c.maxTotal { return false; }
      var ipN := if ip in perIp then perIp[ip] else 0;
      if ipN >= c.maxPerIp { return false; }
      if !allowed { return false; }
      slots := slots[id := NewSession(ip, handshake, now)];
      sessions := sessions + {id};
      perIp := perIp[ip := ipN + 1];
      ok := true;
    }

    /** Ends a session once; later calls find it down. */
    method Teardown(id: Id)
      requires Valid() && id in slots
      modifies this
      ensures Valid() && Becomes(old(View()), On(id, Close), c, View())
      ensures id !in sessions && slots[id].down
    {
      ghost var before := View();
      Drop(id);
      assert before.slots[id].down ==> before.slots == before.slots[id := before.slots[id]];
      CallKeeps(before, On(id, Close), c, View());
    }

    method Drop(id: Id)
      requires id in slots
      modifies this
      ensures old(slots[id].down) ==> View() == old(View())
      ensures !old(slots[id].down) ==>
        View() == Tables(old(slots)[id := Down(old(slots[id]))], old(sessions) - {id},
                         Dropped(old(perIp), old(slots[id].ip)))
    {
      if slots[id].down { return; }
      var ip := slots[id].ip;
      slots := slots[id := Down(slots[id])];
      sessions := sessions - {id};
      var n := (if ip in perIp && perIp[ip] != 0 then perIp[ip] else 1) - 1;
      if n <= 0 { perIp := perIp - {ip}; } else { perIp := perIp[ip := n]; }
    }

    /** De-frames what the program sent. */
    method Receive(id: Id, d: Bytes, now: int, amount: nat -> int)
      requires Valid() && id in slots
      modifies this
      ensures Valid() && Becomes(old(View()), On(id, Chunk(d, now, amount)), c, View())
    {
      ghost var before := View();
      TakeChunk(id, d, now, amount);
      CallKeeps(before, On(id, Chunk(d, now, amount)), c, View());
    }

    method TakeChunk(id: Id, d: Bytes, now: int, amount: nat -> int)
      requires id in slots
      modifies this
      ensures View() == Settle(old(View()), id, FromProgram(old(slots[id]), d, now, amount, c))
    {
      if slots[id].down {
        assert slots == slots[id := slots[id]];
        return;
      }
      var s, over := AbsorbChunk(slots[id], d, now, amount);
      slots := slots[id := s];
      if over { Drop(id); }
    }

    method AbsorbChunk(s0: Session, d: Bytes, now: int, amount: nat -> int) returns (s: Session, over: bool)
      requires !s0.down
      ensures !s.down && s.ip == s0.ip && FromProgram(s0, d, now, amount, c) == if over then Down(s) else s
    {
      s := s0.(lastActive := now, totalOut := s0.totalOut + |d|);
      over := s.totalOut > c.maxBytes;
      if !over {
        s := s.(rxBuf := s.rxBuf + d, received := s.received + d);
        s, over := Deliver(s, amount);
      }
    }

    /** The loop over whole messages; `over` asks for a tear-down. */
    method Deliver(s0: Session, amount: nat -> int) returns (s: Session, over: bool)
      requires !s0.down
      ensures !s.down && s.ip == s0.ip && Drain(s0, amount, c) == if over then Down(s) else s
    {
      s, over := s0, false;
      while true
        invariant !s.down && s.ip == s0.ip && Drain(s0, amount, c) == Drain(s, amount, c)
        decreases |s.rxBuf|
      {
        if |s.rxBuf| < 4 { return; }
        var len := Get(s.rxBuf[..4]);
        if len > c.maxMsg { over := true; return; }
        if |s.rxBuf| < 4 + len { return; }
        var payload := s.rxBuf[4..4 + len];
        var n := |s.toBrowser|;
        s := s.(rxBuf := s.rxBuf[4 + len..]);
        if amount(n) > c.outBufCap { over := true; return; }
        s := s.(toBrowser := s.toBrowser + [payload]);
      }
    }

    method StopAll()
      requires Valid()
      modifies this
      ensures Valid() && sessions == {} && perIp == map[]
    {
      while sessions != {}
        invariant Valid()
        decreases |sessions|
      {
        var id :| id in sessions;
        Teardown(id);
      }
      NobodyUp(slots, perIp);
    }
  }
}
