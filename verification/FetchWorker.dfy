/**
 * The gateway's fetch worker: every foreground job and every background refill is a
 * coroutine that runs from one `await` to the next, and a counting semaphore with a
 * waiting line admits at most `limit` of them to the download section.
 */
module FetchWorker {

  type Id = nat

  /**
   * Where a coroutine is suspended.  `Left` ended before asking for the worker, `Finished`
   * after holding it; `Granted`, `Clearing` and `Fetching` hold it.
   */
  datatype Pc = Resolving | Statting | Left | Queued | Granted | Clearing | Fetching | Finished

  predicate Holds(p: Pc) { p.Granted? || p.Clearing? || p.Fetching? }

  predicate Admitted(p: Pc) { Holds(p) || p.Finished? }

  /** `arrivals`, `grants` and `releases` record the order of calls; the code keeps only the rest. */
  datatype State = State(
    stopped: bool, active: nat, waiters: seq<Id>, pc: map<Id, Pc>,
    arrivals: seq<Id>, grants: seq<Id>, releases: seq<Id>)

  /** `Resume(id, ok)`: what `id` awaited has settled; `ok` is false for every failing or early way out. */
  datatype Event = Start(id: Id) | Resume(id: Id, ok: bool) | Stop

  const Empty := State(false, 0, [], map[], [], [], [])

  // ---- The semaphore ----

  function Acquire(s: State, id: Id, limit: nat): State
  {
    var t := s.(arrivals := s.arrivals + [id]);
    if s.active < limit then t.(active := s.active + 1, grants := s.grants + [id], pc := s.pc[id := Granted])
    else t.(waiters := s.waiters + [id], pc := s.pc[id := Queued])
  }

  /** The `finally` of the download section: hand the slot to the first waiter or give it up. */
  function Release(s: State, id: Id): State
    requires s.waiters == [] ==> s.active > 0
  {
    var t := s.(releases := s.releases + [id]);
    if s.waiters != [] then
      t.(waiters := s.waiters[1..], grants := s.grants + [s.waiters[0]],
         pc := s.pc[id := Finished][s.waiters[0] := Granted])
    else t.(active := s.active - 1, pc := s.pc[id := Finished])
  }

  predicate Movable(s: State, id: Id)
  {
    id in s.pc && s.pc[id] !in {Left, Queued, Finished}
  }

  function Advance(s: State, id: Id, ok: bool, limit: nat): State
    requires Movable(s, id)
    requires Holds(s.pc[id]) && s.waiters == [] ==> s.active > 0
  {
    match s.pc[id]
    case Resolving => s.(pc := s.pc[id := if ok then Statting else Left])
    case Statting => if ok then Acquire(s, id, limit) else s.(pc := s.pc[id := Left])
    case Granted => if s.stopped then Release(s, id) else s.(pc := s.pc[id := Clearing])
    case Clearing => if ok then s.(pc := s.pc[id := Fetching]) else Release(s, id)
    case Fetching => Release(s, id)
  }

  ghost predicate Leads(s: State, e: Event, limit: nat, t: State)
  {
    match e
    case Start(id) => id !in s.pc && t == s.(pc := s.pc[id := Resolving])
    case Resume(id, ok) =>
      && Movable(s, id) && (Holds(s.pc[id]) && s.waiters == [] ==> s.active > 0)
      && t == Advance(s, id, ok, limit)
    case Stop => t == s.(stopped := true)
  }

  ghost predicate IsRun(events: seq<Event>, limit: nat, t: State)
  {
    if events == [] then t == Empty
    else
      var past, e := events[..|events| - 1], events[|events| - 1];
      exists s :: IsRun(past, limit, s) && Leads(s, e, limit, t)
  }

  // ---- What every interleaving keeps ----

  function Holders(pc: map<Id, Pc>): set<Id>
  {
    set id | id in pc && Holds(pc[id])
  }

  ghost predicate NoRepeat(ids: seq<Id>)
  {
    forall i, j :: 0 <= i < j < |ids| ==> ids[i] != ids[j]
  }

  ghost predicate Lined(waiters: seq<Id>, pc: map<Id, Pc>)
  {
    NoRepeat(waiters) && forall id :: id in waiters <==> id in pc && pc[id].Queued?
  }

  ghost predicate Recorded(grants: seq<Id>, releases: seq<Id>, pc: map<Id, Pc>)
  {
    && NoRepeat(grants) && (forall id :: id in grants <==> id in pc && Admitted(pc[id]))
    && NoRepeat(releases) && (forall id :: id in releases <==> id in pc && pc[id].Finished?)
  }

  ghost predicate Inv(s: State, limit: nat)
  {
    && s.active == |Holders(s.pc)| <= limit
    && (s.waiters != [] ==> s.active == limit)
    && s.arrivals == s.grants + s.waiters
    && Lined(s.waiters, s.pc)
    && Recorded(s.grants, s.releases, s.pc)
  }

  /** A move that neither enters nor leaves the line or the section changes no count. */
  lemma QuietMove(s: State, id: Id, p: Pc, limit: nat)
    requires Inv(s, limit) && !p.Queued?
    requires id in s.pc ==> !s.pc[id].Queued?
    requires (id in s.pc && Holds(s.pc[id])) <==> Holds(p)
    requires (id in s.pc && s.pc[id].Finished?) <==> p.Finished?
    ensures Inv(s.(pc := s.pc[id := p]), limit)
  {
    assert Holders(s.pc[id := p]) == Holders(s.pc);
  }

  lemma AcquireKeeps(s: State, id: Id, limit: nat)
    requires Inv(s, limit) && id in s.pc && s.pc[id].Statting?
    ensures Inv(Acquire(s, id, limit), limit)
  {
    var t := Acquire(s, id, limit);
    if s.active < limit {
      assert Holders(t.pc) == Holders(s.pc) + {id};
      assert t.arrivals == t.grants + t.waiters;
      AppendFresh(s.grants, id);
    } else {
      assert Holders(t.pc) == Holders(s.pc);
      AppendFresh(s.waiters, id);
    }
  }

  lemma AppendFresh(ids: seq<Id>, id: Id)
    requires NoRepeat(ids) && id !in ids
    ensures NoRepeat(ids + [id]) && forall x :: x in ids + [id] <==> x in ids || x == id
  {
  }

  lemma DropFirst(ids: seq<Id>)
    requires NoRepeat(ids) && ids != []
    ensures NoRepeat(ids[1..]) && forall x :: x in ids[1..] <==> x in ids && x != ids[0]
  {
  }

  lemma ReleaseEmpty(s: State, id: Id, limit: nat)
    requires Inv(s, limit) && id in s.pc && Holds(s.pc[id]) && s.waiters == [] && s.active > 0
    ensures Inv(Release(s, id), limit)
  {
    var t := Release(s, id);
    assert Holders(t.pc) == Holders(s.pc) - {id};
    AppendFresh(s.releases, id);
  }

  lemma HandOverCounts(pc: map<Id, Pc>, id: Id, next: Id)
    requires id in pc && Holds(pc[id]) && next in pc && pc[next].Queued?
    ensures |Holders(pc[id := Finished][next := Granted])| == |Holders(pc)|
  {
    assert Holders(pc[id := Finished][next := Granted]) == Holders(pc) - {id} + {next};
  }

  lemma HandOverLined(waiters: seq<Id>, pc: map<Id, Pc>, id: Id)
    requires Lined(waiters, pc) && waiters != [] && id in pc && Holds(pc[id])
    ensures Lined(waiters[1..], pc[id := Finished][waiters[0] := Granted])
  {
    assert waiters[0] in waiters;
    DropFirst(waiters);
  }

  lemma HandOverRecorded(grants: seq<Id>, releases: seq<Id>, pc: map<Id, Pc>, id: Id, next: Id)
    requires Recorded(grants, releases, pc)
    requires id in pc && Holds(pc[id]) && next in pc && pc[next].Queued?
    ensures Recorded(grants + [next], releases + [id], pc[id := Finished][next := Granted])
  {
    AppendFresh(releases, id);
    AppendFresh(grants, next);
  }

  lemma ReleaseHandsOver(s: State, id: Id, limit: nat)
    requires Inv(s, limit) && id in s.pc && Holds(s.pc[id]) && s.waiters != []
    ensures Inv(Release(s, id), limit)
  {
    var next := s.waiters[0];
    assert next in s.waiters;
    HandOverCounts(s.pc, id, next);
    HandOverLined(s.waiters, s.pc, id);
    HandOverRecorded(s.grants, s.releases, s.pc, id, next);
    assert s.waiters == [next] + s.waiters[1..];
  }

  /** A holder exists, so `active` is positive and the decrement cannot pass zero. */
  lemma HolderCounted(s: State, id: Id, limit: nat)
    requires Inv(s, limit) && id in s.pc && Holds(s.pc[id])
    ensures s.active > 0
  {
    assert id in Holders(s.pc);
  }

  lemma ReleaseKeeps(s: State, id: Id, limit: nat)
    requires Inv(s, limit) && id in s.pc && Holds(s.pc[id])
    ensures s.active > 0 && Inv(Release(s, id), limit)
  {
    HolderCounted(s, id, limit);
    if s.waiters == [] { ReleaseEmpty(s, id, limit); } else { ReleaseHandsOver(s, id, limit); }
  }

  lemma AdvanceKeeps(s: State, id: Id, ok: bool, limit: nat)
    requires Inv(s, limit) && Movable(s, id)
    ensures Holds(s.pc[id]) ==> s.active > 0
    ensures Inv(Advance(s, id, ok, limit), limit)
  {
    match s.pc[id]
    case Resolving => QuietMove(s, id, if ok then Statting else Left, limit);
    case Statting => if ok { AcquireKeeps(s, id, limit); } else { QuietMove(s, id, Left, limit); }
    case Granted =>
      HolderCounted(s, id, limit);
      if s.stopped { ReleaseKeeps(s, id, limit); } else { QuietMove(s, id, Clearing, limit); }
    case Clearing =>
      HolderCounted(s, id, limit);
      if ok { QuietMove(s, id, Fetching, limit); } else { ReleaseKeeps(s, id, limit); }
    case Fetching => ReleaseKeeps(s, id, limit);
  }

  lemma StepKeeps(s: State, e: Event, limit: nat, t: State)
    requires Inv(s, limit) && Leads(s, e, limit, t)
    ensures Inv(t, limit)
  {
    match e
    case Start(id) => QuietMove(s, id, Resolving, limit);
    case Stop =>
    case Resume(id, ok) => AdvanceKeeps(s, id, ok, limit);
  }

  lemma {:induction false} RunKeeps(events: seq<Event>, limit: nat, t: State)
    requires IsRun(events, limit, t)
    ensures Inv(t, limit)
  {
    if events != [] {
      var past, e := events[..|events| - 1], events[|events| - 1];
      var s :| IsRun(past, limit, s) && Leads(s, e, limit, t);
      RunKeeps(past, limit, s);
      StepKeeps(s, e, limit, t);
    } else {
      assert Holders(map[]) == {};
    }
  }

  // ---- Consequences ----

  /** `active` counts the holders, never more than the limit, and a waiter means there is no free slot. */
  lemma ActiveIsExact(events: seq<Event>, limit: nat, t: State)
    requires IsRun(events, limit, t)
    ensures t.active == |Holders(t.pc)| <= limit
    ensures (exists id :: id in t.pc && t.pc[id].Queued?) ==> t.active == limit
  {
    RunKeeps(events, limit, t);
  }

  /** The worker is granted in the order it was asked for: nobody is overtaken. */
  lemma FirstComeFirstServed(events: seq<Event>, limit: nat, t: State)
    requires IsRun(events, limit, t)
    ensures NoRepeat(t.grants) && t.grants + t.waiters == t.arrivals
  {
    RunKeeps(events, limit, t);
  }

  /** Every grant is given back exactly once, when its coroutine ends, by whichever way out. */
  lemma ReleasedOnce(events: seq<Event>, limit: nat, t: State, id: Id)
    requires IsRun(events, limit, t)
    ensures NoRepeat(t.releases)
    ensures id in t.releases <==> id in t.grants && id in t.pc && !Holds(t.pc[id])
    ensures id in t.pc && t.pc[id].Left? ==> id !in t.grants && id !in t.arrivals
  {
    RunKeeps(events, limit, t);
    assert id in t.arrivals ==> id in t.grants || id in t.waiters;
  }

  // ---- Progress ----

  lemma SomeoneMoves(s: State, limit: nat)
    requires Inv(s, limit) && limit > 0 && s.waiters != []
    ensures exists id :: Movable(s, id)
  {
    assert |Holders(s.pc)| > 0;
    var id :| id in Holders(s.pc);
    assert Movable(s, id);
  }

  /** If nothing can move then nobody waits, unless the worker admits no one at all. */
  lemma NoDeadlock(t: State, limit: nat)
    requires Inv(t, limit) && limit > 0
    requires forall id :: !Movable(t, id)
    ensures forall id :: id in t.pc ==> t.pc[id].Left? || t.pc[id].Finished?
  {
    if t.waiters != [] { SomeoneMoves(t, limit); }
    forall id | id in t.pc
      ensures t.pc[id].Left? || t.pc[id].Finished?
    {
      assert !Movable(t, id);
    }
  }

  function Rank(p: Pc): nat
  {
    match p
    case Resolving => 6
    case Statting => 5
    case Queued => 4
    case Granted => 3
    case Clearing => 2
    case Fetching => 1
    case _ => 0
  }

  /** Steps still ahead of the coroutines in `ids`. */
  ghost function WorkOf(pc: map<Id, Pc>, ids: set<Id>): nat
    requires ids <= pc.Keys
  {
    if ids == {} then 0 else
      var id :| id in ids;
      Rank(pc[id]) + WorkOf(pc, ids - {id})
  }

  lemma {:induction false} WorkSplit(pc: map<Id, Pc>, ids: set<Id>, id: Id)
    requires ids <= pc.Keys && id in ids
    ensures WorkOf(pc, ids) == Rank(pc[id]) + WorkOf(pc, ids - {id})
  {
    var x :| x in ids && WorkOf(pc, ids) == Rank(pc[x]) + WorkOf(pc, ids - {x});
    if x != id {
      WorkSplit(pc, ids - {x}, id);
      WorkSplit(pc, ids - {id}, x);
      assert ids - {x} - {id} == ids - {id} - {x};
    }
  }

  lemma {:induction false} WorkSame(a: map<Id, Pc>, b: map<Id, Pc>, ids: set<Id>)
    requires ids <= a.Keys && ids <= b.Keys && forall id :: id in ids ==> a[id] == b[id]
    ensures WorkOf(a, ids) == WorkOf(b, ids)
  {
    if ids != {} {
      var id :| id in ids;
      WorkSplit(a, ids, id);
      WorkSplit(b, ids, id);
      WorkSame(a, b, ids - {id});
    }
  }

  lemma WorkAfter(pc: map<Id, Pc>, id: Id, p: Pc)
    requires id in pc
    ensures WorkOf(pc[id := p], pc.Keys) == WorkOf(pc, pc.Keys) - Rank(pc[id]) + Rank(p)
  {
    WorkSplit(pc, pc.Keys, id);
    WorkSplit(pc[id := p], pc.Keys, id);
    WorkSame(pc, pc[id := p], pc.Keys - {id});
  }

  ghost function Work(s: State): nat { WorkOf(s.pc, s.pc.Keys) }

  /** Every resumption brings the end nearer, so with no new starts everything ends. */
  lemma ResumeShrinks(s: State, id: Id, ok: bool, limit: nat)
    requires Inv(s, limit) && Movable(s, id)
    ensures Holds(s.pc[id]) ==> s.active > 0
    ensures var t := Advance(s, id, ok, limit); t.pc.Keys == s.pc.Keys && Work(t) < Work(s)
  {
    if Holds(s.pc[id]) { HolderCounted(s, id, limit); }
    var t := Advance(s, id, ok, limit);
    assert s.pc[id := t.pc[id]].Keys == s.pc.Keys;
    WorkAfter(s.pc, id, t.pc[id]);
    if t.pc[id].Finished? && s.waiters != [] {
      var next := s.waiters[0];
      assert next in s.waiters;
      assert t.pc == s.pc[id := Finished][next := Granted];
      WorkAfter(s.pc[id := Finished], next, Granted);
      assert t.pc.Keys == s.pc.Keys;
    }
  }

  /** `steps` resumes coroutines of `s` one after another and ends in `t`; nothing new starts. */
  ghost predicate Drains(s: State, steps: seq<(Id, bool)>, limit: nat, t: State)
    decreases |steps|
  {
    if steps == [] then t == s
    else
      && Movable(s, steps[0].0)
      && (Holds(s.pc[steps[0].0]) && s.waiters == [] ==> s.active > 0)
      && Drains(Advance(s, steps[0].0, steps[0].1, limit), steps[1..], limit, t)
  }

  lemma {:induction false} DrainBounded(s: State, steps: seq<(Id, bool)>, limit: nat, t: State)
    requires Inv(s, limit) && Drains(s, steps, limit, t)
    ensures Inv(t, limit) && |steps| + Work(t) <= Work(s)
    decreases |steps|
  {
    if steps != [] {
      var (id, ok) := steps[0];
      ResumeShrinks(s, id, ok, limit);
      var next := Advance(s, id, ok, limit);
      AdvanceKeeps(s, id, ok, limit);
      DrainBounded(next, steps[1..], limit, t);
    }
  }

  /**
   * From every reachable state, resuming whatever can move stops after at most `Work(s)` steps,
   * and where it stops every coroutine has ended: nobody is left waiting for the worker.
   */
  lemma EveryoneIsServed(events: seq<Event>, limit: nat, s: State, steps: seq<(Id, bool)>, t: State)
    requires IsRun(events, limit, s) && limit > 0 && Drains(s, steps, limit, t)
    ensures |steps| <= Work(s)
    ensures (forall id :: !Movable(t, id)) ==> forall id :: id in t.pc ==> t.pc[id].Left? || t.pc[id].Finished?
  {
    RunKeeps(events, limit, s);
    DrainBounded(s, steps, limit, t);
    if forall id :: !Movable(t, id) { NoDeadlock(t, limit); }
  }

  // ---- The object ----

  class Engine {
    const maxInflight: nat
    var stopped: bool
    var active: nat
    var waiters: seq<Id>
    var pc: map<Id, Pc>
    ghost var arrivals: seq<Id>
    ghost var grants: seq<Id>
    ghost var releases: seq<Id>

    ghost function View(): State
      reads this
    {
      State(stopped, active, waiters, pc, arrivals, grants, releases)
    }

    ghost predicate Valid()
      reads this
    {
      Inv(View(), maxInflight)
    }

    constructor (limit: nat)
      ensures View() == Empty && maxInflight == limit && Valid()
    {
      maxInflight, stopped, active, waiters, pc := limit, false, 0, [], map[];
      arrivals, grants, releases := [], [], [];
      assert Holders(map[]) == {};
    }

    method AcquireWorker(id: Id)
      modifies this`active, this`waiters, this`pc, this`arrivals, this`grants
      ensures View() == Acquire(old(View()), id, maxInflight)
    {
      arrivals := arrivals + [id];
      if active < maxInflight {
        active := active + 1;
        pc := pc[id := Granted];
        grants := grants + [id];
      } else {
        waiters := waiters + [id];
        pc := pc[id := Queued];
      }
    }

    method ReleaseWorker(id: Id)
      requires waiters == [] ==> active > 0
      modifies this`active, this`waiters, this`pc, this`grants, this`releases
      ensures View() == Release(old(View()), id)
    {
      releases := releases + [id];
      pc := pc[id := Finished];
      if waiters != [] {
        var next := waiters[0];
        waiters := waiters[1..];
        pc := pc[next := Granted];
        grants := grants + [next];
      } else {
        active := active - 1;
      }
    }

    method Begin(id: Id)
      requires Valid() && id !in pc
      modifies this
      ensures Valid() && Leads(old(View()), Start(id), maxInflight, View())
    {
      pc := pc[id := Resolving];
      StepKeeps(old(View()), Start(id), maxInflight, View());
    }

    /** Runs `id` from where it is suspended to its next `await` or to its end. */
    method Continue(id: Id, ok: bool)
      requires Valid() && Movable(View(), id)
      modifies this
      ensures Valid() && Leads(old(View()), Resume(id, ok), maxInflight, View())
    {
      if Holds(pc[id]) { HolderCounted(View(), id, maxInflight); }
      match pc[id] {
        case Resolving => pc := pc[id := if ok then Statting else Left];
        case Statting => if ok { AcquireWorker(id); } else { pc := pc[id := Left]; }
        case Granted => if stopped { ReleaseWorker(id); } else { pc := pc[id := Clearing]; }
        case Clearing => if ok { pc := pc[id := Fetching]; } else { ReleaseWorker(id); }
        case Fetching => ReleaseWorker(id);
      }
      StepKeeps(old(View()), Resume(id, ok), maxInflight, View());
    }
  }
}
