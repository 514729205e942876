/**
 * Asset cells and their journal. Every update is journaled in a mode that covers what it
 * changed, except setContent, which changes memory only and relies on the next snapshot.
 */
module AssetLog {
  import opened BigEndian

  const OWNER_BYTES := 8
  const CONTENT_BYTES := 210
  const TWO_16 := 0x1_0000
  const TWO_32 := 0x1_0000_0000

  datatype Id = Id(key: seq<byte>)

  datatype Asset = Asset(owner: seq<byte>, content: seq<byte>, balance: nat, price: nat)

  predicate Fits(a: Asset)
  {
    |a.owner| == OWNER_BYTES && |a.content| == CONTENT_BYTES && a.balance < TWO_16 && a.price < TWO_32
  }

  function Zeros(n: nat): (s: seq<byte>)
    ensures |s| == n
  {
    seq(n, _ => 0)
  }

  function NewAsset(): Asset { Asset(Zeros(OWNER_BYTES), Zeros(CONTENT_BYTES), 0, 0) }

  /** The low twelve bits of the balance count prepaid days, the others are flags. */
  function Days(balance: nat): nat { balance % 4096 }

  predicate IsEmpty(a: Asset)
  {
    Days(a.balance) == 0 && a.price == 0 && a.owner == Zeros(OWNER_BYTES)
  }

  datatype SerMode = Full | Content | Meta | Balance | Erased

  function Header(mode: SerMode): byte
  {
    match mode
    case Full => 0
    case Content => 1
    case Meta => 2
    case Balance => 3
    case Erased => 4
  }

  // ---- Records ----

  /** All fields, as in a Full record or a snapshot row. */
  function WriteAll(a: Asset): (s: seq<byte>)
    requires Fits(a)
    ensures |s| == 224
  {
    a.owner + Put(a.balance, 2) + Put(a.price, 4) + a.content
  }

  function ReadAll(s: seq<byte>): Asset
    requires |s| == 224
  {
    Asset(s[..8], s[14..], Get(s[8..10]), Get(s[10..14]))
  }

  function Write(mode: SerMode, a: Asset): seq<byte>
    requires Fits(a)
  {
    if IsEmpty(a) then [Header(Erased)]
    else [Header(mode)] + match mode
      case Full => WriteAll(a)
      case Content => a.content
      case Meta => a.owner + Put(a.price, 4)
      case Balance => Put(a.balance, 2)
      case Erased => []
  }

  datatype ReadResult = Got(asset: Asset, used: nat) | Short | BadHeader

  function Read(src: seq<byte>, a: Asset): ReadResult
  {
    if src == [] then Short
    else if src[0] == Header(Erased) then Got(NewAsset(), 1)
    else if src[0] == Header(Full) then
      if |src| < 225 then Short else Got(ReadAll(src[1..225]), 225)
    else if src[0] == Header(Content) then
      if |src| < 211 then Short else Got(a.(content := src[1..211]), 211)
    else if src[0] == Header(Meta) then
      if |src| < 13 then Short else Got(a.(owner := src[1..9], price := Get(src[9..13])), 13)
    else if src[0] == Header(Balance) then
      if |src| < 3 then Short else Got(a.(balance := Get(src[1..3])), 3)
    else BadHeader
  }

  /** What a record written from `a` means for a reader that holds `prev`. */
  function Patch(mode: SerMode, a: Asset, prev: Asset): Asset
  {
    if IsEmpty(a) then NewAsset()
    else match mode
      case Full => a
      case Content => prev.(content := a.content)
      case Meta => prev.(owner := a.owner, price := a.price)
      case Balance => prev.(balance := a.balance)
      case Erased => NewAsset()
  }

  lemma AllBack(a: Asset)
    requires Fits(a)
    ensures ReadAll(WriteAll(a)) == a
  {
    var s := WriteAll(a);
    assert s[..8] == a.owner && s[8..10] == Put(a.balance, 2) && s[10..14] == Put(a.price, 4) && s[14..] == a.content;
    Widths();
    GetPut(a.balance, 2);
    GetPut(a.price, 4);
  }

  lemma MetaBack(a: Asset, prev: Asset, rest: seq<byte>)
    requires Fits(a) && !IsEmpty(a)
    ensures Read(Write(Meta, a) + rest, prev) == Got(Patch(Meta, a, prev), |Write(Meta, a)|)
  {
    var s := Write(Meta, a) + rest;
    assert s[1..9] == a.owner && s[9..13] == Put(a.price, 4);
    Widths();
    GetPut(a.price, 4);
  }

  lemma BalanceBack(a: Asset, prev: Asset, rest: seq<byte>)
    requires Fits(a) && !IsEmpty(a)
    ensures Read(Write(Balance, a) + rest, prev) == Got(Patch(Balance, a, prev), |Write(Balance, a)|)
  {
    assert (Write(Balance, a) + rest)[1..3] == Put(a.balance, 2);
    Widths();
    GetPut(a.balance, 2);
  }

  lemma FullBack(a: Asset, prev: Asset, rest: seq<byte>)
    requires Fits(a) && !IsEmpty(a)
    ensures Read(Write(Full, a) + rest, prev) == Got(a, |Write(Full, a)|)
  {
    assert (Write(Full, a) + rest)[1..225] == WriteAll(a);
    AllBack(a);
  }

  /** Reading back what was written is the mode's patch, and consumes the whole record. */
  lemma RecordMeans(mode: SerMode, a: Asset, prev: Asset, rest: seq<byte>)
    requires Fits(a)
    ensures Read(Write(mode, a) + rest, prev) == Got(Patch(mode, a, prev), |Write(mode, a)|)
  {
    if !IsEmpty(a) {
      match mode
      case Full => FullBack(a, prev, rest);
      case Content => assert (Write(mode, a) + rest)[1..211] == a.content;
      case Meta => MetaBack(a, prev, rest);
      case Balance => BalanceBack(a, prev, rest);
      case Erased =>
    }
  }

  // ---- The store ----

  /** Stands for the bytes `Write(mode, row)` filed under `id`. */
  datatype Entry = Entry(id: Id, mode: SerMode, row: Asset)

  datatype Shelf = Shelf(store: map<Id, Asset>, snapshot: map<Id, Asset>, log: seq<Entry>)

  function ReadEntry(m: map<Id, Asset>, e: Entry): map<Id, Asset>
  {
    if !Fits(e.row) then m
    else
      var r := Read(Write(e.mode, e.row), if e.id in m then m[e.id] else NewAsset());
      if !r.Got? then m
      else if IsEmpty(r.asset) then m - {e.id}
      else m[e.id := r.asset]
  }

  function ReadLog(m: map<Id, Asset>, log: seq<Entry>): map<Id, Asset>
  {
    if log == [] then m else ReadEntry(ReadLog(m, log[..|log| - 1]), log[|log| - 1])
  }

  function ReadSnapshot(s: map<Id, Asset>): map<Id, Asset>
  {
    map id | id in s :: if Fits(s[id]) then ReadAll(WriteAll(s[id])) else NewAsset()
  }

  /** What a restart rebuilds from the bytes on disk. */
  function Load(b: Shelf): map<Id, Asset>
  {
    ReadLog(ReadSnapshot(b.snapshot), b.log)
  }

  function PersistWithMode(b: Shelf, id: Id, row: Asset, mode: SerMode): Shelf
  {
    b.(store := b.store[id := row], log := b.log + [Entry(id, mode, row)])
  }

  // ---- Operations ----

  datatype Event =
    | Create(id: Id, asset: Asset)
    | SetContent(id: Id, content: seq<byte>)
    | SetPrice(id: Id, price: nat)
    | SetOwner(id: Id, owner: seq<byte>)
    | SetBalance(id: Id, balance: nat)
    | UpdateFull(id: Id, owner: seq<byte>, content: seq<byte>, price: nat)
    | TransferOwnership(id: Id, owner: seq<byte>)
    | Erase(id: Id)
    | Snapshot
    | Restart

  function Step(b: Shelf, ev: Event): Shelf
  {
    match ev
    case Create(id, a) => PersistWithMode(b, id, a, Full)
    case Erase(id) => b.(store := b.store - {id}, log := b.log + [Entry(id, Erased, NewAsset())])
    case Snapshot => b.(snapshot := b.store, log := [])
    case Restart => b.(store := Load(b))
    case _ => if ev.id !in b.store then b else Update(b, ev)
  }

  function Update(b: Shelf, ev: Event): Shelf
    requires !ev.Snapshot? && !ev.Restart? && ev.id in b.store
  {
    var a := b.store[ev.id];
    match ev
    case SetContent(id, content) => b.(store := b.store[id := a.(content := content)])
    case SetPrice(id, price) => PersistWithMode(b, id, a.(price := price), Meta)
    case SetOwner(id, owner) => PersistWithMode(b, id, a.(owner := owner), Meta)
    case SetBalance(id, balance) => PersistWithMode(b, id, a.(balance := balance), Balance)
    case UpdateFull(id, owner, content, price) =>
      PersistWithMode(b, id, a.(owner := owner, content := content, price := price), Full)
    case TransferOwnership(id, owner) => PersistWithMode(b, id, a.(owner := owner, price := 0), Meta)
    case _ => b
  }

  predicate Owner(owner: seq<byte>) { |owner| == OWNER_BYTES && owner != Zeros(OWNER_BYTES) }

  /** Argument types, and the rule that a live asset has an owner. */
  predicate Allowed(b: Shelf, ev: Event)
  {
    match ev
    case Create(id, a) => Fits(a) && Owner(a.owner)
    case SetContent(_, content) => |content| == CONTENT_BYTES
    case SetPrice(_, price) => price < TWO_32
    case SetOwner(_, owner) => Owner(owner)
    case SetBalance(_, balance) => balance < TWO_16
    case UpdateFull(_, owner, content, price) => Owner(owner) && |content| == CONTENT_BYTES && price < TWO_32
    case TransferOwnership(_, owner) => Owner(owner)
    case Erase(_) => true
    case Snapshot => true
    case Restart => true
  }

  // ---- Replay ----

  function Apply(m: map<Id, Asset>, e: Entry): map<Id, Asset>
  {
    var row := Patch(e.mode, e.row, if e.id in m then m[e.id] else NewAsset());
    if IsEmpty(row) then m - {e.id} else m[e.id := row]
  }

  function Replay(m: map<Id, Asset>, log: seq<Entry>): map<Id, Asset>
  {
    if log == [] then m else Apply(Replay(m, log[..|log| - 1]), log[|log| - 1])
  }

  ghost predicate Rows(m: map<Id, Asset>)
  {
    forall id :: id in m ==> Fits(m[id]) && Owner(m[id].owner)
  }

  ghost predicate Filed(snapshot: map<Id, Asset>, log: seq<Entry>)
  {
    Rows(snapshot) && forall i :: 0 <= i < |log| ==> Fits(log[i].row)
  }

  lemma SnapshotBack(snapshot: map<Id, Asset>)
    requires Rows(snapshot)
    ensures ReadSnapshot(snapshot) == snapshot
  {
    forall id | id in snapshot ensures ReadAll(WriteAll(snapshot[id])) == snapshot[id] {
      AllBack(snapshot[id]);
    }
  }

  lemma {:induction false} ReadIsReplay(snapshot: map<Id, Asset>, log: seq<Entry>)
    requires Filed(snapshot, log)
    ensures ReadLog(ReadSnapshot(snapshot), log) == Replay(snapshot, log)
  {
    if log == [] {
      SnapshotBack(snapshot);
    } else {
      var past, e := log[..|log| - 1], log[|log| - 1];
      ReadIsReplay(snapshot, past);
      ReadEntryIsApply(Replay(snapshot, past), e);
    }
  }

  lemma ReadEntryIsApply(m: map<Id, Asset>, e: Entry)
    requires Fits(e.row)
    ensures ReadEntry(m, e) == Apply(m, e)
  {
    RecordMeans(e.mode, e.row, if e.id in m then m[e.id] else NewAsset(), []);
    assert Write(e.mode, e.row) + [] == Write(e.mode, e.row);
  }

  lemma ReplaySnoc(m: map<Id, Asset>, log: seq<Entry>, e: Entry)
    ensures Replay(m, log + [e]) == Apply(Replay(m, log), e)
  {
    assert (log + [e])[..|log|] == log;
  }

  // ---- Runs ----

  /**
   * The content the disk knows: that of the last Full record or snapshot. It is what the
   * run itself says, without looking at the journal.
   */
  function Sealed(known: map<Id, seq<byte>>, b: Shelf, ev: Event): map<Id, seq<byte>>
  {
    match ev
    case Create(id, a) => known[id := a.content]
    case UpdateFull(id, _, content, _) => if id in b.store then known[id := content] else known
    case Erase(id) => known - {id}
    case Snapshot => map id | id in b.store :: b.store[id].content
    case _ => known
  }

  /** The rows with the content the disk knows. */
  ghost predicate Durable(rows: map<Id, Asset>, disk: map<Id, Asset>, known: map<Id, seq<byte>>)
  {
    && known.Keys == rows.Keys && disk.Keys == rows.Keys
    && forall id :: id in rows ==> disk[id] == rows[id].(content := known[id])
  }

  ghost predicate Sound(b: Shelf, known: map<Id, seq<byte>>)
  {
    Rows(b.store) && Filed(b.snapshot, b.log) && Durable(b.store, Replay(b.snapshot, b.log), known)
  }

  lemma DurablePut(rows: map<Id, Asset>, disk: map<Id, Asset>, known: map<Id, seq<byte>>, id: Id, row: Asset,
      content: seq<byte>)
    requires Durable(rows, disk, known)
    ensures Durable(rows[id := row], disk[id := row.(content := content)], known[id := content])
  {
  }

  lemma FullSound(b: Shelf, known: map<Id, seq<byte>>, id: Id, row: Asset)
    requires Sound(b, known) && Fits(row) && Owner(row.owner)
    ensures Sound(PersistWithMode(b, id, row, Full), known[id := row.content])
  {
    var disk := Replay(b.snapshot, b.log);
    ReplaySnoc(b.snapshot, b.log, Entry(id, Full, row));
    ApplyRow(disk, id, row, Full, row);
    DurablePut(b.store, disk, known, id, row, row.content);
  }

  /** A partial record covers its own fields and leaves the content the disk knows. */
  lemma PartialSound(b: Shelf, known: map<Id, seq<byte>>, id: Id, row: Asset, mode: SerMode)
    requires Sound(b, known) && Fits(row) && Owner(row.owner) && id in b.store
    requires (mode == Meta && row == b.store[id].(owner := row.owner, price := row.price))
          || (mode == Balance && row == b.store[id].(balance := row.balance))
    ensures Sound(PersistWithMode(b, id, row, mode), known)
  {
    var disk := Replay(b.snapshot, b.log);
    ReplaySnoc(b.snapshot, b.log, Entry(id, mode, row));
    PartialRow(b.store[id], disk[id], known[id], row, mode);
    ApplyRow(disk, id, row, mode, row.(content := known[id]));
    DurablePut(b.store, disk, known, id, row, known[id]);
    assert known[id := known[id]] == known;
    PersistFits(b, id, row, mode);
  }

  lemma PersistFits(b: Shelf, id: Id, row: Asset, mode: SerMode)
    requires Rows(b.store) && Filed(b.snapshot, b.log) && Fits(row) && Owner(row.owner)
    ensures var c := PersistWithMode(b, id, row, mode); Rows(c.store) && Filed(c.snapshot, c.log)
  {
  }

  lemma PartialRow(was: Asset, filed: Asset, content: seq<byte>, row: Asset, mode: SerMode)
    requires filed == was.(content := content) && Owner(row.owner)
    requires (mode == Meta && row == was.(owner := row.owner, price := row.price))
          || (mode == Balance && row == was.(balance := row.balance))
    ensures Patch(mode, row, filed) == row.(content := content)
  {
  }

  lemma ApplyRow(disk: map<Id, Asset>, id: Id, row: Asset, mode: SerMode, filed: Asset)
    requires Owner(row.owner)
    requires filed == Patch(mode, row, if id in disk then disk[id] else NewAsset()) && Owner(filed.owner)
    ensures Apply(disk, Entry(id, mode, row)) == disk[id := filed]
  {
  }

  lemma EraseSound(b: Shelf, known: map<Id, seq<byte>>, id: Id)
    requires Sound(b, known)
    ensures Sound(Step(b, Erase(id)), known - {id})
  {
    ReplaySnoc(b.snapshot, b.log, Entry(id, Erased, NewAsset()));
  }

  lemma StepSound(b: Shelf, known: map<Id, seq<byte>>, ev: Event)
    requires Sound(b, known) && Allowed(b, ev)
    ensures Sound(Step(b, ev), Sealed(known, b, ev))
  {
    match ev
    case Create(id, a) => FullSound(b, known, id, a);
    case Erase(id) => EraseSound(b, known, id);
    case Snapshot =>
    case Restart => RestartSound(b, known);
    case _ => if ev.id in b.store { UpdateSound(b, known, ev); }
  }

  /** What a load gives is what memory holds, with the content the disk knows. */
  lemma LoadIs(b: Shelf, known: map<Id, seq<byte>>)
    requires Sound(b, known)
    ensures Durable(b.store, Load(b), known)
  {
    ReadIsReplay(b.snapshot, b.log);
  }

  /** A restart only takes memory back to the content the disk knows. */
  lemma RestartSound(b: Shelf, known: map<Id, seq<byte>>)
    requires Sound(b, known)
    ensures Sound(b.(store := Load(b)), known)
  {
    LoadIs(b, known);
    ReadIsReplay(b.snapshot, b.log);
    ReplayFits(b.snapshot, b.log);
    forall id | id in Load(b)
      ensures Fits(Load(b)[id]) && Owner(Load(b)[id].owner)
    {
      assert Load(b)[id] == b.store[id].(content := known[id]);
    }
  }

  ghost predicate AllFit(m: map<Id, Asset>)
  {
    forall id :: id in m ==> Fits(m[id])
  }

  lemma {:induction false} ReplayFits(snapshot: map<Id, Asset>, log: seq<Entry>)
    requires Filed(snapshot, log)
    ensures AllFit(Replay(snapshot, log))
  {
    if log != [] {
      ReplayFits(snapshot, log[..|log| - 1]);
      ApplyFits(Replay(snapshot, log[..|log| - 1]), log[|log| - 1]);
    }
  }

  lemma ApplyFits(m: map<Id, Asset>, e: Entry)
    requires AllFit(m) && Fits(e.row)
    ensures AllFit(Apply(m, e))
  {
  }

  lemma UpdateSound(b: Shelf, known: map<Id, seq<byte>>, ev: Event)
    requires Sound(b, known) && Allowed(b, ev) && !ev.Snapshot? && !ev.Restart? && ev.id in b.store
    requires !ev.Create? && !ev.Erase?
    ensures Sound(Update(b, ev), Sealed(known, b, ev))
  {
    var a := b.store[ev.id];
    match ev
    case SetContent(id, content) =>
    case SetPrice(id, price) => PartialSound(b, known, id, a.(price := price), Meta);
    case SetOwner(id, owner) => PartialSound(b, known, id, a.(owner := owner), Meta);
    case SetBalance(id, balance) => PartialSound(b, known, id, a.(balance := balance), Balance);
    case UpdateFull(id, owner, content, price) =>
      FullSound(b, known, id, a.(owner := owner, content := content, price := price));
    case TransferOwnership(id, owner) => PartialSound(b, known, id, a.(owner := owner, price := 0), Meta);
  }

  datatype Course = Course(shelf: Shelf, known: map<Id, seq<byte>>)

  ghost predicate IsRun(events: seq<Event>, c: Course)
  {
    if events == [] then c == Course(Shelf(map[], map[], []), map[])
    else
      var past, ev := events[..|events| - 1], events[|events| - 1];
      exists prior :: IsRun(past, prior) && Leads(prior, ev, c)
  }

  ghost predicate Leads(c: Course, ev: Event, d: Course)
  {
    Allowed(c.shelf, ev) && d == Course(Step(c.shelf, ev), Sealed(c.known, c.shelf, ev))
  }

  lemma {:induction false} RunSound(events: seq<Event>, c: Course)
    requires IsRun(events, c)
    ensures Sound(c.shelf, c.known)
  {
    if events != [] {
      var past, ev := events[..|events| - 1], events[|events| - 1];
      var prior :| IsRun(past, prior) && Leads(prior, ev, c);
      RunSound(past, prior);
      StepSound(prior.shelf, prior.known, ev);
    }
  }

  /** No setContent on `id` came after the last record or snapshot that holds its content. */
  ghost predicate ContentFiled(events: seq<Event>, id: Id)
  {
    events != [] &&
    var past, ev := events[..|events| - 1], events[|events| - 1];
    if ev == Snapshot || ev == Restart || (ev.Create? && ev.id == id) || (ev.UpdateFull? && ev.id == id) then true
    else if ev.SetContent? && ev.id == id then false
    else ContentFiled(past, id)
  }

  /**
   * A restart always rebuilds which assets exist, their owner, price and balance, and the
   * content of the last Full record or snapshot; that is the content in memory whenever no
   * setContent followed.
   */
  lemma RestartRebuilds(events: seq<Event>, c: Course, id: Id)
    requires IsRun(events, c)
    ensures id in Load(c.shelf) <==> id in c.shelf.store
    ensures id in c.shelf.store ==>
              && id in c.known
              && Load(c.shelf)[id] == c.shelf.store[id].(content := c.known[id])
              && (ContentFiled(events, id) ==> Load(c.shelf)[id] == c.shelf.store[id])
  {
    RunSound(events, c);
    ReadIsReplay(c.shelf.snapshot, c.shelf.log);
    if id in c.shelf.store && ContentFiled(events, id) {
      FiledIsCurrent(events, c, id);
    }
  }

  lemma {:induction false} FiledIsCurrent(events: seq<Event>, c: Course, id: Id)
    requires IsRun(events, c) && ContentFiled(events, id) && id in c.shelf.store
    ensures id in c.known && c.known[id] == c.shelf.store[id].content
  {
    var past, ev := events[..|events| - 1], events[|events| - 1];
    var prior :| IsRun(past, prior) && Leads(prior, ev, c);
    RunSound(past, prior);
    if ev == Restart {
      LoadIs(prior.shelf, prior.known);
    } else if !(ev == Snapshot || (ev.Create? && ev.id == id) || (ev.UpdateFull? && ev.id == id)) {
      ContentKept(prior.shelf, prior.known, ev, id);
      FiledIsCurrent(past, prior, id);
    }
  }

  lemma ContentKept(b: Shelf, known: map<Id, seq<byte>>, ev: Event, id: Id)
    requires !ev.Snapshot? && !ev.Restart? && !(ev.Create? && ev.id == id)
    requires !(ev.UpdateFull? && ev.id == id) && !(ev.SetContent? && ev.id == id)
    requires id in Step(b, ev).store && known.Keys == b.store.Keys
    ensures id in b.store && Step(b, ev).store[id].content == b.store[id].content
    ensures id in Sealed(known, b, ev) && Sealed(known, b, ev)[id] == known[id]
  {
  }

  // ---- The store, updated in place ----

  /** One row changes alike in memory and in what a restart gives back; without the row, nothing does. */
  ghost predicate PatchedBoth(rows: map<Id, Asset>, disk: map<Id, Asset>, rows': map<Id, Asset>, disk': map<Id, Asset>,
                              id: Id, change: Asset -> Asset)
  {
    if id !in rows then rows' == rows && disk' == disk
    else id in disk && rows' == rows[id := change(rows[id])] && disk' == disk[id := change(disk[id])]
  }

  /** Memory determines what a restart gives back, up to content; so one row's change shows alike in both. */
  lemma PatchDurable(rows: map<Id, Asset>, disk: map<Id, Asset>, rows': map<Id, Asset>, disk': map<Id, Asset>,
                     known: map<Id, seq<byte>>, id: Id, change: Asset -> Asset)
    requires Durable(rows, disk, known) && Durable(rows', disk', known) && id in rows
    requires rows' == rows[id := change(rows[id])]
    requires change(rows[id].(content := known[id])) == change(rows[id]).(content := known[id])
    ensures PatchedBoth(rows, disk, rows', disk', id, change)
  {
    assert disk'.Keys == disk.Keys + {id};
    forall k | k in disk'
      ensures disk'[k] == disk[id := change(disk[id])][k]
    {
    }
  }

  class Assets {
    var store: map<Id, Asset>
    var snapshot: map<Id, Asset>
    var log: seq<Entry>
    ghost var known: map<Id, seq<byte>>

    ghost function View(): Shelf
      reads this
    {
      Shelf(store, snapshot, log)
    }

    /** Disk and memory agree on everything but content, and on the content last filed. */
    ghost predicate Valid()
      reads this
    {
      Sound(View(), known)
    }

    /** What a restart would give back. */
    ghost function Disk(): map<Id, Asset>
      reads this
    {
      Load(View())
    }

    /** Loads from disk. */
    constructor (snapshot: map<Id, Asset>, log: seq<Entry>)
      requires Filed(snapshot, log) && Rows(Load(Shelf(map[], snapshot, log)))
      ensures Valid() && store == Disk() && this.snapshot == snapshot && this.log == log
    {
      this.snapshot, this.log := snapshot, log;
      store := Load(Shelf(map[], snapshot, log));
      known := map id | id in Load(Shelf(map[], snapshot, log)) :: Load(Shelf(map[], snapshot, log))[id].content;
      new;
      ReadIsReplay(snapshot, log);
    }

    method Persist(id: Id, row: Asset, mode: SerMode)
      modifies this`store, this`log
      ensures View() == PersistWithMode(old(View()), id, row, mode)
    {
      store := store[id := row];
      log := log + [Entry(id, mode, row)];
    }

    /** Memory only: nothing a restart gives back changes. */
    method SetContent(id: Id, content: seq<byte>)
      requires Valid() && |content| == CONTENT_BYTES
      modifies this`store
      ensures Valid() && Disk() == old(Disk())
      ensures store == if id in old(store) then old(store)[id := old(store)[id].(content := content)] else old(store)
    {
      StepSound(View(), known, Event.SetContent(id, content));
      if id in store {
        store := store[id := store[id].(content := content)];
      }
    }

    /** A partial record: the content stays as filed. */
    method Refile(id: Id, row: Asset, mode: SerMode)
      requires Valid() && id in store && Fits(row) && Owner(row.owner)
      requires (mode == Meta && row == store[id].(owner := row.owner, price := row.price))
            || (mode == Balance && row == store[id].(balance := row.balance))
      modifies this`store, this`log
      ensures Valid() && store == old(store)[id := row] && Durable(store, Disk(), known)
    {
      PartialSound(View(), known, id, row, mode);
      Persist(id, row, mode);
      LoadIs(View(), known);
    }

    /** The price in memory and the price a restart gives back change together, and nothing else. */
    method SetPrice(id: Id, price: nat)
      requires Valid() && price < TWO_32
      modifies this`store, this`log
      ensures Valid() && PatchedBoth(old(store), old(Disk()), store, Disk(), id, (a: Asset) => a.(price := price))
    {
      LoadIs(View(), known);
      if id in store {
        ghost var rows, disk := store, Disk();
        Refile(id, store[id].(price := price), Meta);
        PatchDurable(rows, disk, store, Disk(), known, id, (a: Asset) => a.(price := price));
      }
    }

    method SetOwner(id: Id, owner: seq<byte>)
      requires Valid() && Owner(owner)
      modifies this`store, this`log
      ensures Valid() && PatchedBoth(old(store), old(Disk()), store, Disk(), id, (a: Asset) => a.(owner := owner))
    {
      LoadIs(View(), known);
      if id in store {
        ghost var rows, disk := store, Disk();
        Refile(id, store[id].(owner := owner), Meta);
        PatchDurable(rows, disk, store, Disk(), known, id, (a: Asset) => a.(owner := owner));
      }
    }

    method SetBalance(id: Id, balance: nat)
      requires Valid() && balance < TWO_16
      modifies this`store, this`log
      ensures Valid() && PatchedBoth(old(store), old(Disk()), store, Disk(), id, (a: Asset) => a.(balance := balance))
    {
      LoadIs(View(), known);
      if id in store {
        ghost var rows, disk := store, Disk();
        Refile(id, store[id].(balance := balance), Balance);
        PatchDurable(rows, disk, store, Disk(), known, id, (a: Asset) => a.(balance := balance));
      }
    }

    /** A new owner, and no longer for sale. */
    method TransferOwnership(id: Id, owner: seq<byte>)
      requires Valid() && Owner(owner)
      modifies this`store, this`log
      ensures Valid() && PatchedBoth(old(store), old(Disk()), store, Disk(), id,
          (a: Asset) => a.(owner := owner, price := 0))
    {
      LoadIs(View(), known);
      if id in store {
        ghost var rows, disk := store, Disk();
        Refile(id, store[id].(owner := owner, price := 0), Meta);
        PatchDurable(rows, disk, store, Disk(), known, id, (a: Asset) => a.(owner := owner, price := 0));
      }
    }

    /** Everything but the balance is set, and filed: a restart gives back exactly the row in memory. */
    method UpdateFull(id: Id, owner: seq<byte>, content: seq<byte>, price: nat)
      requires Valid() && Owner(owner) && |content| == CONTENT_BYTES && price < TWO_32
      modifies this
      ensures Valid()
      ensures id !in old(store) ==> View() == old(View())
      ensures id in old(store) ==>
        && store == old(store)[id := old(store)[id].(owner := owner, content := content, price := price)]
        && Disk() == old(Disk())[id := store[id]]
    {
      LoadIs(View(), known);
      if id in store {
        ghost var rows, disk, was := store, Disk(), known;
        FileWhole(id, store[id].(owner := owner, content := content, price := price));
        FiledDurable(rows, disk, was, store, Disk(), known, id);
      }
    }

    /** A full record: the content is filed too. */
    method FileWhole(id: Id, row: Asset)
      requires Valid() && Fits(row) && Owner(row.owner)
      modifies this
      ensures Valid() && store == old(store)[id := row] && known == old(known)[id := row.content]
      ensures Durable(store, Disk(), known)
    {
      FullSound(View(), known, id, row);
      known := known[id := row.content];
      Persist(id, row, Full);
      LoadIs(View(), known);
    }
  }

  lemma FiledDurable(rows: map<Id, Asset>, disk: map<Id, Asset>, known: map<Id, seq<byte>>,
                     rows': map<Id, Asset>, disk': map<Id, Asset>, known': map<Id, seq<byte>>, id: Id)
    requires Durable(rows, disk, known) && Durable(rows', disk', known') && id in rows'
    requires rows' == rows[id := rows'[id]] && known' == known[id := rows'[id].content]
    ensures disk' == disk[id := rows'[id]]
  {
    assert disk'.Keys == disk.Keys + {id};
  }
}
