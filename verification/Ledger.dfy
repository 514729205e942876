/**
 * The account ledger: a map of rows, the running total of positive balances, the last
 * snapshot and the journal of partial records written since.
 */
module Ledger {
  import opened BigEndian
  import opened AccountRecord

  /** An account id: the first eight bytes of its key. */
  datatype Id = Id(prefix: seq<byte>)

  const TWO_63 := 0x8000_0000_0000_0000
  const TWO_64 := 0x1_0000_0000_0000_0000
  const CES_NONCELESS := 0xffff_ffff

  datatype Code = Ok | OriginNotFound | WrongNonce | InsufficientBalance

  /** A journal entry stands for the bytes `Write(mode, row)` filed under `id`. */
  datatype Entry = Entry(id: Id, mode: SerMode, row: Account)

  /** `snapshot` stands for the bytes `WriteAll` of each row. */
  datatype Book = Book(
    store: map<Id, Account>,
    total: int,
    snapshot: map<Id, Account>,
    log: seq<Entry>)

  // ---- Machine arithmetic ----

  /** A uint64 reinterpreted as int64. */
  function AsInt64(x: nat): int
  {
    if x < TWO_63 then x else x - TWO_64
  }

  /** A uint32 increment, which wraps. */
  function NextNonce(nonce: nat): (r: nat)
    ensures r < TWO_32
  {
    if nonce + 1 >= TWO_32 then 0 else nonce + 1
  }

  function Max0(x: int): nat { if x > 0 then x else 0 }

  predicate CreditWouldOverflow(balance: int, amount: nat)
  {
    balance >= 0 && amount > BALANCE_MAX - balance
  }

  /** What the 48-bit balance field holds after this value is stored. */
  function Stored(balance: int): int
  {
    if BALANCE_MIN <= balance <= BALANCE_MAX then balance else SignExtend48(Low48(balance))
  }

  lemma StoredIsSixBytes(balance: int)
    ensures Stored(balance) == SignExtend48(Low48(balance))
  {
    Int48Exact(balance);
  }

  // ---- The store ----

  /** `persist` and `update`: the row is replaced and a record in this mode is journaled. */
  function Persist(b: Book, id: Id, a: Account, mode: SerMode): Book
  {
    b.(store := b.store[id := a], log := b.log + [Entry(id, mode, a)])
  }

  function Erase(b: Book, id: Id): Book
  {
    b.(store := b.store - {id}, log := b.log + [Entry(id, Erased, NewAccount())])
  }

  /** Writes every row to the snapshot and starts an empty journal. */
  function TakeSnapshot(b: Book): Book
  {
    b.(snapshot := b.store, log := [])
  }

  /** One journaled record, read on load over the row it belongs to; a row left empty is dropped. */
  function ReadEntry(m: map<Id, Account>, e: Entry): map<Id, Account>
  {
    if !Fits(e.row) then m
    else
      var r := Read(Write(e.mode, e.row), if e.id in m then m[e.id] else NewAccount());
      if !r.Got? then m
      else if IsEmpty(r.account) then m - {e.id}
      else m[e.id := r.account]
  }

  function ReadLog(m: map<Id, Account>, log: seq<Entry>): map<Id, Account>
  {
    if log == [] then m else ReadEntry(ReadLog(m, log[..|log| - 1]), log[|log| - 1])
  }

  function ReadSnapshot(s: map<Id, Account>): map<Id, Account>
  {
    map id | id in s :: RowBack(s[id])
  }

  function RowBack(a: Account): Account
  {
    if Fits(a) then ReadAll(WriteAll(a), NewAccount()) else NewAccount()
  }

  /** What a restart rebuilds from the bytes on disk. */
  function Load(b: Book): map<Id, Account>
  {
    ReadLog(ReadSnapshot(b.snapshot), b.log)
  }

  // ---- Account operations ----

  function Create(b: Book, id: Id, a: Account): Book
  {
    Persist(b, id, a, Full).(total := b.total + Max0(a.balance))
  }

  function Debit(b: Book, id: Id, amount: nat): Book
  {
    DebitBy(b, id, AsInt64(amount), false, id, 0, 0)
  }

  function DebitTransfer(b: Book, id: Id, amount: nat, dest: Id, sent: nat, time: nat): Book
  {
    DebitBy(b, id, AsInt64(amount), true, dest, sent, time)
  }

  /** Both debits: an account left with nothing is erased, otherwise its nonce moves on. */
  function DebitBy(b: Book, id: Id, delta: int, receipt: bool, dest: Id, sent: nat, time: nat): Book
  {
    if id !in b.store then b
    else
      var a := b.store[id];
      var newBal := a.balance - delta;
      if newBal <= 0 then Erase(b, id).(total := b.total - Max0(a.balance))
      else
        var a' := a.(balance := Stored(newBal), nonce := NextNonce(a.nonce));
        var row := if receipt then Receipt(a', dest, sent, time) else a';
        Persist(b, id, row, if receipt then Transfer else BalanceNonce).(total := b.total - delta)
  }

  /** Records the last outgoing transfer; the clock is cut to 32 bits. */
  function Receipt(a: Account, dest: Id, sent: nat, time: nat): Account
  {
    a.(lastXferDest := dest.prefix, lastXferAmount := Low48(sent), lastXferTime := time % TWO_32)
  }

  /** The unsigned subtraction and the cast do not wrap on a 48-bit balance. */
  function Credited(balance: int, amount: nat): int
  {
    if BALANCE_MAX - balance >= amount then balance + amount else BALANCE_MAX
  }

  function Credit(b: Book, id: Id, amount: nat): Book
  {
    if id !in b.store then b
    else
      var a := b.store[id];
      var newBal := Credited(a.balance, amount);
      Persist(b, id, a.(balance := Stored(newBal)), BalanceNonce).(total := b.total + (newBal - a.balance))
  }

  function SettlePayment(b: Book, id: Id, amount: nat): Book
  {
    if id !in b.store then b
    else
      Persist(b, id, b.store[id].(balance := Stored(AsInt64(amount)), nonce := 0), BalanceNonce)
      .(total := b.total + AsInt64(amount))
  }

  function ChargeError(b: Book, id: Id, errFee: int): Book
  {
    if id !in b.store || b.store[id].balance < 0 then b
    else
      var a := b.store[id];
      var rest := a.balance - errFee;
      if rest <= 0 then Erase(b, id).(total := b.total - Max0(a.balance))
      else Persist(b, id, a.(balance := Stored(rest)), BalanceNonce).(total := b.total - errFee)
  }

  function ValidateSpend(b: Book, id: Id, amount: nat, fee: nat, reqNonce: nat, errFee: int): (Book, Code)
  {
    if id !in b.store then (b, OriginNotFound)
    else
      var a := b.store[id];
      if amount + fee >= TWO_64 || a.balance < 0 || a.balance < amount + fee
      then (ChargeError(b, id, errFee), InsufficientBalance)
      else if reqNonce != 0 && reqNonce != CES_NONCELESS && reqNonce != NextNonce(a.nonce)
      then (ChargeError(b, id, errFee), WrongNonce)
      else (b, Ok)
  }

  /** A new alias is filed with a full record. */
  function SetAlias(b: Book, id: Id, alias: nat): Book
  {
    if id !in b.store then b else Persist(b, id, b.store[id].(aliasId := alias), Full)
  }

  // ---- Positive balances ----

  function Worth(m: map<Id, Account>, id: Id): nat
  {
    if id in m then Max0(m[id].balance) else 0
  }

  ghost function CreditsOver(m: map<Id, Account>, ids: set<Id>): nat
  {
    if ids == {} then 0
    else var id :| id in ids; Worth(m, id) + CreditsOver(m, ids - {id})
  }

  /** The sum of the positive balances. */
  ghost function Credits(m: map<Id, Account>): nat
  {
    CreditsOver(m, m.Keys)
  }

  lemma {:induction false} CreditsPick(m: map<Id, Account>, ids: set<Id>, id: Id)
    requires id in ids
    ensures CreditsOver(m, ids) == Worth(m, id) + CreditsOver(m, ids - {id})
    decreases |ids|
  {
    var k :| k in ids && CreditsOver(m, ids) == Worth(m, k) + CreditsOver(m, ids - {k});
    if k != id {
      CreditsPick(m, ids - {k}, id);
      CreditsPick(m, ids - {id}, k);
      assert ids - {k} - {id} == ids - {id} - {k};
    }
  }

  lemma {:induction false} CreditsSame(m: map<Id, Account>, n: map<Id, Account>, ids: set<Id>)
    requires forall id :: id in ids ==> Worth(m, id) == Worth(n, id)
    ensures CreditsOver(m, ids) == CreditsOver(n, ids)
    decreases |ids|
  {
    if ids != {} {
      var k :| k in ids;
      CreditsPick(m, ids, k);
      CreditsPick(n, ids, k);
      CreditsSame(m, n, ids - {k});
    }
  }

  lemma CreditsPut(m: map<Id, Account>, id: Id, a: Account)
    ensures Credits(m[id := a]) == Credits(m) + Max0(a.balance) - Worth(m, id)
  {
    var n := m[id := a];
    CreditsPick(n, n.Keys, id);
    CreditsSame(m, n, m.Keys - {id});
    assert n.Keys - {id} == m.Keys - {id};
    if id in m {
      CreditsPick(m, m.Keys, id);
    } else {
      assert m.Keys - {id} == m.Keys;
    }
  }

  lemma CreditsDrop(m: map<Id, Account>, id: Id)
    requires id in m
    ensures Credits(m - {id}) == Credits(m) - Worth(m, id)
  {
    var n := m - {id};
    CreditsPick(m, m.Keys, id);
    assert n.Keys == m.Keys - {id};
    CreditsSame(m, n, n.Keys);
  }

  // ---- The invariant ----

  /** Rows stay in range, and none of them reads as erased. */
  ghost predicate Rows(m: map<Id, Account>)
  {
    forall id :: id in m ==> Fits(m[id]) && !IsEmpty(m[id])
  }

  /** What a record means for the row it is applied to. */
  function Apply(m: map<Id, Account>, e: Entry): map<Id, Account>
  {
    var row := Patch(e.mode, e.row, if e.id in m then m[e.id] else NewAccount());
    if IsEmpty(row) then m - {e.id} else m[e.id := row]
  }

  function Replay(m: map<Id, Account>, log: seq<Entry>): map<Id, Account>
  {
    if log == [] then m else Apply(Replay(m, log[..|log| - 1]), log[|log| - 1])
  }

  ghost predicate Filed(snapshot: map<Id, Account>, log: seq<Entry>)
  {
    && (forall id :: id in snapshot ==> Fits(snapshot[id]))
    && (forall i :: 0 <= i < |log| ==> Fits(log[i].row))
  }

  lemma SnapshotBack(snapshot: map<Id, Account>)
    requires forall id :: id in snapshot ==> Fits(snapshot[id])
    ensures ReadSnapshot(snapshot) == snapshot
  {
    forall id | id in snapshot ensures RowBack(snapshot[id]) == snapshot[id] {
      AllBack(snapshot[id], NewAccount());
    }
  }

  /** Reading the bytes is replaying the meanings. */
  lemma {:induction false} ReadIsReplay(snapshot: map<Id, Account>, log: seq<Entry>)
    requires Filed(snapshot, log)
    ensures ReadLog(ReadSnapshot(snapshot), log) == Replay(snapshot, log)
  {
    if log == [] {
      SnapshotBack(snapshot);
    } else {
      var past, e := log[..|log| - 1], log[|log| - 1];
      ReadIsReplay(snapshot, past);
      ReadEntryIsApply(Replay(snapshot, past), e);
    }
  }

  lemma ReadEntryIsApply(m: map<Id, Account>, e: Entry)
    requires Fits(e.row)
    ensures ReadEntry(m, e) == Apply(m, e)
  {
    RecordMeans(e.mode, e.row, if e.id in m then m[e.id] else NewAccount(), []);
    assert Write(e.mode, e.row) + [] == Write(e.mode, e.row);
  }

  ghost predicate Tallied(b: Book)
  {
    Rows(b.store) && b.total == Credits(b.store)
  }

  /** The row of `id` is the only change from `b` to `c`, and the journal covers it. */
  ghost predicate Covered(b: Book, c: Book, id: Id)
  {
    && c.snapshot == b.snapshot
    && (|| (c.store == b.store && c.log == b.log)
        || (c.store == b.store - {id} && c.log == b.log + [Entry(id, Erased, NewAccount())])
        || (&& id in c.store
            && c.store == b.store[id := c.store[id]]
            && |c.log| == |b.log| + 1
            && c.log == b.log + [Entry(id, c.log[|b.log|].mode, c.store[id])]
            && Fits(c.store[id])
            && Patch(c.log[|b.log|].mode, c.store[id], if id in b.store then b.store[id] else NewAccount())
                == c.store[id]))
  }

  ghost predicate Kept(b: Book, c: Book, id: Id)
  {
    Tallied(c) && Covered(b, c, id)
  }

  /** What is on disk describes what is in memory. */
  ghost predicate OnDisk(b: Book)
  {
    Filed(b.snapshot, b.log) && Replay(b.snapshot, b.log) == b.store
  }

  lemma ReplaySnoc(m: map<Id, Account>, log: seq<Entry>, e: Entry)
    ensures Replay(m, log + [e]) == Apply(Replay(m, log), e)
  {
    assert (log + [e])[..|log|] == log;
  }

  /** So a covered change keeps it that way. */
  lemma CoveredOnDisk(b: Book, c: Book, id: Id)
    requires OnDisk(b) && Covered(b, c, id) && Rows(c.store)
    ensures OnDisk(c)
  {
    if c.log != b.log {
      var e := c.log[|b.log|];
      assert c.log == b.log + [e];
      ReplaySnoc(b.snapshot, b.log, e);
    }
  }

  /** A row that reads as empty is exactly what the journal cannot hold. */
  lemma JournalHoldsNonEmpty(b: Book, id: Id, a: Account, mode: SerMode)
    requires OnDisk(b) && Fits(a)
    requires !IsEmpty(a) ==> Patch(mode, a, if id in b.store then b.store[id] else NewAccount()) == a
    ensures Load(Persist(b, id, a, mode)) == Persist(b, id, a, mode).store <==> !IsEmpty(a)
  {
    ReplaySnoc(b.snapshot, b.log, Entry(id, mode, a));
    ReadIsReplay(b.snapshot, b.log + [Entry(id, mode, a)]);
    if IsEmpty(a) {
      assert id !in Apply(b.store, Entry(id, mode, a));
    }
  }

  /** A row that is updated in range, is not empty and whose record covers what changed. */
  lemma PersistKeeps(b: Book, id: Id, a: Account, mode: SerMode, total: int)
    requires Tallied(b) && Fits(a) && !IsEmpty(a)
    requires Patch(mode, a, if id in b.store then b.store[id] else NewAccount()) == a
    requires total == b.total + Max0(a.balance) - Worth(b.store, id)
    ensures Kept(b, Persist(b, id, a, mode).(total := total), id)
  {
    CreditsPut(b.store, id, a);
  }

  lemma EraseKeeps(b: Book, id: Id)
    requires Tallied(b) && id in b.store
    ensures Kept(b, Erase(b, id).(total := b.total - Max0(b.store[id].balance)), id)
  {
    CreditsDrop(b.store, id);
  }

  // ---- Runs ----

  /** The operations one by one, in whatever order the server calls them. */
  datatype Event =
    | Open(id: Id, account: Account)
    | Validate(id: Id, amount: nat, fee: nat, reqNonce: nat, errFee: int)
    | Take(id: Id, amount: nat)
    | TakeFor(id: Id, amount: nat, dest: Id, sent: nat, time: nat)
    | Deposit(id: Id, amount: nat)
    | Settle(id: Id, amount: nat)
    | Charge(id: Id, errFee: int)
    | Relabel(id: Id, alias: nat)
    | Snapshot
    | Restart

  /** What the callers of the ledger guarantee, as documented where each operation is declared. */
  ghost predicate Allowed(b: Book, ev: Event)
  {
    match ev
    case Open(id, a) => id !in b.store && Fits(a) && !IsEmpty(a)
    case Validate(_, _, _, _, errFee) => errFee >= 0
    case Take(_, amount) => amount < TWO_63
    case TakeFor(_, amount, dest, _, _) => amount < TWO_63 && |dest.prefix| == PREFIX_BYTES
    case Deposit(id, _) => id in b.store ==> b.store[id].balance >= 0
    case Settle(id, amount) => amount <= BALANCE_MAX && (id in b.store ==> Settles(b.store[id], amount))
    case Charge(_, errFee) => errFee >= 0
    case Relabel(_, alias) => alias < TWO_32
    case Snapshot => true
    case Restart => true
  }

  /** A payment account, and a row that does not become empty. */
  predicate Settles(a: Account, amount: nat)
  {
    a.balance < 0 && (amount > 0 || a.keyTail != Zeros(TAIL_BYTES))
  }

  ghost function Step(b: Book, ev: Event): Book
    requires Rows(b.store) && Allowed(b, ev)
  {
    match ev
    case Open(id, a) => Create(b, id, a)
    case Validate(id, amount, fee, reqNonce, errFee) => ValidateSpend(b, id, amount, fee, reqNonce, errFee).0
    case Take(id, amount) => Debit(b, id, amount)
    case TakeFor(id, amount, dest, sent, time) => DebitTransfer(b, id, amount, dest, sent, time)
    case Deposit(id, amount) => Credit(b, id, amount)
    case Settle(id, amount) => SettlePayment(b, id, amount)
    case Charge(id, errFee) => ChargeError(b, id, errFee)
    case Relabel(id, alias) => SetAlias(b, id, alias)
    case Snapshot => TakeSnapshot(b)
    case Restart => b.(store := Load(b), total := Credits(Load(b)))
  }

  const EMPTY_BOOK := Book(map[], 0, map[], [])

  /** `events` is a run: every event is allowed in the state it meets, `b` is the state it ends in. */
  ghost predicate IsRun(events: seq<Event>, b: Book)
  {
    if events == [] then b == EMPTY_BOOK
    else
      var past, ev := events[..|events| - 1], events[|events| - 1];
      exists prior :: IsRun(past, prior) && Leads(prior, ev, b)
  }

  ghost predicate Leads(b: Book, ev: Event, c: Book)
  {
    Rows(b.store) && Allowed(b, ev) && c == Step(b, ev)
  }

  /** The row a debit leaves behind, and the record that covers its changes. */
  lemma DebitedRow(a: Account, delta: int, receipt: bool, dest: Id, sent: nat, time: nat)
    requires Fits(a) && 0 <= delta < a.balance && (receipt ==> |dest.prefix| == PREFIX_BYTES)
    ensures var plain := a.(balance := Stored(a.balance - delta), nonce := NextNonce(a.nonce));
            var row := if receipt then Receipt(plain, dest, sent, time) else plain;
            && Fits(row) && !IsEmpty(row) && row.balance == a.balance - delta
            && Patch(if receipt then Transfer else BalanceNonce, row, a) == row
  {
  }

  lemma DebitKeeps(b: Book, id: Id, delta: int, receipt: bool, dest: Id, sent: nat, time: nat)
    requires Tallied(b) && delta >= 0 && (receipt ==> |dest.prefix| == PREFIX_BYTES)
    ensures Kept(b, DebitBy(b, id, delta, receipt, dest, sent, time), id)
  {
    if id in b.store {
      var a := b.store[id];
      if a.balance - delta <= 0 {
        EraseKeeps(b, id);
      } else {
        DebitedRow(a, delta, receipt, dest, sent, time);
        var plain := a.(balance := Stored(a.balance - delta), nonce := NextNonce(a.nonce));
        var row := if receipt then Receipt(plain, dest, sent, time) else plain;
        PersistKeeps(b, id, row, if receipt then Transfer else BalanceNonce, b.total - delta);
      }
    }
  }

  /** On a balance in range, crediting adds the amount or stops at the cap. */
  lemma CreditedIs(balance: int, amount: nat)
    requires BALANCE_MIN <= balance <= BALANCE_MAX
    ensures Credited(balance, amount) == if balance + amount <= BALANCE_MAX then balance + amount else BALANCE_MAX
    ensures Stored(Credited(balance, amount)) == Credited(balance, amount)
  {
  }

  lemma CreditKeeps(b: Book, id: Id, amount: nat)
    requires Tallied(b) && (id in b.store ==> b.store[id].balance >= 0)
    ensures Kept(b, Credit(b, id, amount), id)
  {
    if id in b.store {
      var a := b.store[id];
      CreditedIs(a.balance, amount);
      var newBal := Credited(a.balance, amount);
      PersistKeeps(b, id, a.(balance := newBal), BalanceNonce, b.total + (newBal - a.balance));
    }
  }

  lemma SettleKeeps(b: Book, id: Id, amount: nat)
    requires Tallied(b) && amount <= BALANCE_MAX && (id in b.store ==> Settles(b.store[id], amount))
    ensures Kept(b, SettlePayment(b, id, amount), id)
  {
    if id in b.store {
      PersistKeeps(b, id, b.store[id].(balance := amount, nonce := 0), BalanceNonce, b.total + amount);
    }
  }

  lemma ChargeKeeps(b: Book, id: Id, errFee: int)
    requires Tallied(b) && errFee >= 0
    ensures Kept(b, ChargeError(b, id, errFee), id)
  {
    if id in b.store && b.store[id].balance >= 0 {
      var a := b.store[id];
      if a.balance - errFee <= 0 {
        EraseKeeps(b, id);
      } else {
        PersistKeeps(b, id, a.(balance := a.balance - errFee), BalanceNonce, b.total - errFee);
      }
    }
  }

  /** A spend is validated exactly when funds and nonce allow it, and then changes nothing yet. */
  lemma ValidateKeeps(b: Book, id: Id, amount: nat, fee: nat, reqNonce: nat, errFee: int)
    requires Tallied(b) && errFee >= 0
    ensures var (c, code) := ValidateSpend(b, id, amount, fee, reqNonce, errFee);
            && Kept(b, c, id)
            && (code == Ok <==>
                  && id in b.store && amount + fee <= b.store[id].balance
                  && (reqNonce == 0 || reqNonce == CES_NONCELESS || reqNonce == NextNonce(b.store[id].nonce)))
            && (code == Ok ==> c == b)
  {
    ChargeKeeps(b, id, errFee);
  }

  lemma AliasKeeps(b: Book, id: Id, alias: nat)
    requires Tallied(b) && alias < TWO_32
    ensures Kept(b, SetAlias(b, id, alias), id)
  {
    if id in b.store {
      PersistKeeps(b, id, b.store[id].(aliasId := alias), Full, b.total);
    }
  }

  ghost predicate Sound(b: Book)
  {
    Tallied(b) && OnDisk(b)
  }

  lemma StepKeeps(b: Book, ev: Event)
    requires Tallied(b) && Allowed(b, ev) && !ev.Snapshot? && !ev.Restart?
    ensures Kept(b, Step(b, ev), ev.id)
  {
    match ev
    case Open(id, a) => PersistKeeps(b, id, a, Full, b.total + Max0(a.balance));
    case Validate(id, amount, fee, reqNonce, errFee) => ValidateKeeps(b, id, amount, fee, reqNonce, errFee);
    case Take(id, amount) => DebitKeeps(b, id, amount, false, id, 0, 0);
    case TakeFor(id, amount, dest, sent, time) => DebitKeeps(b, id, amount, true, dest, sent, time);
    case Relabel(id, alias) => AliasKeeps(b, id, alias);
    case Deposit(id, amount) => CreditKeeps(b, id, amount);
    case Settle(id, amount) => SettleKeeps(b, id, amount);
    case Charge(id, errFee) => ChargeKeeps(b, id, errFee);
  }

  lemma StepSound(b: Book, ev: Event)
    requires Sound(b) && Allowed(b, ev)
    ensures Sound(Step(b, ev))
  {
    if ev.Snapshot? {
      assert OnDisk(Step(b, ev));
    } else if ev.Restart? {
      ReadIsReplay(b.snapshot, b.log);
    } else {
      StepKeeps(b, ev);
      CoveredOnDisk(b, Step(b, ev), ev.id);
    }
  }

  lemma {:induction false} RunSound(events: seq<Event>, b: Book)
    requires IsRun(events, b)
    ensures Sound(b)
  {
    if events != [] {
      var past, ev := events[..|events| - 1], events[|events| - 1];
      var prior :| IsRun(past, prior) && Leads(prior, ev, b);
      RunSound(past, prior);
      StepSound(prior, ev);
    }
  }

  /**
   * After any run, reading the partial records over the last snapshot rebuilds every
   * field of every account, the total is the sum of the positive balances, and every row
   * is in range.
   */
  lemma RunLoads(events: seq<Event>, b: Book)
    requires IsRun(events, b)
    ensures Load(b) == b.store && b.total == Credits(b.store)
    ensures forall id :: id in b.store ==> Fits(b.store[id]) && BALANCE_MIN <= b.store[id].balance <= BALANCE_MAX
  {
    RunSound(events, b);
    ReadIsReplay(b.snapshot, b.log);
  }

  /** So a restart changes nothing. */
  lemma RestartIsIdentity(events: seq<Event>, b: Book)
    requires IsRun(events, b)
    ensures Rows(b.store) && Step(b, Restart) == b
  {
    RunLoads(events, b);
    RunRows(events, b);
  }

  lemma RunRows(events: seq<Event>, b: Book)
    requires IsRun(events, b)
    ensures Rows(b.store)
  {
    RunSound(events, b);
  }

  // ---- When an operation keeps the total right ----

  /** A plain credit keeps the total right exactly on a balance that is not negative (or for nothing). */
  lemma CreditTotal(b: Book, id: Id, amount: nat)
    requires Tallied(b) && id in b.store
    ensures TotalRight(Credit(b, id, amount)) <==> b.store[id].balance >= 0 || amount == 0
  {
    var a := b.store[id];
    CreditedIs(a.balance, amount);
    CreditsPut(b.store, id, a.(balance := Credited(a.balance, amount)));
  }

  /** The total says what the rows hold. */
  ghost predicate TotalRight(b: Book)
  {
    b.total == Credits(b.store)
  }

  /** Settling keeps it right exactly when the account held nothing spendable. */
  lemma SettleTotal(b: Book, id: Id, amount: nat)
    requires TotalRight(b) && id in b.store && amount <= BALANCE_MAX
    ensures TotalRight(SettlePayment(b, id, amount)) <==> b.store[id].balance <= 0
  {
    CreditsPut(b.store, id, b.store[id].(balance := amount, nonce := 0));
  }

  /** The amount as the code reads it: a debit of 2^63 or more adds to the balance. */
  predicate DebitFits(a: Account, amount: nat)
  {
    var newBal := a.balance - AsInt64(amount);
    amount < TWO_63 || newBal <= 0 || (a.balance >= 0 && newBal <= BALANCE_MAX)
  }

  /**
   * A debit keeps the total right exactly when the amount is below 2^63, or what it adds
   * leaves the balance not positive, or a balance that was not negative stays in range.
   */
  lemma DebitTotal(b: Book, id: Id, amount: nat)
    requires Tallied(b) && id in b.store && amount < TWO_64
    ensures TotalRight(Debit(b, id, amount)) <==> DebitFits(b.store[id], amount)
  {
    var a := b.store[id];
    var newBal := a.balance - AsInt64(amount);
    if newBal <= 0 {
      CreditsDrop(b.store, id);
    } else {
      CreditsPut(b.store, id, a.(balance := Stored(newBal), nonce := NextNonce(a.nonce)));
      StoredBelow(newBal);
    }
  }

  /** The receipt does not touch the balance. */
  lemma SameTotal(b: Book, id: Id, amount: nat, dest: Id, sent: nat, time: nat)
    requires id in b.store
    ensures TotalRight(DebitTransfer(b, id, amount, dest, sent, time)) <==> TotalRight(Debit(b, id, amount))
  {
    var a := b.store[id];
    var newBal := a.balance - AsInt64(amount);
    if newBal > 0 {
      var plain := a.(balance := Stored(newBal), nonce := NextNonce(a.nonce));
      CreditsPut(b.store, id, plain);
      CreditsPut(b.store, id, Receipt(plain, dest, sent, time));
    }
  }

  lemma StoredBelow(v: int)
    requires v > 0
    ensures Stored(v) <= v && (Stored(v) == v <==> v <= BALANCE_MAX)
  {
    Int48Exact(v);
  }

  /** Creating keeps it right exactly when no spendable balance is overwritten. */
  lemma CreateTotal(b: Book, id: Id, a: Account)
    requires TotalRight(b)
    ensures TotalRight(Create(b, id, a)) <==> id !in b.store || b.store[id].balance <= 0
  {
    CreditsPut(b.store, id, a);
  }
}
