/** What a transfer does to the money supply: the receiver's leg first, the sender's debit last. */
module LedgerTransfers {
  import opened BigEndian
  import opened AccountRecord
  import opened Ledger

  /** A debit that the balance covers takes exactly its amount out of circulation. */
  lemma ValidatedDebit(b: Book, origin: Id, amount: nat, dest: Id, sent: nat, time: nat)
    requires Tallied(b) && origin in b.store && amount <= b.store[origin].balance && |dest.prefix| == PREFIX_BYTES
    ensures var d := DebitTransfer(b, origin, amount, dest, sent, time);
            && Tallied(d)
            && d.total == b.total - amount
            && d.store - {origin} == b.store - {origin}
            && (if b.store[origin].balance == amount then origin !in d.store
                else origin in d.store && d.store[origin].balance == b.store[origin].balance - amount)
  {
    DebitKeeps(b, origin, amount, true, dest, sent, time);
  }

  /** Only `id` differs between the two books. */
  ghost predicate OnlyAt(b: Book, c: Book, id: Id)
  {
    c.store - {id} == b.store - {id}
  }

  // ---- The receiver's leg ----

  /** A new account opened with the amount, or as a payment that waits for it. */
  function NewRow(tail: seq<byte>, amount: nat, payment: bool, days: nat): Account
  {
    var signed: int := if payment then 0 - amount else amount;
    NewAccount().(keyTail := tail, balance := signed, nonce := if payment then 1 + days else 0)
  }

  /** The receiver is opened, paid what it waits for, or credited. */
  function Deliver(b: Book, dest: Id, row: Account, amount: nat): Book
  {
    if dest !in b.store then Create(b, dest, row)
    else if b.store[dest].balance < 0 then SettlePayment(b, dest, amount)
    else Credit(b, dest, amount)
  }

  /** What the server checks before it delivers. */
  ghost predicate Deliverable(b: Book, dest: Id, row: Account, amount: nat)
  {
    if dest !in b.store then Fits(row) && !IsEmpty(row)
    else if b.store[dest].balance < 0 then amount == -b.store[dest].balance && amount <= BALANCE_MAX
    else !CreditWouldOverflow(b.store[dest].balance, amount)
  }

  /** What the receiver's leg puts into circulation. */
  function Issued(b: Book, dest: Id, row: Account, amount: nat): nat
  {
    if dest !in b.store then Max0(row.balance) else amount
  }

  lemma Delivered(b: Book, dest: Id, row: Account, amount: nat)
    requires Tallied(b) && Deliverable(b, dest, row, amount)
    ensures var c := Deliver(b, dest, row, amount);
      && Tallied(c) && OnlyAt(b, c, dest) && dest in c.store
      && c.total == b.total + Issued(b, dest, row, amount)
      && c.store[dest].balance
         == (if dest !in b.store then row.balance
             else if b.store[dest].balance < 0 then amount
             else b.store[dest].balance + amount)
  {
    if dest !in b.store {
      PersistKeeps(b, dest, row, Full, b.total + Max0(row.balance));
    } else if b.store[dest].balance < 0 {
      SettleKeeps(b, dest, amount);
    } else {
      CreditKeeps(b, dest, amount);
      CreditedIs(b.store[dest].balance, amount);
    }
  }

  // ---- The whole transfer ----

  /** As the server commits it: deliver, then debit the sender of amount, fee and what opening costs. */
  function Transfer(b: Book, origin: Id, dest: Id, row: Account, amount: nat, charges: nat, time: nat): Book
  {
    DebitTransfer(Deliver(b, dest, row, amount), origin, amount + charges, dest, amount, time)
  }

  /** The sender's spend was validated and it covers the charges. */
  ghost predicate Payable(b: Book, origin: Id, amount: nat, charges: nat)
  {
    origin in b.store && amount + charges <= b.store[origin].balance
  }

  lemma ValidatedIsPayable(b: Book, origin: Id, amount: nat, fee: nat, reqNonce: nat, errFee: int)
    requires Tallied(b) && errFee >= 0 && ValidateSpend(b, origin, amount, fee, reqNonce, errFee).1 == Ok
    ensures Payable(b, origin, amount, fee)
  {
    ValidateKeeps(b, origin, amount, fee, reqNonce, errFee);
  }

  /** The debit of a sender that the receiver's leg did not touch. */
  lemma DebitAfter(b: Book, d: Book, origin: Id, dest: Id, paid: nat, sent: nat, time: nat)
    requires Tallied(d) && OnlyAt(b, d, dest) && origin != dest && |dest.prefix| == PREFIX_BYTES
    requires origin in b.store && paid <= b.store[origin].balance
    ensures var c := DebitTransfer(d, origin, paid, dest, sent, time);
      && Tallied(c) && OnlyAt(d, c, origin) && c.total == d.total - paid
      && (if b.store[origin].balance == paid then origin !in c.store
          else origin in c.store && c.store[origin].balance == b.store[origin].balance - paid)
  {
    Unaltered(b, d, dest, origin);
    ValidatedDebit(d, origin, paid, dest, sent, time);
  }

  /**
   * Between two accounts, whichever way the receiver is served: the total changes by what
   * the receiver's leg issued less what the sender paid, the sender loses amount and
   * charges and is erased exactly when that is all it had, and nobody else changes.
   */
  lemma TransferConserves(b: Book, origin: Id, dest: Id, row: Account, amount: nat, charges: nat, time: nat)
    requires Tallied(b) && Payable(b, origin, amount, charges) && Deliverable(b, dest, row, amount)
    requires origin != dest && |dest.prefix| == PREFIX_BYTES
    ensures var c := Transfer(b, origin, dest, row, amount, charges, time);
      && Tallied(c)
      && c.total == b.total + Issued(b, dest, row, amount) - amount - charges
      && dest in c.store && c.store[dest] == Deliver(b, dest, row, amount).store[dest]
      && (if b.store[origin].balance == amount + charges then origin !in c.store
          else origin in c.store && c.store[origin].balance == b.store[origin].balance - amount - charges)
      && c.store - {origin, dest} == b.store - {origin, dest}
  {
    Delivered(b, dest, row, amount);
    DebitAfter(b, Deliver(b, dest, row, amount), origin, dest, amount + charges, amount, time);
    BothAside(b.store, Deliver(b, dest, row, amount).store, Transfer(b, origin, dest, row, amount, charges, time).store,
              origin, dest);
  }

  lemma Unaltered(b: Book, c: Book, id: Id, other: Id)
    requires OnlyAt(b, c, id) && other != id && other in b.store
    ensures other in c.store && c.store[other] == b.store[other]
  {
    assert other in b.store - {id} && other in c.store - {id};
    assert (c.store - {id})[other] == (b.store - {id})[other];
  }

  lemma BothAside(a: map<Id, Account>, d: map<Id, Account>, c: map<Id, Account>, x: Id, y: Id)
    requires d - {y} == a - {y} && c - {x} == d - {x} && x != y && y in d
    ensures c - {x, y} == a - {x, y} && y in c && c[y] == d[y]
  {
    assert y in d - {x};
    assert c - {x, y} == (c - {x}) - {y};
    assert a - {x, y} == (a - {y}) - {x};
    assert (d - {x}) - {y} == (d - {y}) - {x};
  }

  /** To an account that exists, and to a payment that waits for the amount, exactly the fee leaves circulation. */
  lemma TransferCostsTheFee(b: Book, origin: Id, dest: Id, amount: nat, fee: nat, reqNonce: nat, errFee: int, time: nat)
    requires Tallied(b) && errFee >= 0 && origin != dest && |dest.prefix| == PREFIX_BYTES
    requires ValidateSpend(b, origin, amount, fee, reqNonce, errFee).1 == Ok
    requires dest in b.store && Deliverable(b, dest, NewAccount(), amount)
    ensures var c := Transfer(b, origin, dest, NewAccount(), amount, fee, time);
      Tallied(c) && c.total == b.total - fee
  {
    ValidatedIsPayable(b, origin, amount, fee, reqNonce, errFee);
    TransferConserves(b, origin, dest, NewAccount(), amount, fee, time);
  }

  /** Opening the receiver costs fee and opening charge; as a payment, the amount is held back until it is settled. */
  lemma OpeningCosts(b: Book, origin: Id, dest: Id, tail: seq<byte>, amount: nat, charges: nat, payment: bool,
      days: nat, time: nat)
    requires Tallied(b) && Payable(b, origin, amount, charges) && dest !in b.store && |dest.prefix| == PREFIX_BYTES
    requires |tail| == TAIL_BYTES && days < 256 && amount <= BALANCE_MAX
        && !IsEmpty(NewRow(tail, amount, payment, days))
    ensures var c := Transfer(b, origin, dest, NewRow(tail, amount, payment, days), amount, charges, time);
      Tallied(c) && c.total == b.total - charges - if payment then amount else 0
  {
    TransferConserves(b, origin, dest, NewRow(tail, amount, payment, days), amount, charges, time);
  }

  /** To itself: the amount comes back, so the sender and the total lose the fee and nothing else. */
  lemma SelfTransferCostsTheFee(b: Book, origin: Id, amount: nat, fee: nat, time: nat)
    requires Tallied(b) && Payable(b, origin, amount, fee) && |origin.prefix| == PREFIX_BYTES
    requires !CreditWouldOverflow(b.store[origin].balance, amount)
    ensures var c := Transfer(b, origin, origin, NewAccount(), amount, fee, time);
      && Tallied(c) && c.total == b.total - fee && OnlyAt(b, c, origin)
      && (if b.store[origin].balance == fee then origin !in c.store
          else origin in c.store && c.store[origin].balance == b.store[origin].balance - fee)
  {
    Delivered(b, origin, NewAccount(), amount);
    DebitSelf(b, Deliver(b, origin, NewAccount(), amount), origin, amount, fee, time);
  }

  lemma DebitSelf(b: Book, d: Book, origin: Id, amount: nat, fee: nat, time: nat)
    requires Tallied(d) && OnlyAt(b, d, origin) && origin in b.store && origin in d.store
        && |origin.prefix| == PREFIX_BYTES
    requires d.store[origin].balance == b.store[origin].balance + amount && amount + fee <= b.store[origin].balance
    ensures var c := DebitTransfer(d, origin, amount + fee, origin, amount, time);
      && Tallied(c) && c.total == d.total - amount - fee && OnlyAt(b, c, origin)
      && (if b.store[origin].balance == fee then origin !in c.store
          else origin in c.store && c.store[origin].balance == b.store[origin].balance - fee)
  {
    ValidatedDebit(d, origin, amount + fee, origin, amount, time);
  }

  /**
   * A payment opened by one sender and settled by another: together they cost their charges, and the
   * payee ends with the amount.
   */
  lemma PaymentComesBack(b: Book, payer: Id, settler: Id, dest: Id, tail: seq<byte>, amount: nat, charges: nat,
      days: nat, fee: nat, time: nat)
    requires Tallied(b) && Payable(b, payer, amount, charges) && dest !in b.store && |dest.prefix| == PREFIX_BYTES
    requires |tail| == TAIL_BYTES && days < 256 && 0 < amount <= BALANCE_MAX && settler != dest
    requires Payable(Transfer(b, payer, dest, NewRow(tail, amount, true, days), amount, charges, time),
        settler, amount, fee)
    ensures var held := Transfer(b, payer, dest, NewRow(tail, amount, true, days), amount, charges, time);
      var paid := Transfer(held, settler, dest, NewAccount(), amount, fee, time);
      && Tallied(paid) && dest in paid.store && paid.store[dest].balance == amount
      && held.total == b.total - charges - amount && paid.total == held.total - fee
  {
    var row := NewRow(tail, amount, true, days);
    var held := Transfer(b, payer, dest, row, amount, charges, time);
    OpeningCosts(b, payer, dest, tail, amount, charges, true, days, time);
    TransferConserves(b, payer, dest, row, amount, charges, time);
    Delivered(b, dest, row, amount);
    TransferConserves(held, settler, dest, NewAccount(), amount, fee, time);
    Delivered(held, dest, NewAccount(), amount);
  }

  // ---- Every way out of a transfer ----

  datatype Mode = Safe | OpenUp | Payment

  /** `cost` is what opening an account costs, `tail` the rest of the receiver's key. */
  datatype Request = Request(
    origin: Id, dest: Id, tail: seq<byte>, amount: nat, fee: nat, nonce: nat, errFee: int,
    mode: Mode, days: nat, cost: nat, maxAcc: nat, time: nat)

  datatype Reply =
    | Committed | Invalid(code: Code) | TargetNotFound | TooManyAccounts | TooPoorToOpen
    | OverTheCap | TargetExists | WrongTarget | WrongPayment

  /** The row a transfer would open. */
  function Opened(r: Request): Account
    requires |r.tail| == TAIL_BYTES
  {
    NewRow(r.tail, r.amount, r.mode == Payment, r.days)
  }

  function Charges(b: Book, r: Request): nat
  {
    if r.dest in b.store then r.fee else r.fee + r.cost
  }

  /** The checks after a validated spend, in the server's order. */
  function Verdict(b: Book, r: Request): Reply
    requires r.origin in b.store
  {
    if r.dest !in b.store then
      if r.mode == Safe then TargetNotFound
      else if |b.store| >= r.maxAcc then TooManyAccounts
      else if r.amount + r.fee + r.cost >= TWO_64 then TooPoorToOpen
      else if b.store[r.origin].balance < AsInt64(r.amount + r.fee + r.cost) then TooPoorToOpen
      else if CreditWouldOverflow(0, r.amount) then OverTheCap
      else Committed
    else
      var a := b.store[r.dest];
      if r.mode == Payment then TargetExists
      else if a.keyTail != r.tail then WrongTarget
      else if a.balance < 0 && r.amount != -a.balance then WrongPayment
      else if a.balance >= 0 && CreditWouldOverflow(a.balance, r.amount) then OverTheCap
      else Committed
  }

  function ServerTransfer(b: Book, r: Request): (Book, Reply)
    requires |r.tail| == TAIL_BYTES
  {
    var (c, code) := ValidateSpend(b, r.origin, r.amount, r.fee, r.nonce, r.errFee);
    if code != Ok then (c, Invalid(code))
    else
      var v := if r.origin in b.store then Verdict(b, r) else Invalid(OriginNotFound);
      match v
      case Committed => (Transfer(b, r.origin, r.dest, Opened(r), r.amount, Charges(b, r), r.time), v)
      case TooManyAccounts => (b, v)
      case _ => (ChargeError(b, r.origin, r.errFee), v)
  }

  /** Field widths, an opening cost that is no negative number, and a new row that is not empty. */
  predicate WellFormed(r: Request)
  {
    && |r.tail| == TAIL_BYTES && |r.dest.prefix| == PREFIX_BYTES && r.errFee >= 0 && r.days < 256
    && r.cost < TWO_63 - BALANCE_MAX && !IsEmpty(Opened(r))
  }

  /** An error fee takes no more than is there, and nothing from a waiting payment. */
  function ErrorCost(b: Book, id: Id, errFee: int): int
  {
    if id !in b.store || b.store[id].balance < 0 then 0
    else if b.store[id].balance < errFee then b.store[id].balance
    else errFee
  }

  lemma ChargeCosts(b: Book, id: Id, errFee: int)
    requires Tallied(b) && errFee >= 0
    ensures var c := ChargeError(b, id, errFee);
      && Tallied(c) && OnlyAt(b, c, id) && c.total == b.total - ErrorCost(b, id, errFee)
      && (id in b.store && b.store[id].balance >= 0 ==>
            if b.store[id].balance <= errFee then id !in c.store
            else id in c.store && c.store[id].balance == b.store[id].balance - errFee)
  {
    ChargeKeeps(b, id, errFee);
  }

  /**
   * A refusal touches the sender alone: for free where it is not known or the server is full, at the
   * error fee otherwise.
   */
  ghost predicate RefusedLaw(b: Book, c: Book, r: Request, reply: Reply)
  {
    if reply == TooManyAccounts || reply == Invalid(OriginNotFound) then c == b
    else c == ChargeError(b, r.origin, r.errFee) && OnlyAt(b, c, r.origin)
         && c.total == b.total - ErrorCost(b, r.origin, r.errFee)
  }

  /** A commit moves what was issued to the receiver and what was charged off the sender, and touches nobody else. */
  ghost predicate CommittedLaw(b: Book, c: Book, r: Request)
    requires r.origin in b.store && |r.tail| == TAIL_BYTES
  {
    var lost := if r.origin == r.dest then r.fee else r.amount + Charges(b, r);
    && c.total == b.total + Issued(b, r.dest, Opened(r), r.amount) - r.amount - Charges(b, r)
    && c.store - {r.origin, r.dest} == b.store - {r.origin, r.dest}
    && (if b.store[r.origin].balance == lost then r.origin !in c.store
        else r.origin in c.store && c.store[r.origin].balance == b.store[r.origin].balance - lost)
  }

  lemma RefusedExit(b: Book, r: Request)
    requires Tallied(b) && WellFormed(r) && ServerTransfer(b, r).1 != Committed
    ensures Tallied(ServerTransfer(b, r).0) && RefusedLaw(b, ServerTransfer(b, r).0, r, ServerTransfer(b, r).1)
  {
    ChargeCosts(b, r.origin, r.errFee);
  }

  /** What the checks leave is payable and deliverable. */
  lemma CommitReady(b: Book, r: Request)
    requires Tallied(b) && WellFormed(r) && ServerTransfer(b, r).1 == Committed
    ensures Payable(b, r.origin, r.amount, Charges(b, r)) && Deliverable(b, r.dest, Opened(r), r.amount)
    ensures r.origin == r.dest ==> b.store[r.origin].balance >= 0
  {
    ValidatedIsPayable(b, r.origin, r.amount, r.fee, r.nonce, r.errFee);
  }

  lemma SelfExit(b: Book, r: Request)
    requires Tallied(b) && WellFormed(r) && ServerTransfer(b, r).1 == Committed && r.origin == r.dest
    ensures r.origin in b.store && Tallied(ServerTransfer(b, r).0) && CommittedLaw(b, ServerTransfer(b, r).0, r)
  {
    CommitReady(b, r);
    SelfTransferCostsTheFee(b, r.origin, r.amount, r.fee, r.time);
    SameDelivery(b, r);
  }

  lemma OtherExit(b: Book, r: Request)
    requires Tallied(b) && WellFormed(r) && ServerTransfer(b, r).1 == Committed && r.origin != r.dest
    ensures r.origin in b.store && Tallied(ServerTransfer(b, r).0) && CommittedLaw(b, ServerTransfer(b, r).0, r)
  {
    CommitReady(b, r);
    TransferConserves(b, r.origin, r.dest, Opened(r), r.amount, Charges(b, r), r.time);
  }

  lemma SameDelivery(b: Book, r: Request)
    requires |r.tail| == TAIL_BYTES && r.origin in b.store && r.origin == r.dest
    ensures Transfer(b, r.origin, r.dest, Opened(r), r.amount, r.fee, r.time)
            == Transfer(b, r.origin, r.origin, NewAccount(), r.amount, r.fee, r.time)
  {
  }

  /** One law for every way a transfer ends. */
  lemma EveryExit(b: Book, r: Request)
    requires Tallied(b) && WellFormed(r)
    ensures var (c, reply) := ServerTransfer(b, r);
      && Tallied(c)
      && (reply == Committed ==> r.origin in b.store && CommittedLaw(b, c, r))
      && (reply != Committed ==> RefusedLaw(b, c, r, reply))
  {
    if ServerTransfer(b, r).1 != Committed {
      RefusedExit(b, r);
    } else if r.origin == r.dest {
      SelfExit(b, r);
    } else {
      OtherExit(b, r);
    }
  }
}
