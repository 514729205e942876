/** The account store itself: in-place updates with a journal, each proved to be one ledger step. */
module AccountsStore {
  import opened AccountRecord
  import opened Ledger

  class Accounts {
    var store: map<Id, Account>
    var totalCredits: int
    var snapshot: map<Id, Account>
    var log: seq<Entry>

    ghost function View(): Book
      reads this
    {
      Book(store, totalCredits, snapshot, log)
    }

    ghost predicate Valid()
      reads this
    {
      Sound(View())
    }

    /** Loads from disk and adds up the positive balances, in whatever order the map yields them. */
    constructor (snapshot: map<Id, Account>, log: seq<Entry>)
      requires Filed(snapshot, log) && Rows(Load(Book(map[], 0, snapshot, log)))
      ensures View() == Book(Load(Book(map[], 0, snapshot, log)), totalCredits, snapshot, log) && Valid()
    {
      this.snapshot := snapshot;
      this.log := log;
      var rows := Load(Book(map[], 0, snapshot, log));
      store := rows;
      totalCredits := 0;
      new;
      var total := SumPositive(rows);
      totalCredits := total;
      ReadIsReplay(snapshot, log);
    }

    static method SumPositive(rows: map<Id, Account>) returns (total: nat)
      ensures total == Credits(rows)
    {
      total := 0;
      var left := rows.Keys;
      while left != {}
        invariant left <= rows.Keys
        invariant total + CreditsOver(rows, left) == Credits(rows)
        decreases |left|
      {
        var id :| id in left;
        CreditsPick(rows, left, id);
        if rows[id].balance > 0 {
          total := total + rows[id].balance;
        }
        left := left - {id};
      }
    }

    // ---- Journaled store ----

    method PersistRow(id: Id, row: Account, mode: SerMode)
      modifies this`store, this`log
      ensures View() == Persist(old(View()), id, row, mode)
    {
      store := store[id := row];
      log := log + [Entry(id, mode, row)];
    }

    method EraseRow(id: Id)
      modifies this`store, this`log
      ensures View() == Erase(old(View()), id)
    {
      store := store - {id};
      log := log + [Entry(id, Erased, NewAccount())];
    }

    // ---- Updates ----

    method DoDebit(id: Id, totalAmount: nat)
      modifies this
      ensures View() == Debit(old(View()), id, totalAmount)
    {
      if id !in store {
        return;
      }
      var row := store[id];
      var delta := AsInt64(totalAmount);
      var newBal := row.balance - delta;
      if newBal <= 0 {
        totalCredits := totalCredits - Max0(row.balance);
        EraseRow(id);
      } else {
        totalCredits := totalCredits - delta;
        PersistRow(id, row.(balance := Stored(newBal), nonce := NextNonce(row.nonce)), BalanceNonce);
      }
    }

    method DoDebitTransfer(id: Id, totalAmount: nat, dest: Id, sent: nat, time: nat)
      modifies this
      ensures View() == DebitTransfer(old(View()), id, totalAmount, dest, sent, time)
    {
      if id !in store {
        return;
      }
      var row := store[id];
      var delta := AsInt64(totalAmount);
      var newBal := row.balance - delta;
      if newBal <= 0 {
        totalCredits := totalCredits - Max0(row.balance);
        EraseRow(id);
      } else {
        totalCredits := totalCredits - delta;
        row := row.(balance := Stored(newBal), nonce := NextNonce(row.nonce));
        row := row.(lastXferDest := dest.prefix, lastXferAmount := Low48(sent), lastXferTime := time % TWO_32);
        PersistRow(id, row, Transfer);
      }
    }

    method DoCredit(id: Id, amount: nat)
      requires id in store ==> Fits(store[id])
      modifies this
      ensures View() == Credit(old(View()), id, amount)
    {
      if id !in store {
        return;
      }
      var row := store[id];
      var newBal := if BALANCE_MAX - row.balance >= amount then row.balance + amount else BALANCE_MAX;
      totalCredits := totalCredits + (newBal - row.balance);
      PersistRow(id, row.(balance := newBal), BalanceNonce);
    }

    method DoChargeError(id: Id, errFee: int)
      requires errFee >= 0 && (id in store ==> Fits(store[id]))
      modifies this
      ensures View() == ChargeError(old(View()), id, errFee)
    {
      if id !in store || store[id].balance < 0 {
        return;
      }
      var row := store[id];
      var rest := row.balance - errFee;
      if rest <= 0 {
        totalCredits := totalCredits - Max0(row.balance);
        EraseRow(id);
      } else {
        totalCredits := totalCredits - errFee;
        PersistRow(id, row.(balance := rest), BalanceNonce);
      }
    }

    method DoCreate(id: Id, row: Account)
      modifies this
      ensures View() == Create(old(View()), id, row)
    {
      PersistRow(id, row, Full);
      if row.balance > 0 {
        totalCredits := totalCredits + row.balance;
      }
    }

    method DoSettle(id: Id, amount: nat)
      requires amount <= BALANCE_MAX
      modifies this
      ensures View() == SettlePayment(old(View()), id, amount)
    {
      if id !in store {
        return;
      }
      totalCredits := totalCredits + amount;
      PersistRow(id, store[id].(balance := amount, nonce := 0), BalanceNonce);
    }

    // ---- Operations ----

    method CreateAccount(id: Id, row: Account)
      requires Valid() && id !in store && Fits(row) && !IsEmpty(row)
      modifies this
      ensures Valid() && View() == Create(old(View()), id, row)
    {
      StepSound(View(), Open(id, row));
      DoCreate(id, row);
    }

    method DebitAccount(id: Id, totalAmount: nat)
      requires Valid() && totalAmount < TWO_64
      modifies this
      ensures View() == Debit(old(View()), id, totalAmount) && (totalAmount < TWO_63 ==> Valid())
      ensures id in old(store) ==> (TotalRight(View()) <==> DebitFits(old(store)[id], totalAmount))
    {
      if totalAmount < TWO_63 { StepSound(View(), Take(id, totalAmount)); }
      if id in store { DebitTotal(View(), id, totalAmount); }
      DoDebit(id, totalAmount);
    }

    method DebitForTransfer(id: Id, totalAmount: nat, dest: Id, sent: nat, time: nat)
      requires Valid() && totalAmount < TWO_64 && |dest.prefix| == PREFIX_BYTES
      modifies this
      ensures View() == DebitTransfer(old(View()), id, totalAmount, dest, sent, time)
      ensures totalAmount < TWO_63 ==> Valid()
      ensures id in old(store) ==> (TotalRight(View()) <==> DebitFits(old(store)[id], totalAmount))
    {
      if totalAmount < TWO_63 { StepSound(View(), TakeFor(id, totalAmount, dest, sent, time)); }
      if id in store {
        DebitTotal(View(), id, totalAmount);
        SameTotal(View(), id, totalAmount, dest, sent, time);
      }
      DoDebitTransfer(id, totalAmount, dest, sent, time);
    }

    method CreditAccount(id: Id, amount: nat)
      requires Valid() && (id in store ==> store[id].balance >= 0)
      modifies this
      ensures Valid() && View() == Credit(old(View()), id, amount)
    {
      StepSound(View(), Deposit(id, amount));
      DoCredit(id, amount);
    }

    method Settlement(id: Id, amount: nat)
      requires Valid() && amount <= BALANCE_MAX && (id in store ==> Settles(store[id], amount))
      modifies this
      ensures Valid() && View() == SettlePayment(old(View()), id, amount)
    {
      StepSound(View(), Settle(id, amount));
      DoSettle(id, amount);
    }

    method ErrorFee(id: Id, errFee: int)
      requires Valid() && errFee >= 0
      modifies this
      ensures Valid() && View() == ChargeError(old(View()), id, errFee)
    {
      StepSound(View(), Charge(id, errFee));
      DoChargeError(id, errFee);
    }

    /** The alias is rewritten with a full record. */
    method SetAliasId(id: Id, alias: nat)
      requires Valid() && alias < TWO_32
      modifies this
      ensures Valid() && View() == SetAlias(old(View()), id, alias)
    {
      StepSound(View(), Relabel(id, alias));
      if id in store { PersistRow(id, store[id].(aliasId := alias), Full); }
    }

    method Validate(id: Id, amount: nat, fee: nat, reqNonce: nat, errFee: int) returns (code: Code)
      requires Valid() && errFee >= 0
      modifies this
      ensures Valid() && (View(), code) == ValidateSpend(old(View()), id, amount, fee, reqNonce, errFee)
    {
      if id !in store {
        return OriginNotFound;
      }
      var row := store[id];
      if amount + fee >= TWO_64 || row.balance < 0 || row.balance < amount + fee {
        ErrorFee(id, errFee);
        return InsufficientBalance;
      }
      if reqNonce != 0 && reqNonce != CES_NONCELESS && reqNonce != NextNonce(row.nonce) {
        ErrorFee(id, errFee);
        return WrongNonce;
      }
      return Code.Ok;
    }
  }
}
