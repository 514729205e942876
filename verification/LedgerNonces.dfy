/**
 * Explicit nonces.  Accepting one changes nothing; the stored nonce moves when a debit
 * leaves the account alive.  A record of births, acceptances and moves is kept beside a run.
 */
module LedgerNonces {
  import opened AccountRecord
  import opened Ledger

  datatype Note = Born(id: Id) | Accepted(id: Id, nonce: nat) | Moved(id: Id)

  predicate Explicit(reqNonce: nat) { reqNonce != 0 && reqNonce != CES_NONCELESS }

  /** The amount a debit event takes. */
  predicate Survives(b: Book, id: Id, amount: nat)
  {
    id in b.store && b.store[id].balance > amount
  }

  /** What an event adds to the record. */
  function Noted(b: Book, ev: Event): seq<Note>
  {
    match ev
    case Open(id, _) => [Born(id)]
    case Validate(id, amount, fee, reqNonce, errFee) =>
      if Explicit(reqNonce) && ValidateSpend(b, id, amount, fee, reqNonce, errFee).1 == Ok
      then [Accepted(id, reqNonce)] else []
    case Take(id, amount) => if Survives(b, id, amount) then [Moved(id)] else []
    case TakeFor(id, amount, _, _, _) => if Survives(b, id, amount) then [Moved(id)] else []
    case _ => []
  }

  ghost predicate History(events: seq<Event>, b: Book, notes: seq<Note>)
  {
    if events == [] then b == EMPTY_BOOK && notes == []
    else
      var past, ev := events[..|events| - 1], events[|events| - 1];
      exists prior, before :: History(past, prior, before) && Extends(prior, before, ev, b, notes)
  }

  ghost predicate Extends(prior: Book, before: seq<Note>, ev: Event, b: Book, notes: seq<Note>)
  {
    Leads(prior, ev, b) && notes == before + Noted(prior, ev)
  }

  // ---- Counting moves ----

  /** Debits of `id` it survived, among the notes from `j` up to `k`. */
  function Moves(notes: seq<Note>, j: nat, k: nat, id: Id): nat
    requires j <= k <= |notes|
  {
    if k == j then 0 else Moves(notes, j, k - 1, id) + if notes[k - 1] == Moved(id) then 1 else 0
  }

  ghost predicate NoBirth(notes: seq<Note>, j: nat, k: nat, id: Id)
  {
    forall i :: j <= i < k && i < |notes| ==> notes[i] != Born(id)
  }

  lemma {:induction false} MovesPrefix(notes: seq<Note>, more: seq<Note>, j: nat, k: nat, id: Id)
    requires j <= k <= |notes|
    ensures Moves(notes + more, j, k, id) == Moves(notes, j, k, id)
  {
    if j < k { MovesPrefix(notes, more, j, k - 1, id); }
  }

  lemma {:induction false} MovesNone(notes: seq<Note>, j: nat, k: nat, id: Id)
    requires j <= k <= |notes|
    ensures Moves(notes, j, k, id) > 0 <==> exists i :: j <= i < k && notes[i] == Moved(id)
  {
    if j < k { MovesNone(notes, j, k - 1, id); }
  }

  /** A 32-bit nonce moved `m` times. */
  function Advance(nonce: nat, m: nat): nat
  {
    if m == 0 then nonce else NextNonce(Advance(nonce, m - 1))
  }

  lemma {:induction false} AdvanceBelowWrap(nonce: nat, m: nat)
    requires nonce + m < TWO_32
    ensures Advance(nonce, m) == nonce + m
  {
    if m > 0 { AdvanceBelowWrap(nonce, m - 1); }
  }

  // ---- What every history keeps ----

  /** The note at `j` accepted a nonce for an account that still lives the same life. */
  ghost predicate Current(b: Book, notes: seq<Note>, j: nat)
  {
    j < |notes| && notes[j].Accepted? && notes[j].id in b.store && NoBirth(notes, j, |notes|, notes[j].id)
  }

  /** Its nonce, moved by every debit since, is the one the account will accept next. */
  ghost predicate Tracked(b: Book, notes: seq<Note>)
  {
    forall j :: Current(b, notes, j) ==> TrackedAt(b, notes, j)
  }

  ghost predicate TrackedAt(b: Book, notes: seq<Note>, j: nat)
    requires Current(b, notes, j)
  {
    var a := b.store[notes[j].id];
    a.balance >= 0 && NextNonce(a.nonce) == Advance(notes[j].nonce, Moves(notes, j, |notes|, notes[j].id))
  }

  /** Two acceptances in one life of an account. */
  ghost predicate SameLife(notes: seq<Note>, j: nat, k: nat)
  {
    && j < k < |notes| && notes[j].Accepted? && notes[k].Accepted? && notes[j].id == notes[k].id
    && NoBirth(notes, j, k, notes[k].id)
  }

  ghost predicate Spaced(notes: seq<Note>)
  {
    forall j, k :: SameLife(notes, j, k) ==> SpacedAt(notes, j, k)
  }

  ghost predicate SpacedAt(notes: seq<Note>, j: nat, k: nat)
    requires SameLife(notes, j, k)
  {
    notes[k].nonce == Advance(notes[j].nonce, Moves(notes, j, k, notes[k].id))
  }

  /** How one row changes: it may go; if it stays, its nonce moves by `step` on a spendable balance. */
  ghost predicate RowMoves(b: Book, c: Book, id: Id, step: nat)
  {
    && (forall k :: k in c.store && k != id ==> k in b.store && c.store[k] == b.store[k])
    && (id in c.store ==> id in b.store)
    && (id in c.store && b.store[id].balance >= 0 ==>
          c.store[id].balance >= 0 && c.store[id].nonce == Advance(b.store[id].nonce, step))
  }

  lemma ChargeMoves(b: Book, id: Id, errFee: int)
    requires Rows(b.store) && errFee >= 0
    ensures RowMoves(b, ChargeError(b, id, errFee), id, 0)
  {
  }

  lemma DebitMoves(b: Book, id: Id, amount: nat, receipt: bool, dest: Id, sent: nat, time: nat)
    requires Rows(b.store) && (receipt ==> |dest.prefix| == PREFIX_BYTES)
    ensures RowMoves(b, DebitBy(b, id, amount, receipt, dest, sent, time), id, if Survives(b, id, amount) then 1 else 0)
  {
    if Survives(b, id, amount) {
      DebitedRow(b.store[id], amount, receipt, dest, sent, time);
      assert Advance(b.store[id].nonce, 1) == NextNonce(Advance(b.store[id].nonce, 0));
    }
  }

  lemma CreditMoves(b: Book, id: Id, amount: nat)
    requires Rows(b.store)
    ensures RowMoves(b, Credit(b, id, amount), id, 0)
  {
    if id in b.store { CreditedIs(b.store[id].balance, amount); }
  }

  function MoveCount(more: seq<Note>): nat { if more != [] && more[0].Moved? then 1 else 0 }

  lemma StepMoves(b: Book, ev: Event)
    requires Tallied(b) && Allowed(b, ev) && !ev.Open? && !ev.Snapshot? && !ev.Restart?
    ensures RowMoves(b, Step(b, ev), ev.id, MoveCount(Noted(b, ev)))
  {
    match ev
    case Validate(id, amount, fee, reqNonce, errFee) => ChargeMoves(b, id, errFee);
    case Take(id, amount) => DebitMoves(b, id, amount, false, id, 0, 0);
    case TakeFor(id, amount, dest, sent, time) => DebitMoves(b, id, amount, true, dest, sent, time);
    case Deposit(id, amount) => CreditMoves(b, id, amount);
    case Charge(id, errFee) => ChargeMoves(b, id, errFee);
    case Settle(id, amount) =>
    case Relabel(id, alias) =>
  }

  /** An accepted nonce is the next one of a spendable account, and accepting it changes nothing. */
  lemma AcceptedIsNext(b: Book, ev: Event)
    requires Tallied(b) && Allowed(b, ev) && ev.Validate? && Noted(b, ev) != []
    ensures Step(b, ev) == b && ev.id in b.store && b.store[ev.id].balance >= 0
    ensures ev.reqNonce == NextNonce(b.store[ev.id].nonce)
  {
    ValidateKeeps(b, ev.id, ev.amount, ev.fee, ev.reqNonce, ev.errFee);
  }

  /** A note about one account leaves earlier acceptances current, unless it is a birth of theirs. */
  lemma StillCurrent(b: Book, c: Book, notes: seq<Note>, n: Note, j: nat)
    requires Current(c, notes + [n], j) && j < |notes| && notes[j].id in b.store
    ensures Current(b, notes, j) && n != Born(notes[j].id)
    ensures Moves(notes + [n], j, |notes| + 1, notes[j].id)
            == Moves(notes, j, |notes|, notes[j].id) + if n == Moved(notes[j].id) then 1 else 0
  {
    var all, id := notes + [n], notes[j].id;
    assert all[|notes|] == n && all[j] == notes[j];
    forall i | j <= i < |notes|
      ensures notes[i] != Born(id)
    {
      assert all[i] == notes[i];
    }
    MovesPrefix(notes, [n], j, |notes|, id);
  }

  lemma QuietTracked(b: Book, c: Book, notes: seq<Note>, id: Id)
    requires Tracked(b, notes) && RowMoves(b, c, id, 0)
    ensures Tracked(c, notes)
  {
    forall j: nat | Current(c, notes, j)
      ensures TrackedAt(c, notes, j)
    {
      assert Current(b, notes, j) && TrackedAt(b, notes, j);
    }
  }

  lemma MovedTracked(b: Book, c: Book, notes: seq<Note>, id: Id)
    requires Tracked(b, notes) && RowMoves(b, c, id, 1)
    ensures Tracked(c, notes + [Moved(id)])
  {
    var all := notes + [Moved(id)];
    forall j: nat | Current(c, all, j)
      ensures TrackedAt(c, all, j)
    {
      StillCurrent(b, c, notes, Moved(id), j);
      assert TrackedAt(b, notes, j);
      if notes[j].id == id { assert Advance(b.store[id].nonce, 1) == NextNonce(Advance(b.store[id].nonce, 0)); }
    }
  }

  lemma BornTracked(b: Book, c: Book, notes: seq<Note>, id: Id)
    requires Tracked(b, notes) && id !in b.store
    requires forall k :: k in c.store && k != id ==> k in b.store && c.store[k] == b.store[k]
    ensures Tracked(c, notes + [Born(id)])
  {
    var all := notes + [Born(id)];
    forall j: nat | Current(c, all, j)
      ensures TrackedAt(c, all, j)
    {
      assert all[|notes|] == Born(id);
      StillCurrent(b, c, notes, Born(id), j);
      assert TrackedAt(b, notes, j);
    }
  }

  lemma AcceptedTracked(b: Book, notes: seq<Note>, id: Id, nonce: nat)
    requires Tracked(b, notes) && id in b.store && b.store[id].balance >= 0 && nonce == NextNonce(b.store[id].nonce)
    ensures Tracked(b, notes + [Accepted(id, nonce)])
  {
    var all := notes + [Accepted(id, nonce)];
    forall j: nat | Current(b, all, j)
      ensures TrackedAt(b, all, j)
    {
      if j < |notes| {
        StillCurrent(b, b, notes, Accepted(id, nonce), j);
        assert TrackedAt(b, notes, j);
      } else {
        assert all[j] == Accepted(id, nonce) && Moves(all, j, j, id) == 0;
      }
    }
  }

  lemma SpacedPrefix(notes: seq<Note>, n: Note, j: nat, k: nat)
    requires Spaced(notes) && SameLife(notes + [n], j, k) && k < |notes|
    ensures SpacedAt(notes + [n], j, k)
  {
    var all := notes + [n];
    forall i | j <= i < k
      ensures notes[i] != Born(notes[k].id)
    {
      assert all[i] == notes[i];
    }
    assert SameLife(notes, j, k) && SpacedAt(notes, j, k);
    MovesPrefix(notes, [n], j, k, notes[k].id);
  }

  lemma OtherSpaced(notes: seq<Note>, n: Note)
    requires Spaced(notes) && !n.Accepted?
    ensures Spaced(notes + [n])
  {
    forall j: nat, k: nat | SameLife(notes + [n], j, k)
      ensures SpacedAt(notes + [n], j, k)
    {
      SpacedPrefix(notes, n, j, k);
    }
  }

  lemma AcceptedSpaced(b: Book, notes: seq<Note>, id: Id, nonce: nat)
    requires Spaced(notes) && Tracked(b, notes) && id in b.store && nonce == NextNonce(b.store[id].nonce)
    ensures Spaced(notes + [Accepted(id, nonce)])
  {
    var n := Accepted(id, nonce);
    var all := notes + [n];
    forall j: nat, k: nat | SameLife(all, j, k)
      ensures SpacedAt(all, j, k)
    {
      if k < |notes| {
        SpacedPrefix(notes, n, j, k);
      } else {
        forall i | j <= i < |notes|
          ensures notes[i] != Born(id)
        {
          assert all[i] == notes[i];
        }
        assert all[j] == notes[j];
        assert Current(b, notes, j) && TrackedAt(b, notes, j);
        MovesPrefix(notes, [n], j, |notes|, id);
      }
    }
  }

  lemma StepTracked(b: Book, ev: Event, notes: seq<Note>)
    requires Tallied(b) && Allowed(b, ev) && Tracked(b, notes) && Spaced(notes)
    requires ev.Restart? ==> Step(b, ev).store == b.store
    ensures Tracked(Step(b, ev), notes + Noted(b, ev)) && Spaced(notes + Noted(b, ev))
  {
    var c, more := Step(b, ev), Noted(b, ev);
    if ev.Open? {
      BornTracked(b, c, notes, ev.id);
      OtherSpaced(notes, Born(ev.id));
    } else if ev.Validate? && more != [] {
      AcceptedIsNext(b, ev);
      AcceptedTracked(b, notes, ev.id, ev.reqNonce);
      AcceptedSpaced(b, notes, ev.id, ev.reqNonce);
    } else if more != [] {
      StepMoves(b, ev);
      MovedTracked(b, c, notes, ev.id);
      OtherSpaced(notes, Moved(ev.id));
    } else {
      assert notes + more == notes;
      QuietStep(b, ev, notes);
    }
  }

  lemma QuietStep(b: Book, ev: Event, notes: seq<Note>)
    requires Tallied(b) && Allowed(b, ev) && Tracked(b, notes) && Noted(b, ev) == []
    requires ev.Restart? ==> Step(b, ev).store == b.store
    ensures Tracked(Step(b, ev), notes)
  {
    if ev.Snapshot? || ev.Restart? {
      forall j: nat | Current(Step(b, ev), notes, j)
        ensures TrackedAt(Step(b, ev), notes, j)
      {
        assert Current(b, notes, j) && TrackedAt(b, notes, j);
      }
    } else {
      StepMoves(b, ev);
      QuietTracked(b, Step(b, ev), notes, ev.id);
    }
  }

  /** In every history each acceptance is behind the account's next nonce by the debits it survived since. */
  lemma {:induction false} HistorySound(events: seq<Event>, b: Book, notes: seq<Note>)
    requires History(events, b, notes)
    ensures Sound(b) && Tracked(b, notes) && Spaced(notes)
  {
    if events != [] {
      var past, ev := events[..|events| - 1], events[|events| - 1];
      var prior, before :| History(past, prior, before) && Extends(prior, before, ev, b, notes);
      HistorySound(past, prior, before);
      StepSound(prior, ev);
      if ev.Restart? { ReadIsReplay(prior.snapshot, prior.log); }
      StepTracked(prior, ev, before);
    }
  }

  /**
   * Two explicit nonces accepted in one life of an account differ, modulo 2^32, by exactly
   * the debits between them that the account survived.
   */
  lemma NoncesCountDebits(events: seq<Event>, b: Book, notes: seq<Note>, j: nat, k: nat)
    requires History(events, b, notes) && SameLife(notes, j, k)
    ensures notes[k].nonce == Advance(notes[j].nonce, Moves(notes, j, k, notes[k].id))
  {
    HistorySound(events, b, notes);
    assert SpacedAt(notes, j, k);
  }

  /** So below the wrap they never decrease, and increase exactly when such a debit lies between them. */
  lemma NoncesIncrease(events: seq<Event>, b: Book, notes: seq<Note>, j: nat, k: nat)
    requires History(events, b, notes) && SameLife(notes, j, k)
    requires notes[j].nonce + Moves(notes, j, k, notes[k].id) < TWO_32
    ensures notes[j].nonce <= notes[k].nonce
    ensures notes[j].nonce < notes[k].nonce <==> exists i :: j < i < k && notes[i] == Moved(notes[k].id)
  {
    NoncesCountDebits(events, b, notes, j, k);
    AdvanceBelowWrap(notes[j].nonce, Moves(notes, j, k, notes[k].id));
    MovesNone(notes, j, k, notes[k].id);
    assert notes[j] != Moved(notes[k].id);
  }

  /** A spend that is validated and then refused for another reason. */
  function RefusedThenRetried(id: Id, a: Account): seq<Event>
  {
    [Open(id, a), Validate(id, 10, 1, 1, 1)] + [Charge(id, 1)] + [Validate(id, 10, 1, 1, 1)]
  }

  lemma HistorySnoc(past: seq<Event>, prior: Book, before: seq<Note>, ev: Event, b: Book, more: seq<Note>)
    requires History(past, prior, before) && Leads(prior, ev, b) && Noted(prior, ev) == more
    ensures History(past + [ev], b, before + more)
  {
    var all := past + [ev];
    assert all[..|all| - 1] == past && all[|all| - 1] == ev;
    assert History(all[..|all| - 1], prior, before) && Extends(prior, before, all[|all| - 1], b, before + more);
  }

  /** A covered spend with the next nonce is accepted and changes nothing. */
  lemma AcceptsNext(b: Book, id: Id)
    requires Rows(b.store) && id in b.store && b.store[id].balance >= 11 && b.store[id].nonce == 0
    ensures Leads(b, Validate(id, 10, 1, 1, 1), b) && Noted(b, Validate(id, 10, 1, 1, 1)) == [Accepted(id, 1)]
  {
  }

  /** The first half: opened, and the nonce accepted once. */
  lemma AcceptedOnce(id: Id, a: Account)
    requires Fits(a) && a.balance >= 20 && a.nonce == 0
    ensures var first := Create(EMPTY_BOOK, id, a);
      History([Open(id, a), Validate(id, 10, 1, 1, 1)], first, [Born(id), Accepted(id, 1)])
  {
    var first := Create(EMPTY_BOOK, id, a);
    var one, two := Open(id, a), Validate(id, 10, 1, 1, 1);
    HistorySnoc([], EMPTY_BOOK, [], one, first, [Born(id)]);
    assert [] + [one] == [one] && [] + [Born(id)] == [Born(id)];
    AcceptsNext(first, id);
    HistorySnoc([one], first, [Born(id)], two, first, [Accepted(id, 1)]);
    assert [one] + [two] == [one, two] && [Born(id)] + [Accepted(id, 1)] == [Born(id), Accepted(id, 1)];
  }

  /** Charged for the refusal, the account accepts the nonce again. */
  lemma AcceptedAgain(past: seq<Event>, first: Book, notes: seq<Note>, id: Id)
    requires History(past, first, notes) && Rows(first.store) && id in first.store
    requires first.store[id].balance >= 20 && first.store[id].nonce == 0
    ensures History(past + [Charge(id, 1)] + [Validate(id, 10, 1, 1, 1)], ChargeError(first, id, 1),
        notes + [Accepted(id, 1)])
  {
    var b := ChargeError(first, id, 1);
    HistorySnoc(past, first, notes, Charge(id, 1), b, []);
    assert notes + [] == notes;
    AcceptsNext(b, id);
    HistorySnoc(past + [Charge(id, 1)], b, notes, Validate(id, 10, 1, 1, 1), b, [Accepted(id, 1)]);
  }

  /** Without a debit in between, one explicit nonce is accepted twice. */
  lemma SameNonceTwice(id: Id, a: Account) returns (b: Book)
    requires Fits(a) && a.balance >= 20 && a.nonce == 0
    ensures History(RefusedThenRetried(id, a), b, [Born(id), Accepted(id, 1)] + [Accepted(id, 1)])
  {
    var first := Create(EMPTY_BOOK, id, a);
    b := ChargeError(first, id, 1);
    AcceptedOnce(id, a);
    AcceptedAgain([Open(id, a), Validate(id, 10, 1, 1, 1)], first, [Born(id), Accepted(id, 1)], id);
  }
}
