/** Prepaid days: the bounded loop with a flat tail, in machine widths, against the plain sum over days. */
module Prepay {

  const WINDOW := 90
  const FULL := 10000
  const TWO_32 := 0x1_0000_0000
  const TWO_64 := 0x1_0000_0000_0000_0000

  // ---- The price of one day, and of many ----

  /** The multiplier of a day `d` days ahead: `bp` today, full price from the window on. */
  function Effective(bp: nat, d: nat): (e: nat)
    ensures e <= FULL
  {
    if bp >= FULL || d >= WINDOW then FULL else
      DeficitBound(FULL - bp, WINDOW - d);
      FULL - (FULL - bp) * (WINDOW - d) / WINDOW
  }

  lemma DeficitBound(deficit: nat, gap: nat)
    requires gap <= WINDOW
    ensures 0 <= deficit * gap / WINDOW <= deficit
  {
    assert deficit * gap <= deficit * WINDOW;
  }

  function DayPrice(fee: nat, bp: nat, d: nat): nat
  {
    fee * Effective(bp, d) / FULL
  }

  /** The days `held + 1` to `held + n`, each at its own price. */
  function SumOf(price: nat -> nat, n: nat, held: nat): nat
  {
    if n == 0 then 0 else SumOf(price, n - 1, held) + price(held + n)
  }

  function Prices(fee: nat, bp: nat): nat -> nat
  {
    d => DayPrice(fee, bp, d)
  }

  function Sum(fee: nat, bp: nat, added: nat, held: nat): nat
  {
    SumOf(Prices(fee, bp), added, held)
  }

  // ---- The code ----

  function Wrap32(x: nat): nat { if x < TWO_32 then x else x % TWO_32 }

  function Wrap64(x: nat): nat { if x < TWO_64 then x else x % TWO_64 }

  /** A 64-bit product. */
  function Product64(a: nat, b: nat): nat { Wrap64(a * b) }

  function CodeDay(fee: nat, bp: nat, d: nat): nat
  {
    Wrap64(fee * Effective(bp, Wrap32(d))) / FULL
  }

  function CodePrices(fee: nat, bp: nat): nat -> nat
  {
    d => CodeDay(fee, bp, d)
  }

  function LoopOf(price: nat -> nat, n: nat, held: nat): nat
  {
    if n == 0 then 0 else Wrap64(LoopOf(price, n - 1, held) + price(held + n))
  }

  function CodeLoop(fee: nat, bp: nat, n: nat, held: nat): nat
  {
    LoopOf(CodePrices(fee, bp), n, held)
  }

  function InWindow(added: nat): nat { if added < WINDOW then added else WINDOW }

  function Cost(fee: nat, bp: nat, added: nat, held: nat): nat
  {
    if added == 0 || fee == 0 then 0
    else if bp >= FULL then Product64(added, fee)
    else Wrap64(CodeLoop(fee, bp, InWindow(added), held) + Product64(added - InWindow(added), fee))
  }

  method ComputePrepayCost(fee: nat, bp: nat, added: nat, held: nat) returns (total: nat)
    requires fee < TWO_64 && bp < 0x1_0000 && added < TWO_32 && held < TWO_32
    ensures total == Cost(fee, bp, added, held)
  {
    if added == 0 || fee == 0 { return 0; }
    if bp >= FULL { return Product64(added, fee); }
    var inWindow := if added < WINDOW then added else WINDOW;
    total := WindowCost(fee, bp, inWindow, held);
    total := Wrap64(total + Product64(added - inWindow, fee));
  }

  /** The loop over the days of the window. */
  method WindowCost(fee: nat, bp: nat, inWindow: nat, held: nat) returns (total: nat)
    requires bp < FULL
    ensures total == CodeLoop(fee, bp, inWindow, held)
  {
    total := 0;
    var i := 1;
    while i <= inWindow
      invariant 1 <= i <= inWindow + 1 && total == CodeLoop(fee, bp, i - 1, held)
    {
      var today := OneDay(fee, bp, held + i);
      CodeLoopNext(fee, bp, i, held);
      total := Wrap64(total + today);
      i := i + 1;
    }
  }

  lemma CodeLoopNext(fee: nat, bp: nat, i: nat, held: nat)
    requires i > 0
    ensures CodeLoop(fee, bp, i, held) == Wrap64(CodeLoop(fee, bp, i - 1, held) + CodePrices(fee, bp)(held + i))
  {
  }

  method OneDay(fee: nat, bp: nat, day: nat) returns (price: nat)
    requires bp < FULL
    ensures price == CodePrices(fee, bp)(day)
  {
    var d := Wrap32(day);
    var effBp := FULL;
    if d < WINDOW {
      var deficit, windowGap := FULL - bp, WINDOW - d;
      DeficitBound(deficit, windowGap);
      effBp := FULL - deficit * windowGap / WINDOW;
    }
    price := Wrap64(fee * effBp) / FULL;
  }

  // ---- Laws of one day ----

  lemma MulLe(a: nat, b: nat, k: nat)
    requires a <= b
    ensures k * a <= k * b
  {
  }

  lemma DivLe(a: nat, b: nat)
    requires a <= b
    ensures a / FULL <= b / FULL && a / WINDOW <= b / WINDOW
  {
  }

  lemma Cancel(k: nat, p: nat, r: nat)
    requires k * p < k * r
    ensures p < r
  {
    if p >= r { MulLe(r, p, k); }
  }

  lemma FullPrice(fee: nat, bp: nat, d: nat)
    requires bp >= FULL || d >= WINDOW
    ensures DayPrice(fee, bp, d) == fee
  {
  }

  lemma EffectiveAtLeast(bp: nat, d: nat)
    requires bp <= FULL
    ensures Effective(bp, d) >= bp
  {
    if bp < FULL && d < WINDOW { DeficitBound(FULL - bp, WINDOW - d); }
  }

  lemma EffectiveMonotone(bp: nat, bq: nat, d: nat, e: nat)
    requires bp <= bq && d <= e
    ensures Effective(bp, d) <= Effective(bq, e)
  {
    if bq < FULL && e < WINDOW {
      MulLe(WINDOW - e, WINDOW - d, FULL - bq);
      MulLe(FULL - bq, FULL - bp, WINDOW - d);
      DivLe((FULL - bq) * (WINDOW - e), (FULL - bp) * (WINDOW - d));
    }
  }

  lemma PriceMonotone(fee: nat, e: nat, f: nat)
    requires e <= f
    ensures fee * e / FULL <= fee * f / FULL
  {
    MulLe(e, f, fee);
    DivLe(fee * e, fee * f);
  }

  lemma DayBounds(fee: nat, bp: nat, d: nat)
    ensures DayPrice(fee, bp, d) <= fee
    ensures bp <= FULL ==> fee * bp / FULL <= DayPrice(fee, bp, d)
  {
    PriceMonotone(fee, Effective(bp, d), FULL);
    if bp <= FULL {
      EffectiveAtLeast(bp, d);
      PriceMonotone(fee, bp, Effective(bp, d));
    }
  }

  lemma DayMonotone(fee: nat, bp: nat, bq: nat, d: nat, e: nat)
    requires bp <= bq && d <= e
    ensures DayPrice(fee, bp, d) <= DayPrice(fee, bq, e)
  {
    EffectiveMonotone(bp, bq, d, e);
    PriceMonotone(fee, Effective(bp, d), Effective(bq, e));
  }

  lemma LessThanWhole(fee: nat, bp: nat)
    requires fee > 0 && bp < FULL
    ensures fee * bp / FULL < fee
  {
    MulLe(bp, FULL - 1, fee);
    Cancel(FULL, fee * bp / FULL, fee);
  }

  lemma TodayIsCheaper(fee: nat, bp: nat)
    requires fee > 0 && bp < FULL
    ensures DayPrice(fee, bp, 0) < fee
  {
    assert Effective(bp, 0) == bp;
    LessThanWhole(fee, bp);
  }

  // ---- Laws of a sum of any prices ----

  lemma {:induction false} SplitSumOf(price: nat -> nat, a: nat, b: nat, held: nat)
    ensures SumOf(price, a + b, held) == SumOf(price, a, held) + SumOf(price, b, held + a)
  {
    if b > 0 {
      SplitSumOf(price, a, b - 1, held);
      assert held + (a + b) == held + a + b;
    }
  }

  function At(price: nat -> nat, held: nat, i: nat): nat { price(held + i) }

  ghost predicate Below(p: nat -> nat, q: nat -> nat, n: nat, held: nat, later: nat)
  {
    forall i :: 1 <= i <= n ==> At(p, held, i) <= At(q, later, i)
  }

  ghost predicate Between(p: nat -> nat, n: nat, held: nat, lo: nat, hi: nat)
  {
    forall i :: 1 <= i <= n ==> lo <= At(p, held, i) <= hi
  }

  lemma {:induction false} SumsBelow(p: nat -> nat, q: nat -> nat, n: nat, held: nat, later: nat)
    requires Below(p, q, n, held, later)
    ensures SumOf(p, n, held) <= SumOf(q, n, later)
  {
    if n > 0 {
      SumsBelow(p, q, n - 1, held, later);
      assert At(p, held, n) <= At(q, later, n);
    }
  }

  lemma {:induction false} SumsStrictlyBelow(p: nat -> nat, q: nat -> nat, n: nat, held: nat, i: nat)
    requires Below(p, q, n, held, held) && 1 <= i <= n && At(p, held, i) < At(q, held, i)
    ensures SumOf(p, n, held) < SumOf(q, n, held)
  {
    assert At(p, held, n) <= At(q, held, n);
    if i == n {
      SumsBelow(p, q, n - 1, held, held);
    } else {
      SumsStrictlyBelow(p, q, n - 1, held, i);
    }
  }

  lemma {:induction false} SumBetween(p: nat -> nat, n: nat, held: nat, lo: nat, hi: nat)
    requires Between(p, n, held, lo, hi)
    ensures n * lo <= SumOf(p, n, held) <= n * hi
  {
    if n > 0 {
      SumBetween(p, n - 1, held, lo, hi);
      assert lo <= At(p, held, n) <= hi;
      Last(n, lo);
      Last(n, hi);
    }
  }

  lemma Last(n: nat, k: nat)
    requires n > 0
    ensures n * k == (n - 1) * k + k
  {
  }

  lemma {:induction false} LoopIsSumOf(price: nat -> nat, n: nat, held: nat, top: nat)
    requires Between(price, n, held, 0, top) && n * top < TWO_64
    ensures LoopOf(price, n, held) == SumOf(price, n, held)
  {
    if n > 0 {
      Last(n, top);
      LoopIsSumOf(price, n - 1, held, top);
      SumBetween(price, n, held, 0, top);
    }
  }

  // ---- Laws of the prepaid price ----

  /** Funding in two steps costs what funding at once does. */
  lemma SplitSum(fee: nat, bp: nat, a: nat, b: nat, held: nat)
    ensures Sum(fee, bp, a + b, held) == Sum(fee, bp, a, held) + Sum(fee, bp, b, held + a)
  {
    SplitSumOf(Prices(fee, bp), a, b, held);
  }

  lemma PricesBetween(fee: nat, bp: nat, n: nat, held: nat)
    requires bp <= FULL
    ensures Between(Prices(fee, bp), n, held, fee * bp / FULL, fee)
  {
    forall i | 1 <= i <= n
      ensures fee * bp / FULL <= At(Prices(fee, bp), held, i) <= fee
    {
      DayBounds(fee, bp, held + i);
    }
  }

  /** Between the fully discounted and the flat price. */
  lemma SumBounds(fee: nat, bp: nat, n: nat, held: nat)
    requires bp <= FULL
    ensures n * (fee * bp / FULL) <= Sum(fee, bp, n, held) <= n * fee
  {
    PricesBetween(fee, bp, n, held);
    SumBetween(Prices(fee, bp), n, held, fee * bp / FULL, fee);
  }

  lemma FlatSum(fee: nat, bp: nat, n: nat, held: nat)
    requires bp >= FULL || held + 1 >= WINDOW
    ensures Sum(fee, bp, n, held) == n * fee
  {
    forall i | 1 <= i <= n
      ensures At(Prices(fee, bp), held, i) == fee
    {
      FullPrice(fee, bp, held + i);
    }
    SumBetween(Prices(fee, bp), n, held, fee, fee);
  }

  lemma PricesBelow(fee: nat, bp: nat, bq: nat, n: nat, held: nat, later: nat)
    requires bp <= bq && held <= later
    ensures Below(Prices(fee, bp), Prices(fee, bq), n, held, later)
  {
    forall i | 1 <= i <= n
      ensures At(Prices(fee, bp), held, i) <= At(Prices(fee, bq), later, i)
    {
      PriceBelow(fee, bp, bq, held, later, i);
    }
  }

  lemma PriceBelow(fee: nat, bp: nat, bq: nat, held: nat, later: nat, i: nat)
    requires bp <= bq && held <= later
    ensures At(Prices(fee, bp), held, i) <= At(Prices(fee, bq), later, i)
  {
    DayMonotone(fee, bp, bq, held + i, later + i);
  }

  /** A higher multiplier, or days already held, never make the same days cheaper. */
  lemma SumMonotone(fee: nat, bp: nat, bq: nat, n: nat, held: nat, later: nat)
    requires bp <= bq && held <= later
    ensures Sum(fee, bp, n, held) <= Sum(fee, bq, n, later)
  {
    PricesBelow(fee, bp, bq, n, held, later);
    SumsBelow(Prices(fee, bp), Prices(fee, bq), n, held, later);
  }

  // ---- When the code computes the sum ----

  /** Fees and day counts for which no 64-bit intermediate can wrap. */
  predicate FeesFit(fee: nat, added: nat)
  {
    fee * FULL < TWO_64 && added * fee < TWO_64
  }

  /** The 32-bit day number stays below 2^32, or does not matter. */
  predicate DaysFit(fee: nat, bp: nat, added: nat, held: nat)
  {
    fee == 0 || bp >= FULL || held + InWindow(added) < TWO_32
  }

  lemma CodeDayFits(fee: nat, bp: nat, d: nat)
    requires fee * FULL < TWO_64
    ensures CodePrices(fee, bp)(d) == DayPrice(fee, bp, Wrap32(d)) <= fee
  {
    MulLe(Effective(bp, Wrap32(d)), FULL, fee);
    DayBounds(fee, bp, Wrap32(d));
  }

  lemma CodePricesBetween(fee: nat, bp: nat, n: nat, held: nat)
    requires fee * FULL < TWO_64
    ensures Between(CodePrices(fee, bp), n, held, 0, fee)
  {
    forall i | 1 <= i <= n
      ensures 0 <= At(CodePrices(fee, bp), held, i) <= fee
    {
      CodeDayFits(fee, bp, held + i);
    }
  }

  lemma CostFits(fee: nat, bp: nat, added: nat, held: nat)
    requires FeesFit(fee, added) && bp < FULL && fee > 0
    ensures Cost(fee, bp, added, held)
            == SumOf(CodePrices(fee, bp), InWindow(added), held) + (added - InWindow(added)) * fee
  {
    var n := InWindow(added);
    Split(n, added - n, fee);
    CodePricesBetween(fee, bp, n, held);
    LoopIsSumOf(CodePrices(fee, bp), n, held, fee);
    SumBetween(CodePrices(fee, bp), n, held, 0, fee);
  }

  lemma Split(a: nat, b: nat, k: nat)
    ensures (a + b) * k == a * k + b * k && a * k >= 0 && b * k >= 0
  {
  }

  lemma SumTail(fee: nat, bp: nat, added: nat, held: nat)
    ensures Sum(fee, bp, added, held)
            == Sum(fee, bp, InWindow(added), held) + (added - InWindow(added)) * fee
  {
    var n := InWindow(added);
    SplitSum(fee, bp, n, added - n, held);
    if added > n { FlatSum(fee, bp, added - n, held + n); }
  }

  lemma CodeAgainstPlain(fee: nat, bp: nat, held: nat, i: nat)
    requires fee * FULL < TWO_64
    ensures At(CodePrices(fee, bp), held, i) <= At(Prices(fee, bp), held, i)
    ensures held + i < TWO_32 ==> At(CodePrices(fee, bp), held, i) == At(Prices(fee, bp), held, i)
    ensures held + i == TWO_32 && fee > 0 && bp < FULL
            ==> At(CodePrices(fee, bp), held, i) < At(Prices(fee, bp), held, i)
  {
    CodeDayFits(fee, bp, held + i);
    if held + i >= TWO_32 { FullPrice(fee, bp, held + i); }
    if fee > 0 && bp < FULL { TodayIsCheaper(fee, bp); }
  }

  lemma CodeBelowPlain(fee: nat, bp: nat, n: nat, held: nat)
    requires fee * FULL < TWO_64
    ensures Below(CodePrices(fee, bp), Prices(fee, bp), n, held, held)
    ensures held + n < TWO_32 ==> Below(Prices(fee, bp), CodePrices(fee, bp), n, held, held)
  {
    forall i | 1 <= i <= n
      ensures At(CodePrices(fee, bp), held, i) <= At(Prices(fee, bp), held, i)
      ensures held + n < TWO_32 ==> At(Prices(fee, bp), held, i) <= At(CodePrices(fee, bp), held, i)
    {
      CodeAgainstPlain(fee, bp, held, i);
    }
  }

  /** A wrapped day number is a discounted day, so the loop falls short of the sum. */
  lemma LoopShort(fee: nat, bp: nat, n: nat, held: nat)
    requires held < TWO_32 && fee * FULL < TWO_64 && fee > 0 && bp < FULL
    ensures SumOf(CodePrices(fee, bp), n, held) == Sum(fee, bp, n, held) <==> n == 0 || held + n < TWO_32
  {
    var code, plain := CodePrices(fee, bp), Prices(fee, bp);
    CodeBelowPlain(fee, bp, n, held);
    SumsBelow(code, plain, n, held, held);
    if held + n < TWO_32 {
      SumsBelow(plain, code, n, held, held);
    } else if n > 0 {
      CodeAgainstPlain(fee, bp, held, TWO_32 - held);
      SumsStrictlyBelow(code, plain, n, held, TWO_32 - held);
    }
  }

  /** The code computes the sum exactly when the 32-bit day number does not wrap where it matters. */
  lemma CostIsSum(fee: nat, bp: nat, added: nat, held: nat)
    requires held < TWO_32 && FeesFit(fee, added)
    ensures Cost(fee, bp, added, held) == Sum(fee, bp, added, held) <==> added == 0 || DaysFit(fee, bp, added, held)
  {
    if bp >= FULL {
      FlatSum(fee, bp, added, held);
    } else if fee == 0 {
      SumBounds(fee, bp, added, held);
    } else if added > 0 {
      CostFits(fee, bp, added, held);
      SumTail(fee, bp, added, held);
      LoopShort(fee, bp, InWindow(added), held);
    }
  }

  /** A day number past 2^32 - 1 is charged at today's discount. */
  lemma WrappedDayIsCheap()
    ensures Cost(FULL, 0, 1, TWO_32 - 1) != Sum(FULL, 0, 1, TWO_32 - 1)
  {
    CostIsSum(FULL, 0, 1, TWO_32 - 1);
  }

  /** The split law for the code itself. */
  lemma SplitFunding(fee: nat, bp: nat, a: nat, b: nat, held: nat)
    requires FeesFit(fee, a + b) && held + a + b < TWO_32
    ensures Cost(fee, bp, a + b, held) == Cost(fee, bp, a, held) + Cost(fee, bp, b, held + a)
  {
    Split(a, b, fee);
    CostIsSum(fee, bp, a + b, held);
    CostIsSum(fee, bp, a, held);
    CostIsSum(fee, bp, b, held + a);
    SplitSum(fee, bp, a, b, held);
  }
}
