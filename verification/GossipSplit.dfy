/** Splitting a gossip budget over peers: an even split under caps, repeated on what the caps refuse. */
module GossipSplit {

  function Sum(s: seq<nat>): nat
  {
    if s == [] then 0 else Sum(s[..|s| - 1]) + s[|s| - 1]
  }

  function Min(a: nat, b: nat): nat { if a < b then a else b }

  /** Every peer filled to the same level, or to its cap. */
  function Levels(caps: seq<nat>, level: nat): (r: seq<nat>)
    ensures |r| == |caps|
  {
    seq(|caps|, i requires 0 <= i < |caps| => Min(caps[i], level))
  }

  /** The peers among the first `n` with room above the level, in order. */
  function Open(caps: seq<nat>, level: nat, n: nat): (r: seq<nat>)
    requires n <= |caps|
    ensures |r| <= n
  {
    if n == 0 then []
    else if caps[n - 1] > level then Open(caps, level, n - 1) + [n - 1]
    else Open(caps, level, n - 1)
  }

  /** Different peers, each with room above the level. */
  ghost predicate Roomy(caps: seq<nat>, idx: seq<nat>, level: nat)
  {
    forall k :: 0 <= k < |idx| ==> RoomyAt(caps, idx, level, k)
  }

  ghost predicate RoomyAt(caps: seq<nat>, idx: seq<nat>, level: nat, k: nat)
    requires k < |idx|
  {
    idx[k] < |caps| && caps[idx[k]] > level && idx[k] !in idx[..k]
  }

  lemma {:induction false} OpenRoomy(caps: seq<nat>, level: nat, n: nat)
    requires n <= |caps|
    ensures Roomy(caps, Open(caps, level, n), level)
    ensures forall i :: i in Open(caps, level, n) ==> i < n
  {
    if n > 0 {
      OpenRoomy(caps, level, n - 1);
      var front := Open(caps, level, n - 1);
      if caps[n - 1] > level {
        var all := front + [n - 1];
        forall k | 0 <= k < |all|
          ensures RoomyAt(caps, all, level, k)
        {
          assert all[..k] == front[..k];
          if k < |front| { assert RoomyAt(caps, front, level, k); }
        }
      }
    }
  }

  lemma {:induction false} OpenHas(caps: seq<nat>, level: nat, n: nat, i: nat)
    requires i < n <= |caps|
    ensures caps[i] > level <==> i in Open(caps, level, n)
  {
    var front := Open(caps, level, n - 1);
    if i == n - 1 {
      OpenBelow(caps, level, n - 1);
    } else {
      OpenHas(caps, level, n - 1, i);
      assert i in front + [n - 1] <==> i in front;
    }
  }

  lemma OpenComplete(caps: seq<nat>, level: nat)
    ensures forall i :: 0 <= i < |caps| ==> (caps[i] > level <==> i in Open(caps, level, |caps|))
  {
    forall i | 0 <= i < |caps|
      ensures caps[i] > level <==> i in Open(caps, level, |caps|)
    {
      OpenHas(caps, level, |caps|, i);
    }
  }

  lemma OpenBelow(caps: seq<nat>, level: nat, n: nat)
    requires n <= |caps|
    ensures n !in Open(caps, level, n)
  {
    OpenRoomy(caps, level, n);
  }

  /** Those of `idx` with room above the level. */
  function Above(caps: seq<nat>, idx: seq<nat>, level: nat): (r: seq<nat>)
  {
    if idx == [] then []
    else
      var rest, last := Above(caps, idx[..|idx| - 1], level), idx[|idx| - 1];
      if last < |caps| && caps[last] > level then rest + [last] else rest
  }

  /**
   * The outcome: a common level, and less left over than there are peers with room above
   * it, unless no peer has room.
   */
  ghost predicate Fair(budget: nat, caps: seq<nat>, alloc: seq<nat>, pocket: nat, level: nat)
  {
    && alloc == Levels(caps, level) && Sum(alloc) + pocket == budget
    && (pocket < |Open(caps, level, |caps|)| || Open(caps, level, |caps|) == [])
  }

  method SplitCapped(budget: nat, caps: seq<nat>) returns (alloc: seq<nat>, pocket: nat)
    ensures exists level :: Fair(budget, caps, alloc, pocket, level)
  {
    alloc := seq(|caps|, _ => 0);
    ghost var level := 0;
    ZeroLevel(caps);
    var remaining := budget;
    var active := Candidates(caps);
    while remaining > 0 && active != []
      invariant active == Open(caps, level, |caps|)
      invariant alloc == Levels(caps, level) && Sum(alloc) + remaining == budget
      decreases remaining
    {
      var share := Share(remaining, |active|);
      if share == 0 { break; }
      alloc, remaining, active := NextLevelRound(caps, alloc, remaining, active, level, share);
      level := level + share;
    }
    pocket := remaining;
    assert Fair(budget, caps, alloc, pocket, level);
  }

  method Candidates(caps: seq<nat>) returns (active: seq<nat>)
    ensures active == Open(caps, 0, |caps|)
  {
    active := [];
    for i := 0 to |caps|
      invariant active == Open(caps, 0, i)
    {
      if caps[i] > 0 { active := active + [i]; }
    }
  }

  /** A round lifts the level by the share. */
  method NextLevelRound(caps: seq<nat>, alloc0: seq<nat>, remaining0: nat, active: seq<nat>, ghost level: nat,
      share: nat)
    returns (alloc: seq<nat>, remaining: nat, still: seq<nat>)
    requires active == Open(caps, level, |caps|) && active != [] && share > 0 && Times(|active|, share) <= remaining0
    requires alloc0 == Levels(caps, level)
    ensures alloc == Levels(caps, level + share) && still == Open(caps, level + share, |caps|)
    ensures Sum(alloc) + remaining == Sum(alloc0) + remaining0 && remaining < remaining0
  {
    OpenRoomy(caps, level, |caps|);
    alloc, remaining, still := Round(caps, alloc0, remaining0, active, level, share);
    AfterAll(caps, active, level, level + share);
    AboveOpen(caps, level, level + share, |caps|);
  }

  /** The allocations after the first `k` active peers were filled to the next level. */
  function After(caps: seq<nat>, alloc: seq<nat>, active: seq<nat>, next: nat, k: nat): (r: seq<nat>)
    requires k <= |active| && |alloc| == |caps|
    ensures |r| == |caps|
  {
    if k == 0 then alloc
    else
      var done, idx := After(caps, alloc, active, next, k - 1), active[k - 1];
      if idx < |caps| then done[idx := Min(caps[idx], next)] else done
  }

  /** One round: every active peer takes the share or what its cap leaves. */
  method Round(caps: seq<nat>, alloc0: seq<nat>, remaining0: nat, active: seq<nat>, ghost level: nat, share: nat)
    returns (alloc: seq<nat>, remaining: nat, still: seq<nat>)
    requires Roomy(caps, active, level) && active != [] && share > 0 && Times(|active|, share) <= remaining0
    requires alloc0 == Levels(caps, level)
    ensures alloc == After(caps, alloc0, active, level + share, |active|)
    ensures Sum(alloc) + remaining == Sum(alloc0) + remaining0 && remaining < remaining0
    ensures still == Above(caps, active, level + share)
  {
    alloc, remaining, still := alloc0, remaining0, [];
    var k := 0;
    while k < |active|
      invariant 0 <= k <= |active| && alloc == After(caps, alloc0, active, level + share, k)
      invariant Sum(alloc) + remaining == Sum(alloc0) + remaining0
      invariant remaining >= Times(|active| - k, share) && (k > 0 ==> remaining < remaining0)
      invariant still == Above(caps, active[..k], level + share)
    {
      RoundStep(caps, active, level, share, k);
      var keep;
      alloc, remaining, keep := Give(caps, alloc, remaining, active[k], share);
      if keep { still := still + [active[k]]; }
      k := k + 1;
    }
    assert active[..|active|] == active;
  }

  /** What one peer of the round adds. */
  lemma RoundStep(caps: seq<nat>, active: seq<nat>, level: nat, share: nat, k: nat)
    requires k < |active| && Roomy(caps, active, level)
    ensures active[k] < |caps| && caps[active[k]] > level
    ensures After(caps, Levels(caps, level), active, level + share, k)[active[k]] == level
    ensures After(caps, Levels(caps, level), active, level + share, k + 1)
            == After(caps, Levels(caps, level), active, level + share, k)
               [active[k] := Min(caps[active[k]], level + share)]
    ensures Above(caps, active[..k + 1], level + share)
            == Above(caps, active[..k], level + share) + if caps[active[k]] > level + share then [active[k]] else []
    ensures Times(|active| - k, share) == Times(|active| - k - 1, share) + share
  {
    assert RoomyAt(caps, active, level, k);
    Untouched(caps, active, level, level + share, k);
    AboveNext(caps, active, level + share, k);
  }

  method Give(caps: seq<nat>, alloc0: seq<nat>, remaining0: nat, idx: nat, share: nat)
    returns (alloc: seq<nat>, remaining: nat, keep: bool)
    requires |alloc0| == |caps| && idx < |caps| && alloc0[idx] < caps[idx] && 0 < share <= remaining0
    ensures alloc == alloc0[idx := Min(caps[idx], alloc0[idx] + share)]
    ensures Sum(alloc) + remaining == Sum(alloc0) + remaining0
    ensures remaining0 - share <= remaining < remaining0 && keep == (caps[idx] > alloc0[idx] + share)
  {
    var headroom := caps[idx] - alloc0[idx];
    var give := if share < headroom then share else headroom;
    SumUpdate(alloc0, idx, alloc0[idx] + give);
    alloc := alloc0[idx := alloc0[idx] + give];
    remaining := remaining0 - give;
    keep := alloc[idx] < caps[idx];
  }

  /** What the round has done to each peer so far. */
  lemma {:induction false} AfterAt(caps: seq<nat>, active: seq<nat>, level: nat, next: nat, k: nat, i: nat)
    requires k <= |active| && Roomy(caps, active, level) && i < |caps|
    ensures After(caps, Levels(caps, level), active, next, k)[i]
        == Min(caps[i], if i in active[..k] then next else level)
  {
    if k > 0 {
      AfterAt(caps, active, level, next, k - 1, i);
      assert RoomyAt(caps, active, level, k - 1);
      assert active[..k] == active[..k - 1] + [active[k - 1]];
    }
  }

  lemma Untouched(caps: seq<nat>, active: seq<nat>, level: nat, next: nat, k: nat)
    requires k < |active| && Roomy(caps, active, level) && RoomyAt(caps, active, level, k)
    ensures After(caps, Levels(caps, level), active, next, k)[active[k]] == level
  {
    AfterAt(caps, active, level, next, k, active[k]);
  }

  lemma AboveNext(caps: seq<nat>, active: seq<nat>, level: nat, k: nat)
    requires k < |active| && active[k] < |caps|
    ensures Above(caps, active[..k + 1], level)
            == Above(caps, active[..k], level) + if caps[active[k]] > level then [active[k]] else []
  {
    assert active[..k + 1][..k] == active[..k];
  }

  lemma AfterAll(caps: seq<nat>, active: seq<nat>, level: nat, next: nat)
    requires active == Open(caps, level, |caps|) && level <= next
    ensures After(caps, Levels(caps, level), active, next, |active|) == Levels(caps, next)
  {
    OpenRoomy(caps, level, |caps|);
    OpenComplete(caps, level);
    forall i | 0 <= i < |caps|
      ensures After(caps, Levels(caps, level), active, next, |active|)[i] == Min(caps[i], next)
    {
      AfterAt(caps, active, level, next, |active|, i);
      assert active[..|active|] == active;
    }
  }

  lemma {:induction false} AboveOpen(caps: seq<nat>, low: nat, high: nat, n: nat)
    requires n <= |caps| && low <= high
    ensures Above(caps, Open(caps, low, n), high) == Open(caps, high, n)
  {
    if n > 0 {
      AboveOpen(caps, low, high, n - 1);
      OpenNext(caps, low, n);
      OpenNext(caps, high, n);
      AboveNewest(caps, Open(caps, low, n - 1), n - 1, high, Open(caps, high, n - 1));
    }
  }

  lemma AboveNewest(caps: seq<nat>, front: seq<nat>, last: nat, level: nat, above: seq<nat>)
    requires last < |caps| && Above(caps, front, level) == above
    ensures Above(caps, front + [last], level) == if caps[last] > level then above + [last] else above
  {
    AboveSnoc(caps, front, last, level);
  }

  lemma OpenNext(caps: seq<nat>, level: nat, n: nat)
    requires 0 < n <= |caps|
    ensures Open(caps, level, n)
            == if caps[n - 1] > level then Open(caps, level, n - 1) + [n - 1] else Open(caps, level, n - 1)
  {
  }

  lemma AboveSnoc(caps: seq<nat>, idx: seq<nat>, last: nat, level: nat)
    requires last < |caps|
    ensures Above(caps, idx + [last], level)
            == if caps[last] > level then Above(caps, idx, level) + [last] else Above(caps, idx, level)
  {
    assert (idx + [last])[..|idx|] == idx;
  }

  function Times(n: nat, k: nat): nat
  {
    if n == 0 then 0 else Times(n - 1, k) + k
  }

  lemma {:induction false} TimesIs(n: nat, k: nat)
    ensures Times(n, k) == n * k
  {
    if n > 0 { TimesIs(n - 1, k); }
  }

  method Share(remaining: nat, n: nat) returns (share: nat)
    requires n > 0
    ensures Times(n, share) <= remaining && (share == 0 ==> remaining < n)
  {
    share := remaining / n;
    TimesIs(n, share);
  }

  lemma ZeroLevel(caps: seq<nat>)
    ensures seq(|caps|, _ => 0) == Levels(caps, 0) && Sum(Levels(caps, 0)) == 0
  {
    SumZeros(Levels(caps, 0));
  }

  lemma {:induction false} SumZeros(s: seq<nat>)
    requires forall i :: 0 <= i < |s| ==> s[i] == 0
    ensures Sum(s) == 0
  {
    if s != [] { SumZeros(s[..|s| - 1]); }
  }

  lemma {:induction false} SumUpdate(s: seq<nat>, i: nat, v: nat)
    requires i < |s|
    ensures Sum(s[i := v]) == Sum(s) - s[i] + v
  {
    var n := |s| - 1;
    if i == n {
      assert s[i := v][..n] == s[..n];
    } else {
      SumUpdate(s[..n], i, v);
      assert s[i := v][..n] == s[..n][i := v];
    }
  }

  // ---- What the outcome means ----

  lemma {:induction false} SumLe(a: seq<nat>, b: seq<nat>)
    requires |a| == |b| && forall i :: 0 <= i < |a| ==> a[i] <= b[i]
    ensures Sum(a) <= Sum(b)
  {
    if a != [] { SumLe(a[..|a| - 1], b[..|b| - 1]); }
  }

  /** One more unit of level costs one unit per peer with room. */
  lemma {:induction false} NextLevel(caps: seq<nat>, level: nat, n: nat)
    requires n <= |caps|
    ensures Sum(Levels(caps, level + 1)[..n]) == Sum(Levels(caps, level)[..n]) + |Open(caps, level, n)|
  {
    var hi, lo := Levels(caps, level + 1), Levels(caps, level);
    if n > 0 {
      NextLevel(caps, level, n - 1);
      assert hi[..n][..n - 1] == hi[..n - 1] && lo[..n][..n - 1] == lo[..n - 1];
    }
  }

  lemma LevelCost(caps: seq<nat>, level: nat)
    ensures Sum(Levels(caps, level + 1)) == Sum(Levels(caps, level)) + |Open(caps, level, |caps|)|
  {
    NextLevel(caps, level, |caps|);
    assert Levels(caps, level + 1)[..|caps|] == Levels(caps, level + 1);
    assert Levels(caps, level)[..|caps|] == Levels(caps, level);
  }

  lemma LevelsGrow(caps: seq<nat>, low: nat, high: nat)
    requires low <= high
    ensures Sum(Levels(caps, low)) <= Sum(Levels(caps, high))
  {
    SumLe(Levels(caps, low), Levels(caps, high));
  }

  lemma NoRoomLeft(caps: seq<nat>, level: nat, high: nat)
    requires Open(caps, level, |caps|) == [] && level <= high
    ensures Levels(caps, high) == Levels(caps, level) == caps
  {
    OpenComplete(caps, level);
  }

  /** There is only one fair outcome: budget and caps decide every allocation and the pocket. */
  lemma FairIsUnique(budget: nat, caps: seq<nat>, a: seq<nat>, p: nat, x: nat, b: seq<nat>, q: nat, y: nat)
    requires Fair(budget, caps, a, p, x) && Fair(budget, caps, b, q, y) && x <= y
    ensures a == b && p == q
  {
    if x < y {
      if Open(caps, x, |caps|) == [] {
        NoRoomLeft(caps, x, y);
      } else {
        LevelCost(caps, x);
        LevelsGrow(caps, x + 1, y);
      }
    }
  }

  /** Peers are paid by cap order and never above their cap, and equally unless a cap binds. */
  lemma FairIsEven(budget: nat, caps: seq<nat>, alloc: seq<nat>, pocket: nat, level: nat, i: nat, j: nat)
    requires Fair(budget, caps, alloc, pocket, level) && i < |caps| && j < |caps|
    ensures alloc[i] <= caps[i]
    ensures alloc[i] < alloc[j] ==> alloc[i] == caps[i]
  {
  }

  /** Nothing is pocketed beyond a crumb while some peer could take more; all caps are met if the budget covers them. */
  lemma FairSpends(budget: nat, caps: seq<nat>, alloc: seq<nat>, pocket: nat, level: nat)
    requires Fair(budget, caps, alloc, pocket, level)
    ensures budget >= Sum(caps) <==> alloc == caps
    ensures budget < Sum(caps) ==> pocket < |Open(caps, level, |caps|)| <= |caps|
  {
    if Open(caps, level, |caps|) == [] {
      NoRoomLeft(caps, level, level);
    } else {
      LevelCost(caps, level);
      SumLe(Levels(caps, level + 1), caps);
      OpenRoomy(caps, level, |caps|);
      assert RoomyAt(caps, Open(caps, level, |caps|), level, 0);
      var i := Open(caps, level, |caps|)[0];
      assert alloc[i] != caps[i];
    }
  }
}
