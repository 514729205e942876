/**
 * Making room on the gateway's disk: the walk lists files until it has seen enough, then
 * the oldest are deleted until the need is covered.
 */
module Eviction {
  import opened DirectoryWalk

  // ---- The listing and its early stop ----

  function Size(): File -> nat { (f: File) => f.size }

  /** The bytes of a file last used before the cutoff. */
  function IdleSize(cutoff: int): File -> nat { (f: File) => if f.atime < cutoff then f.size else 0 }

  function Bytes(files: seq<File>): nat { Sum(files, Size()) }

  function Idle(files: seq<File>, cutoff: int): nat { Sum(files, IdleSize(cutoff)) }

  datatype Limits = Limits(need: nat, cutoff: int, minScan: nat, maxScan: nat)

  predicate Enough(list: seq<File>, m: Limits)
  {
    (|list| >= m.minScan && Idle(list, m.cutoff) >= m.need) || |list| >= m.maxScan
  }

  /** No listed file came after one at which the walk should have stopped. */
  ghost predicate NotBefore(list: seq<File>, m: Limits)
  {
    forall k :: 0 < k < |list| ==> !Enough(list[..k], m)
  }

  /** The shortest non-empty start of the walk that is enough, or all of it. */
  ghost predicate IsListed(list: seq<File>, all: seq<File>, m: Limits)
  {
    && list <= all && NotBefore(list, m)
    && (list == all || (list != [] && Enough(list, m)))
  }

  method Walk(root: seq<Node>, m: Limits) returns (list: seq<File>, reclaimable: nat)
    ensures IsListed(list, Visit([Frame(root, 0)]), m) && reclaimable == Idle(list, m.cutoff)
  {
    list, reclaimable := [], 0;
    var stack := [Frame(root, 0)];
    ghost var all := Visit(stack);
    assert [] + Visit(stack) == all;
    while stack != []
      invariant list + Visit(stack) == all && Going(list, reclaimable, m)
      decreases StackDirs(stack)
    {
      ghost var rest, last := stack[..|stack| - 1], stack[|stack| - 1];
      ghost var later := Visit(rest + Subdirs(last.entries, last.depth));
      assert rest + [last] == stack;
      VisitTop(rest, last);
      PopShrinks(rest, last);
      Shifted(list, Visit(stack), Direct(last.entries, last.depth), later, all);
      var top := stack[|stack| - 1];
      stack := stack[..|stack| - 1];
      var stop;
      list, reclaimable, stack, stop := ReadDir(top, stack, list, reclaimable, m, later, all);
      if stop { return; }
    }
    assert list + [] == list;
  }

  lemma Shifted(list: seq<File>, ahead: seq<File>, first: seq<File>, later: seq<File>, all: seq<File>)
    requires list + ahead == all && ahead == first + later
    ensures list + first + later == all
  {
  }

  /** The listing goes on: it is not enough yet. */
  ghost predicate Going(list: seq<File>, reclaimable: nat, m: Limits)
  {
    reclaimable == Idle(list, m.cutoff) && NotBefore(list, m) && (list != [] ==> !Enough(list, m))
  }

  /** `list`, then what this directory still holds, then `later`, is the whole walk. */
  ghost predicate Ahead(list: seq<File>, entries: seq<Node>, depth: nat, later: seq<File>, all: seq<File>)
  {
    list + Direct(entries, depth) + later == all
  }

  lemma AheadNext(list: seq<File>, entries: seq<Node>, depth: nat, later: seq<File>, all: seq<File>)
    requires entries != [] && Ahead(list, entries, depth, later, all)
    ensures entries[0].Content? && depth > 0
            ==> Ahead(list + [entries[0].file], entries[1..], depth, later, all) && list + [entries[0].file] <= all
    ensures !(entries[0].Content? && depth > 0) ==> Ahead(list, entries[1..], depth, later, all)
  {
    var after := Direct(entries[1..], depth);
    if entries[0].Content? && depth > 0 {
      assert list + ([entries[0].file] + after) + later == list + [entries[0].file] + after + later;
      assert list + [entries[0].file] + (after + later) == all;
    } else {
      assert [] + after == after;
    }
  }

  lemma SubdirsNext(pushed: seq<Frame>, entries: seq<Node>, depth: nat, total: seq<Frame>)
    requires entries != [] && pushed + Subdirs(entries, depth) == total
    ensures entries[0].Dir?
            ==> pushed + [Frame(entries[0].entries, depth + 1)] + Subdirs(entries[1..], depth) == total
    ensures !entries[0].Dir? ==> pushed + Subdirs(entries[1..], depth) == total
  {
    var after := Subdirs(entries[1..], depth);
    if entries[0].Dir? {
      var f := Frame(entries[0].entries, depth + 1);
      assert pushed + ([f] + after) == pushed + [f] + after;
    } else {
      assert [] + after == after;
    }
  }

  method ListFile(list0: seq<File>, idle0: nat, f: File, m: Limits)
    returns (list: seq<File>, reclaimable: nat, stop: bool)
    requires Going(list0, idle0, m)
    ensures list == list0 + [f] && NotBefore(list, m)
    ensures reclaimable == Idle(list, m.cutoff) && stop == Enough(list, m)
  {
    ListOne(list0, f, m);
    list, reclaimable := list0 + [f], idle0;
    if f.atime < m.cutoff { reclaimable := reclaimable + f.size; }
    stop := (|list| >= m.minScan && reclaimable >= m.need) || |list| >= m.maxScan;
  }

  /** One directory: files are listed, sub-directories pushed, until the listing is enough. */
  method ReadDir(top: Frame, stack0: seq<Frame>, list0: seq<File>, idle0: nat, m: Limits,
                 ghost later: seq<File>, ghost all: seq<File>)
    returns (list: seq<File>, reclaimable: nat, stack: seq<Frame>, stop: bool)
    requires Ahead(list0, top.entries, top.depth, later, all) && Going(list0, idle0, m)
    ensures NotBefore(list, m) && reclaimable == Idle(list, m.cutoff)
    ensures stop ==> list <= all && list != [] && Enough(list, m)
    ensures !stop ==> Going(list, reclaimable, m) && list + later == all
    ensures !stop ==> stack == stack0 + Subdirs(top.entries, top.depth)
  {
    list, reclaimable, stack, stop := list0, idle0, stack0, false;
    var depth := top.depth;
    var left := top.entries;
    ghost var pushed: seq<Frame> := [];
    while left != []
      invariant pushed + Subdirs(left, depth) == Subdirs(top.entries, depth) && stack == stack0 + pushed
      invariant Ahead(list, left, depth, later, all) && Going(list, reclaimable, m)
      decreases |left|
    {
      var e := left[0];
      AheadNext(list, left, depth, later, all);
      SubdirsNext(pushed, left, depth, Subdirs(top.entries, depth));
      left := left[1..];
      if e.Dir? {
        stack := stack + [Frame(e.entries, depth + 1)];
        pushed := pushed + [Frame(e.entries, depth + 1)];
      } else if e.Content? && depth > 0 {
        list, reclaimable, stop := ListFile(list, reclaimable, e.file, m);
        if stop { return; }
      }
    }
    assert list + [] + later == list + later;
  }

  lemma ListOne(list: seq<File>, f: File, m: Limits)
    requires NotBefore(list, m) && (list != [] ==> !Enough(list, m))
    ensures NotBefore(list + [f], m)
    ensures Idle(list + [f], m.cutoff) == Idle(list, m.cutoff) + if f.atime < m.cutoff then f.size else 0
  {
    SumSnoc(list, f, IdleSize(m.cutoff));
    forall k | 0 < k < |list + [f]|
      ensures !Enough((list + [f])[..k], m)
    {
      assert (list + [f])[..k] == list[..k];
      if k == |list| { assert list[..k] == list; }
    }
  }

  // ---- Oldest first ----

  ghost predicate ByAge(files: seq<File>)
  {
    forall i, j :: 0 <= i < j < |files| ==> files[i].atime <= files[j].atime
  }

  /** The files with one access time, in order: a stable sort keeps each of these. */
  function SameAge(files: seq<File>, age: int): seq<File>
  {
    if files == [] then []
    else SameAge(files[..|files| - 1], age)
         + if files[|files| - 1].atime == age then [files[|files| - 1]] else []
  }

  /** The place of `f` behind every file that is not younger. */
  function Place(sorted: seq<File>, f: File): (k: nat)
    ensures k <= |sorted| && (k > 0 ==> sorted[k - 1].atime <= f.atime)
    ensures forall i :: k <= i < |sorted| ==> f.atime < sorted[i].atime
  {
    if sorted == [] || sorted[|sorted| - 1].atime <= f.atime then |sorted|
    else Place(sorted[..|sorted| - 1], f)
  }

  function Insert(sorted: seq<File>, f: File): seq<File>
  {
    var k := Place(sorted, f);
    sorted[..k] + [f] + sorted[k..]
  }

  /** The library's stable sort on the access time. */
  function OldestFirst(files: seq<File>): seq<File>
  {
    if files == [] then [] else Insert(OldestFirst(files[..|files| - 1]), files[|files| - 1])
  }

  lemma InsertByAge(sorted: seq<File>, f: File)
    requires ByAge(sorted)
    ensures ByAge(Insert(sorted, f))
  {
    var k := Place(sorted, f);
    assert forall i :: 0 <= i < k ==> sorted[i].atime <= f.atime;
  }

  lemma InsertSum(sorted: seq<File>, f: File, w: File -> nat)
    ensures Sum(Insert(sorted, f), w) == Sum(sorted, w) + w(f)
  {
    var k := Place(sorted, f);
    SumSplit(sorted[..k] + [f], sorted[k..], w);
    SumSnoc(sorted[..k], f, w);
    SumSplit(sorted[..k], sorted[k..], w);
    assert sorted == sorted[..k] + sorted[k..];
  }

  lemma {:induction false} SortByAge(files: seq<File>)
    ensures ByAge(OldestFirst(files))
  {
    if files != [] {
      SortByAge(files[..|files| - 1]);
      InsertByAge(OldestFirst(files[..|files| - 1]), files[|files| - 1]);
    }
  }

  lemma {:induction false} SortSum(files: seq<File>, w: File -> nat)
    ensures Sum(OldestFirst(files), w) == Sum(files, w)
  {
    if files != [] {
      SortSum(files[..|files| - 1], w);
      InsertSum(OldestFirst(files[..|files| - 1]), files[|files| - 1], w);
    }
  }

  lemma {:induction false} SameAgeSplit(a: seq<File>, b: seq<File>, age: int)
    ensures SameAge(a + b, age) == SameAge(a, age) + SameAge(b, age)
  {
    if b == [] {
      assert a + b == a;
    } else {
      assert (a + b)[..|a + b| - 1] == a + b[..|b| - 1];
      SameAgeSplit(a, b[..|b| - 1], age);
    }
  }

  lemma {:induction false} NoneSameAge(files: seq<File>, age: int)
    requires forall i :: 0 <= i < |files| ==> files[i].atime != age
    ensures SameAge(files, age) == []
  {
    if files != [] { NoneSameAge(files[..|files| - 1], age); }
  }

  lemma InsertStable(sorted: seq<File>, f: File, age: int)
    ensures SameAge(Insert(sorted, f), age) == SameAge(sorted, age) + if f.atime == age then [f] else []
  {
    var k := Place(sorted, f);
    var front, back := sorted[..k], sorted[k..];
    assert sorted == front + back;
    SameAgeSplit(front, back, age);
    SameAgeSplit(front + [f], back, age);
    SameAgeLast(front, f, age);
    if f.atime == age { NoneSameAge(back, age); }
    Swap(SameAge(front, age), if f.atime == age then [f] else [], SameAge(back, age));
  }

  lemma Swap(a: seq<File>, b: seq<File>, c: seq<File>)
    requires b == [] || c == []
    ensures a + b + c == a + c + b
  {
    if b == [] { assert a + c + b == a + c; }
  }

  lemma SameAgeLast(front: seq<File>, f: File, age: int)
    ensures SameAge(front + [f], age) == SameAge(front, age) + if f.atime == age then [f] else []
  {
    assert (front + [f])[..|front|] == front;
  }

  lemma {:induction false} SortStable(files: seq<File>, age: int)
    ensures SameAge(OldestFirst(files), age) == SameAge(files, age)
  {
    if files != [] {
      SortStable(files[..|files| - 1], age);
      InsertStable(OldestFirst(files[..|files| - 1]), files[|files| - 1], age);
    }
  }

  /** Sorted by age, the same files, and files of one age in the order they were listed. */
  lemma OldestFirstSorts(files: seq<File>, age: int)
    ensures ByAge(OldestFirst(files)) && multiset(OldestFirst(files)) == multiset(files)
    ensures SameAge(OldestFirst(files), age) == SameAge(files, age)
  {
    SortByAge(files);
    SortStable(files, age);
    forall f: File
      ensures Sum(OldestFirst(files), Only(f)) == Sum(files, Only(f))
    {
      SortSum(files, Only(f));
    }
    SameCounts(OldestFirst(files), files);
  }

  // ---- The deletion ----

  /** The files of a list whose deletion succeeds. */
  function Gone(files: seq<File>, works: string -> bool): seq<File>
  {
    if files == [] then []
    else Gone(files[..|files| - 1], works) + if works(files[|files| - 1].path) then [files[|files| - 1]] else []
  }

  function Freed(files: seq<File>, works: string -> bool): nat { Bytes(Gone(files, works)) }

  lemma FreedNext(pool: seq<File>, k: nat, works: string -> bool)
    requires k < |pool|
    ensures Gone(pool[..k + 1], works) == Gone(pool[..k], works) + if works(pool[k].path) then [pool[k]] else []
    ensures Freed(pool[..k + 1], works) == Freed(pool[..k], works) + if works(pool[k].path) then pool[k].size else 0
  {
    assert pool[..k + 1][..k] == pool[..k];
    SumSnoc(Gone(pool[..k], works), pool[k], Size());
    assert Gone(pool[..k], works) + [] == Gone(pool[..k], works);
  }

  /** `k` is the first point at which the need is covered, or the end. */
  ghost predicate StopsAt(pool: seq<File>, need: nat, works: string -> bool, k: nat)
  {
    && k <= |pool| && (k == |pool| || Freed(pool[..k], works) >= need)
    && forall j :: 0 <= j < k ==> Freed(pool[..j], works) < need
  }

  function Paths(files: seq<File>): set<string>
  {
    set f | f in files :: f.path
  }

  function Pool(list: seq<File>, m: Limits): seq<File>
  {
    OldestFirst(if Idle(list, m.cutoff) >= m.need then OnlyIdle(list, m.cutoff) else list)
  }

  function OnlyIdle(list: seq<File>, cutoff: int): (r: seq<File>)
    ensures forall f :: f in r ==> f.atime < cutoff
  {
    if list == [] then []
    else OnlyIdle(list[..|list| - 1], cutoff) + if list[|list| - 1].atime < cutoff then [list[|list| - 1]] else []
  }

  lemma {:induction false} OnlyIdleSum(list: seq<File>, cutoff: int, w: File -> nat)
    ensures Sum(OnlyIdle(list, cutoff), w) <= Sum(list, w)
  {
    if list != [] {
      OnlyIdleSum(list[..|list| - 1], cutoff, w);
      var idle := OnlyIdle(list[..|list| - 1], cutoff);
      SumSnoc(idle, list[|list| - 1], w);
      assert idle + [] == idle;
    }
  }

  lemma {:induction false} OnlyIdleBytes(list: seq<File>, cutoff: int)
    ensures Bytes(OnlyIdle(list, cutoff)) == Idle(list, cutoff)
  {
    if list != [] {
      OnlyIdleBytes(list[..|list| - 1], cutoff);
      var idle := OnlyIdle(list[..|list| - 1], cutoff);
      SumSnoc(idle, list[|list| - 1], Size());
      assert idle + [] == idle;
    }
  }

  class Cache {
    const minFree: nat
    const maxAge: nat
    const minScan: nat
    const maxScan: nat
    var checked: map<string, int>

    constructor (minFree: nat, maxAge: nat, minScan: nat, maxScan: nat)
      ensures checked == map[]
      ensures this.minFree == minFree && this.maxAge == maxAge && this.minScan == minScan && this.maxScan == maxScan
    {
      this.minFree, this.maxAge, this.minScan, this.maxScan := minFree, maxAge, minScan, maxScan;
      checked := map[];
    }

    function Needs(free: int, incoming: nat, now: int): Limits
      requires free < minFree + incoming
    {
      Limits(minFree + incoming - free, now - maxAge, minScan, maxScan)
    }

    /** `free` is negative when the file system cannot tell; `works` says which deletions succeed. */
    method EnsureRoom(free: int, incoming: nat, now: int, root: seq<Node>, works: string -> bool)
      returns (deleted: seq<File>, ghost list: seq<File>, ghost k: nat)
      modifies this
      ensures free < 0 || free >= minFree + incoming ==> deleted == []
      ensures 0 <= free < minFree + incoming ==>
        var m := Needs(free, incoming, now);
        && IsListed(list, Visit([Frame(root, 0)]), m)
        && StopsAt(Pool(list, m), m.need, works, k)
        && deleted == Gone(Pool(list, m)[..k], works)
      ensures checked == old(checked) - Paths(deleted)
    {
      deleted, list, k := [], [], 0;
      if free < 0 { return; }
      var target := minFree + incoming;
      if free >= target { return; }
      var m := Needs(free, incoming, now);
      var listed, reclaimable := Walk(root, m);
      list := listed;
      var pool := OldestFirst(if reclaimable >= m.need then OnlyIdle(listed, m.cutoff) else listed);
      deleted, k := DeleteOldest(pool, m.need, works);
    }

    method DeleteOldest(pool: seq<File>, need: nat, works: string -> bool)
      returns (deleted: seq<File>, ghost k: nat)
      modifies this
      ensures StopsAt(pool, need, works, k) && deleted == Gone(pool[..k], works)
      ensures checked == old(checked) - Paths(deleted)
    {
      var freed := 0;
      deleted := [];
      var i := 0;
      while i < |pool| && freed < need
        invariant 0 <= i <= |pool| && deleted == Gone(pool[..i], works) && freed == Freed(pool[..i], works)
        invariant forall j :: 0 <= j < i ==> Freed(pool[..j], works) < need
        invariant checked == old(checked) - Paths(deleted)
      {
        FreedNext(pool, i, works);
        var f := pool[i];
        if works(f.path) {
          freed := freed + f.size;
          checked := checked - {f.path};
          deleted := deleted + [f];
        }
        i := i + 1;
      }
      k := i;
    }
  }

  // ---- What the deletion achieves ----

  lemma {:induction false} AllGone(files: seq<File>, works: string -> bool)
    requires forall f :: f in files ==> works(f.path)
    ensures Gone(files, works) == files
  {
    if files != [] {
      var front := files[..|files| - 1];
      assert files == front + [files[|files| - 1]];
      AllGone(front, works);
    }
  }

  /** With deletions that succeed: the shortest oldest-first part of the pool that covers the need, or all of it. */
  lemma ShortestPrefix(pool: seq<File>, need: nat, works: string -> bool, k: nat)
    requires StopsAt(pool, need, works, k) && forall f :: f in pool ==> works(f.path)
    ensures Gone(pool[..k], works) == pool[..k]
    ensures k < |pool| ==> Bytes(pool[..k]) >= need
    ensures forall j :: 0 <= j < k ==> Bytes(pool[..j]) < need
    ensures Bytes(pool) >= need ==> Bytes(pool[..k]) >= need
  {
    forall j | 0 <= j <= k
      ensures Gone(pool[..j], works) == pool[..j]
    {
      AllGone(pool[..j], works);
    }
    if k == |pool| { assert pool[..k] == pool; }
  }

  lemma SumTake(a: seq<File>, k: nat, w: File -> nat)
    requires k <= |a|
    ensures Sum(a[..k], w) <= Sum(a, w)
  {
    SumSplit(a[..k], a[k..], w);
    assert a == a[..k] + a[k..];
  }

  lemma {:induction false} IdleBelow(list: seq<File>, cutoff: int)
    ensures Idle(list, cutoff) <= Bytes(list)
  {
    if list != [] { IdleBelow(list[..|list| - 1], cutoff); }
  }

  function Chosen(list: seq<File>, m: Limits): seq<File>
  {
    if Idle(list, m.cutoff) >= m.need then OnlyIdle(list, m.cutoff) else list
  }

  lemma PoolSum(list: seq<File>, m: Limits, w: File -> nat)
    ensures Sum(Pool(list, m), w) <= Sum(list, w)
  {
    SortSum(Chosen(list, m), w);
    OnlyIdleSum(list, m.cutoff, w);
  }

  lemma PoolBytes(list: seq<File>, m: Limits)
    ensures Idle(list, m.cutoff) >= m.need ==> Bytes(Pool(list, m)) == Idle(list, m.cutoff)
    ensures Idle(list, m.cutoff) < m.need ==> Bytes(Pool(list, m)) == Bytes(list)
  {
    SortSum(Chosen(list, m), Size());
    OnlyIdleBytes(list, m.cutoff);
  }

  lemma PoolIdle(list: seq<File>, m: Limits)
    requires Idle(list, m.cutoff) >= m.need
    ensures forall f :: f in Pool(list, m) ==> f.atime < m.cutoff
  {
    OldestFirstSorts(Chosen(list, m), 0);
    forall f | f in Pool(list, m)
      ensures f.atime < m.cutoff
    {
      assert f in multiset(Pool(list, m));
      assert f in OnlyIdle(list, m.cutoff);
    }
  }

  /** Only listed files are deleted, each at most once. */
  lemma DeletedWasListed(list: seq<File>, m: Limits, k: nat, f: File)
    requires k <= |Pool(list, m)|
    ensures multiset(Pool(list, m)[..k])[f] <= multiset(list)[f]
  {
    PoolSum(list, m, Only(f));
    SumTake(Pool(list, m), k, Only(f));
    CountIsSum(Pool(list, m)[..k], f);
    CountIsSum(list, f);
  }

  /**
   * When the listed idle files cover the need and deletions succeed, the need is met and
   * only idle files went; in any case it is met exactly when the listed bytes cover it.
   */
  lemma NeedIsMet(list: seq<File>, m: Limits, works: string -> bool, k: nat)
    requires StopsAt(Pool(list, m), m.need, works, k) && forall f :: f in Pool(list, m) ==> works(f.path)
    ensures var deleted := Gone(Pool(list, m)[..k], works);
      && (Bytes(deleted) >= m.need <==> Bytes(list) >= m.need)
      && (Idle(list, m.cutoff) >= m.need ==> Bytes(deleted) >= m.need)
      && (Idle(list, m.cutoff) >= m.need ==> forall f :: f in deleted ==> f.atime < m.cutoff)
  {
    var pool := Pool(list, m);
    ShortestPrefix(pool, m.need, works, k);
    PoolBytes(list, m);
    PoolSum(list, m, Size());
    SumTake(pool, k, Size());
    IdleBelow(list, m.cutoff);
    if Idle(list, m.cutoff) >= m.need { PoolIdle(list, m); }
  }

  /** Every file of the pool that stays was used no earlier than every file that went. */
  lemma OldestGoFirst(list: seq<File>, m: Limits, k: nat, i: nat, j: nat)
    requires i < k <= j < |Pool(list, m)|
    ensures Pool(list, m)[i].atime <= Pool(list, m)[j].atime
  {
    SortByAge(Chosen(list, m));
  }

  /**
   * A recently used file is deleted only if the idle files of the whole cache do not cover
   * the need or the cache holds at least `maxScan` files.
   */
  lemma RecentFilesAreSafe(root: seq<Node>, list: seq<File>, m: Limits)
    requires IsListed(list, Visit([Frame(root, 0)]), m)
    requires Idle(Files(root, 0), m.cutoff) >= m.need && |Files(root, 0)| < m.maxScan
    ensures Idle(list, m.cutoff) >= m.need
  {
    WalkSum(root, IdleSize(m.cutoff));
    WalkIsListing(root);
    assert |multiset(Visit([Frame(root, 0)]))| == |multiset(Files(root, 0))|;
  }
}
