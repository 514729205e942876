/**
 * The gateway's cache directory: a walk with an explicit stack against the plain recursive
 * listing.  A claim about every weight on files covers counts, sizes and idle bytes at once.
 */
module DirectoryWalk {

  datatype File = File(path: string, atime: int, size: nat)

  /**
   * A directory as the walk sees it.  `Skipped` is an entry that is never listed: a partial
   * download or a file whose `stat` fails.  A directory that cannot be read has no entries.
   */
  datatype Node = Content(file: File) | Skipped | Dir(entries: seq<Node>)

  datatype Frame = Frame(entries: seq<Node>, depth: nat)

  // ---- Sums over listed files ----

  function Sum(files: seq<File>, w: File -> nat): nat
  {
    if files == [] then 0 else Sum(files[..|files| - 1], w) + w(files[|files| - 1])
  }

  function Only(f: File): File -> nat { g => if g == f then 1 else 0 }

  lemma SumSnoc(files: seq<File>, f: File, w: File -> nat)
    ensures Sum(files + [f], w) == Sum(files, w) + w(f)
  {
    assert (files + [f])[..|files|] == files;
  }

  lemma {:induction false} SumSplit(a: seq<File>, b: seq<File>, w: File -> nat)
    ensures Sum(a + b, w) == Sum(a, w) + Sum(b, w)
  {
    if b == [] {
      assert a + b == a;
    } else {
      assert (a + b)[..|a + b| - 1] == a + b[..|b| - 1];
      SumSplit(a, b[..|b| - 1], w);
    }
  }

  /** How often a file is listed is a sum too. */
  lemma {:induction false} CountIsSum(files: seq<File>, f: File)
    ensures multiset(files)[f] == Sum(files, Only(f))
  {
    if files != [] {
      var front, last := files[..|files| - 1], files[|files| - 1];
      CountIsSum(front, f);
      assert files == front + [last];
    }
  }

  /** Lists with the same sums are the same up to order. */
  lemma SameCounts(a: seq<File>, b: seq<File>)
    requires forall f :: Sum(a, Only(f)) == Sum(b, Only(f))
    ensures multiset(a) == multiset(b)
  {
    forall f: File
      ensures multiset(a)[f] == multiset(b)[f]
    {
      CountIsSum(a, f);
      CountIsSum(b, f);
    }
  }

  // ---- The walk ----

  /** The files listed straight from one directory; files at the root are not content. */
  function Direct(entries: seq<Node>, depth: nat): seq<File>
  {
    if entries == [] then []
    else (if entries[0].Content? && depth > 0 then [entries[0].file] else []) + Direct(entries[1..], depth)
  }

  function Subdirs(entries: seq<Node>, depth: nat): seq<Frame>
  {
    if entries == [] then []
    else (if entries[0].Dir? then [Frame(entries[0].entries, depth + 1)] else []) + Subdirs(entries[1..], depth)
  }

  /** The number of directories under and including one. */
  function Dirs(entries: seq<Node>): (n: nat)
    ensures n > 0
  {
    if entries == [] then 1
    else (match entries[0] case Dir(inner) => Dirs(inner) case _ => 0) + Dirs(entries[1..])
  }

  function StackDirs(stack: seq<Frame>): nat
  {
    if stack == [] then 0 else StackDirs(stack[..|stack| - 1]) + Dirs(stack[|stack| - 1].entries)
  }

  lemma {:induction false} StackDirsSplit(a: seq<Frame>, b: seq<Frame>)
    ensures StackDirs(a + b) == StackDirs(a) + StackDirs(b)
  {
    if b == [] {
      assert a + b == a;
    } else {
      assert (a + b)[..|a + b| - 1] == a + b[..|b| - 1];
      StackDirsSplit(a, b[..|b| - 1]);
    }
  }

  lemma {:induction false} SubdirsDirs(entries: seq<Node>, depth: nat)
    ensures StackDirs(Subdirs(entries, depth)) + 1 == Dirs(entries)
  {
    if entries != [] {
      SubdirsDirs(entries[1..], depth);
      if entries[0].Dir? {
        var f := Frame(entries[0].entries, depth + 1);
        assert StackDirs([]) == 0 && [f][..0] == [] && StackDirs([f]) == Dirs(f.entries);
        StackDirsSplit([f], Subdirs(entries[1..], depth));
      } else {
        assert [] + Subdirs(entries[1..], depth) == Subdirs(entries[1..], depth);
      }
    }
  }

  lemma PopShrinks(rest: seq<Frame>, top: Frame)
    ensures StackDirs(rest + Subdirs(top.entries, top.depth)) < StackDirs(rest + [top])
  {
    StackDirsSplit(rest, Subdirs(top.entries, top.depth));
    SubdirsDirs(top.entries, top.depth);
    assert (rest + [top])[..|rest|] == rest;
  }

  /** Everything the stack walk would list, in its order, if it never stopped early. */
  function Visit(stack: seq<Frame>): seq<File>
    decreases StackDirs(stack)
  {
    if stack == [] then []
    else
      var rest, top := stack[..|stack| - 1], stack[|stack| - 1];
      PopShrinks(rest, top);
      assert rest + [top] == stack;
      Direct(top.entries, top.depth) + Visit(rest + Subdirs(top.entries, top.depth))
  }

  /** Popping a directory: what it lists itself comes first, then what the new stack lists. */
  lemma VisitTop(rest: seq<Frame>, top: Frame)
    ensures Visit(rest + [top]) == Direct(top.entries, top.depth) + Visit(rest + Subdirs(top.entries, top.depth))
  {
    assert (rest + [top])[..|rest|] == rest;
  }

  /** The plain recursive listing. */
  function Files(entries: seq<Node>, depth: nat): seq<File>
  {
    if entries == [] then []
    else
      (match entries[0]
       case Content(f) => if depth > 0 then [f] else []
       case Skipped => []
       case Dir(inner) => Files(inner, depth + 1))
      + Files(entries[1..], depth)
  }

  function StackSum(stack: seq<Frame>, w: File -> nat): nat
  {
    if stack == [] then 0
    else
      var top := stack[|stack| - 1];
      StackSum(stack[..|stack| - 1], w) + Sum(Files(top.entries, top.depth), w)
  }

  lemma {:induction false} StackSumSplit(a: seq<Frame>, b: seq<Frame>, w: File -> nat)
    ensures StackSum(a + b, w) == StackSum(a, w) + StackSum(b, w)
  {
    if b == [] {
      assert a + b == a;
    } else {
      assert (a + b)[..|a + b| - 1] == a + b[..|b| - 1];
      StackSumSplit(a, b[..|b| - 1], w);
    }
  }

  function Head(node: Node, depth: nat): seq<File>
  {
    match node
    case Content(f) => if depth > 0 then [f] else []
    case Skipped => []
    case Dir(inner) => Files(inner, depth + 1)
  }

  lemma FilesHead(entries: seq<Node>, depth: nat, w: File -> nat)
    requires entries != []
    ensures Sum(Files(entries, depth), w) == Sum(Head(entries[0], depth), w) + Sum(Files(entries[1..], depth), w)
  {
    assert Files(entries, depth) == Head(entries[0], depth) + Files(entries[1..], depth);
    SumSplit(Head(entries[0], depth), Files(entries[1..], depth), w);
  }

  lemma SubdirsHead(entries: seq<Node>, depth: nat, w: File -> nat)
    requires entries != []
    ensures StackSum(Subdirs(entries, depth), w)
            == (if entries[0].Dir? then Sum(Head(entries[0], depth), w) else 0)
               + StackSum(Subdirs(entries[1..], depth), w)
  {
    if entries[0].Dir? {
      var f := Frame(entries[0].entries, depth + 1);
      assert [f][..0] == [] && StackSum([f], w) == Sum(Files(f.entries, f.depth), w);
      StackSumSplit([f], Subdirs(entries[1..], depth), w);
    } else {
      assert [] + Subdirs(entries[1..], depth) == Subdirs(entries[1..], depth);
    }
  }

  lemma DirectHead(entries: seq<Node>, depth: nat, w: File -> nat)
    requires entries != []
    ensures Sum(Direct(entries, depth), w)
            == (if entries[0].Dir? then 0 else Sum(Head(entries[0], depth), w)) + Sum(Direct(entries[1..], depth), w)
  {
    if entries[0].Dir? {
      assert [] + Direct(entries[1..], depth) == Direct(entries[1..], depth);
    } else {
      assert Direct(entries, depth) == Head(entries[0], depth) + Direct(entries[1..], depth);
      SumSplit(Head(entries[0], depth), Direct(entries[1..], depth), w);
    }
  }

  lemma {:induction false} OneDirectory(entries: seq<Node>, depth: nat, w: File -> nat)
    ensures Sum(Files(entries, depth), w) == Sum(Direct(entries, depth), w) + StackSum(Subdirs(entries, depth), w)
  {
    if entries != [] {
      OneDirectory(entries[1..], depth, w);
      FilesHead(entries, depth, w);
      SubdirsHead(entries, depth, w);
      DirectHead(entries, depth, w);
    }
  }

  lemma {:induction false} VisitSum(stack: seq<Frame>, w: File -> nat)
    ensures Sum(Visit(stack), w) == StackSum(stack, w)
    decreases StackDirs(stack)
  {
    if stack != [] {
      var rest, top := stack[..|stack| - 1], stack[|stack| - 1];
      var next := rest + Subdirs(top.entries, top.depth);
      PopShrinks(rest, top);
      assert rest + [top] == stack;
      VisitSum(next, w);
      StackSumSplit(rest, Subdirs(top.entries, top.depth), w);
      OneDirectory(top.entries, top.depth, w);
      SumSplit(Direct(top.entries, top.depth), Visit(next), w);
    }
  }

  lemma WalkSum(root: seq<Node>, w: File -> nat)
    ensures Sum(Visit([Frame(root, 0)]), w) == Sum(Files(root, 0), w)
  {
    var stack := [Frame(root, 0)];
    VisitSum(stack, w);
    assert stack[..0] == [];
  }

  /** The stack walk misses nothing and lists nothing twice. */
  lemma WalkIsListing(root: seq<Node>)
    ensures multiset(Visit([Frame(root, 0)])) == multiset(Files(root, 0))
  {
    var walked, listed := Visit([Frame(root, 0)]), Files(root, 0);
    forall f: File
      ensures Sum(walked, Only(f)) == Sum(listed, Only(f))
    {
      WalkSum(root, Only(f));
    }
    SameCounts(walked, listed);
  }
}
