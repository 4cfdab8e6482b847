/** Sizes and counts of a directory tree, added up from the leaves by a loop
    over an explicit stack. The shape of the tree does not change; every node
    has a place in an array for its totals, which the loop fills in. */
module TreeAggregate {

  datatype Tree =
    | File(id: nat, size: nat)
    | Dir(id: nat, children: seq<Tree>)

  datatype Totals = Totals(size: nat, files: nat, dirs: nat)

  // ---------------------------------------------------------- the recursive fold

  function Add(a: Totals, b: Totals): Totals
  {
    Totals(a.size + b.size, a.files + b.files, a.dirs + b.dirs)
  }

  /** What lies below a node: its own size for a file. */
  function Fold(t: Tree): Totals
    decreases t, if t.Dir? then |t.children| + 1 else 0
  {
    if t.File? then Totals(t.size, 0, 0) else FoldFirst(t, |t.children|)
  }

  /** The first `n` entries of a directory, with all below them. */
  function FoldFirst(t: Tree, n: nat): Totals
    requires t.Dir? && n <= |t.children|
    decreases t, n
  {
    if n == 0 then Totals(0, 0, 0)
    else
      var c := t.children[n - 1];
      Add(FoldFirst(t, n - 1), if c.File? then Totals(c.size, 1, 0) else Add(Fold(c), Totals(0, 0, 1)))
  }

  // ------------------------------------------------------------ nodes and places

  ghost function Ids(t: Tree): set<nat>
    decreases t, if t.Dir? then |t.children| + 1 else 0
  {
    if t.File? then {t.id} else {t.id} + IdsFirst(t, |t.children|)
  }

  ghost function IdsFirst(t: Tree, n: nat): set<nat>
    requires t.Dir? && n <= |t.children|
    decreases t, n
  {
    if n == 0 then {} else IdsFirst(t, n - 1) + Ids(t.children[n - 1])
  }

  lemma {:induction false} IdsOfChild(t: Tree, n: nat, k: nat)
    requires t.Dir? && k < n <= |t.children|
    ensures Ids(t.children[k]) <= IdsFirst(t, n)
  {
    if k < n - 1 { IdsOfChild(t, n - 1, k); }
  }

  /** Every node has its own place. */
  ghost predicate Proper(t: Tree)
  {
    t.Dir? ==>
      && t.id !in IdsFirst(t, |t.children|)
      && (forall k {:trigger t.children[k]} :: 0 <= k < |t.children| ==> Proper(t.children[k]))
      && (forall j, k {:trigger t.children[j], t.children[k]} :: 0 <= j < k < |t.children| ==> Ids(t.children[j]) !! Ids(t.children[k]))
  }

  lemma {:induction false} IdsApart(t: Tree, n: nat, m: nat)
    requires t.Dir? && Proper(t) && n <= m < |t.children|
    ensures IdsFirst(t, n) !! Ids(t.children[m])
  {
    if n > 0 {
      IdsApart(t, n - 1, m);
      assert Ids(t.children[n - 1]) !! Ids(t.children[m]);
    }
  }

  /** The fold misses no node and counts none twice: a directory, its files and
      the directories below it are all the nodes of its subtree. */
  lemma {:induction false} FoldCountsNodes(t: Tree)
    requires Proper(t)
    ensures |Ids(t)| == 1 + Fold(t).files + Fold(t).dirs
    decreases t, if t.Dir? then |t.children| + 1 else 0
  {
    if t.Dir? {
      FirstCountsNodes(t, |t.children|);
      assert |{t.id} + IdsFirst(t, |t.children|)| == 1 + |IdsFirst(t, |t.children|)|;
    }
  }

  lemma {:induction false} FirstCountsNodes(t: Tree, n: nat)
    requires t.Dir? && Proper(t) && n <= |t.children|
    ensures |IdsFirst(t, n)| == FoldFirst(t, n).files + FoldFirst(t, n).dirs
    decreases t, n
  {
    if n > 0 {
      FirstCountsNodes(t, n - 1);
      FoldCountsNodes(t.children[n - 1]);
      IdsApart(t, n - 1, n - 1);
    }
  }

  /** All nodes below a node, one after another. */
  ghost function Below(t: Tree): seq<Tree>
    decreases t, if t.Dir? then |t.children| + 1 else 0
  {
    if t.File? then [] else BelowFirst(t, |t.children|)
  }

  ghost function BelowFirst(t: Tree, n: nat): seq<Tree>
    requires t.Dir? && n <= |t.children|
    decreases t, n
  {
    if n == 0 then [] else BelowFirst(t, n - 1) + ([t.children[n - 1]] + Below(t.children[n - 1]))
  }

  lemma BelowMore(t: Tree, n: nat)
    requires t.Dir? && 0 < n <= |t.children|
    ensures BelowFirst(t, n) == BelowFirst(t, n - 1) + ([t.children[n - 1]] + Below(t.children[n - 1]))
  {
  }

  lemma BelowNone(t: Tree)
    ensures t.Dir? ==> BelowFirst(t, 0) == [] && Below(t) == BelowFirst(t, |t.children|)
    ensures t.File? ==> Below(t) == []
  {
  }

  ghost function IdsOf(list: seq<Tree>): set<nat>
  {
    set x | x in list :: x.id
  }

  lemma IdsJoin(a: seq<Tree>, b: seq<Tree>)
    ensures IdsOf(a + b) == IdsOf(a) + IdsOf(b)
  {
  }

  lemma IdsOne(c: Tree)
    ensures IdsOf([c]) == {c.id} && IdsOf([]) == {}
  {
  }

  lemma IdsMore(t: Tree, n: nat)
    requires t.Dir? && n <= |t.children|
    ensures n == 0 ==> IdsFirst(t, n) == {}
    ensures n > 0 ==> IdsFirst(t, n) == IdsFirst(t, n - 1) + Ids(t.children[n - 1])
    ensures Ids(t) == {t.id} + IdsFirst(t, |t.children|)
  {
  }

  lemma ProperParts(t: Tree)
    requires t.Dir? && Proper(t)
    ensures t.id !in IdsFirst(t, |t.children|) && forall k :: 0 <= k < |t.children| ==> Proper(t.children[k])
  {
  }

  lemma IdsOfFile(t: Tree)
    requires t.File?
    ensures Ids(t) == {t.id}
  {
  }

  /** That list misses no node and has none twice. */
  lemma {:induction false} BelowListsAll(t: Tree)
    requires Proper(t)
    ensures IdsOf(Below(t)) == Ids(t) - {t.id} && |Below(t)| + 1 == |Ids(t)|
    decreases t, if t.Dir? then |t.children| + 1 else 0
  {
    hide *;
    BelowNone(t);
    IdsOne(t);
    if t.Dir? {
      ProperParts(t);
      FirstListsAll(t, |t.children|);
      IdsMore(t, |t.children|);
      assert |{t.id} + IdsFirst(t, |t.children|)| == 1 + |IdsFirst(t, |t.children|)|;
    } else {
      IdsOfFile(t);
    }
  }

  lemma {:induction false} FirstListsAll(t: Tree, n: nat)
    requires t.Dir? && Proper(t) && n <= |t.children|
    ensures IdsOf(BelowFirst(t, n)) == IdsFirst(t, n) && |BelowFirst(t, n)| == |IdsFirst(t, n)|
    decreases t, n
  {
    hide *;
    BelowNone(t);
    IdsMore(t, n);
    IdsOne(t);
    if n > 0 {
      var c := t.children[n - 1];
      ProperParts(t);
      FirstListsAll(t, n - 1);
      BelowListsAll(c);
      IdsApart(t, n - 1, n - 1);
      OwnId(c);
      IdsOne(c);
      IdsJoin([c], Below(c));
      IdsJoin(BelowFirst(t, n - 1), [c] + Below(c));
      BelowMore(t, n);
      assert {c.id} + (Ids(c) - {c.id}) == Ids(c);
      assert |IdsFirst(t, n - 1) + Ids(c)| == |IdsFirst(t, n - 1)| + |Ids(c)|;
    }
  }

  /** What one node adds: a file its size, a directory itself. */
  ghost function One(x: Tree): Totals
  {
    if x.File? then Totals(x.size, 1, 0) else Totals(0, 0, 1)
  }

  /** The files of a list and their sizes, and its directories, added up. */
  ghost function Sum(list: seq<Tree>): Totals
  {
    if list == [] then Totals(0, 0, 0) else Add(Sum(list[..|list| - 1]), One(list[|list| - 1]))
  }

  lemma SumMore(list: seq<Tree>, x: Tree)
    ensures Sum(list + [x]) == Add(Sum(list), One(x)) && Sum([]) == Totals(0, 0, 0)
  {
    assert (list + [x])[..|list|] == list;
  }

  lemma {:induction false} SumJoin(a: seq<Tree>, b: seq<Tree>)
    ensures Sum(a + b) == Add(Sum(a), Sum(b))
  {
    hide Sum, One;
    if b == [] {
      assert a + b == a;
      SumMore(a, File(0, 0));
    } else {
      var n := |b| - 1;
      SumJoin(a, b[..n]);
      SumMore(a + b[..n], b[n]);
      SumMore(b[..n], b[n]);
      assert a + b == a + b[..n] + [b[n]] && b == b[..n] + [b[n]];
    }
  }

  lemma SumFirst(c: Tree, rest: seq<Tree>)
    ensures Sum([c] + rest) == Add(One(c), Sum(rest))
  {
    hide Sum, One;
    SumMore([], c);
    assert [] + [c] == [c];
    SumJoin([c], rest);
  }

  lemma FoldMore(t: Tree, n: nat)
    requires t.Dir? && n <= |t.children|
    ensures n == 0 ==> FoldFirst(t, n) == Totals(0, 0, 0)
    ensures n > 0 ==> FoldFirst(t, n) == Add(FoldFirst(t, n - 1), Add(One(t.children[n - 1]), if t.children[n - 1].Dir? then Fold(t.children[n - 1]) else Totals(0, 0, 0)))
    ensures Fold(t) == FoldFirst(t, |t.children|)
  {
  }

  /** The totals of a directory are the number and the sizes of all files below it,
      and the number of all directories below it. */
  lemma {:induction false} FoldIsSum(t: Tree)
    requires t.Dir?
    ensures Fold(t) == Sum(Below(t))
    decreases t, |t.children| + 1
  {
    hide *;
    BelowNone(t);
    FoldMore(t, |t.children|);
    FirstIsSum(t, |t.children|);
  }

  lemma {:induction false} FirstIsSum(t: Tree, n: nat)
    requires t.Dir? && n <= |t.children|
    ensures FoldFirst(t, n) == Sum(BelowFirst(t, n))
    decreases t, n
  {
    hide Fold, FoldFirst, Below, BelowFirst, Sum, One;
    BelowNone(t);
    FoldMore(t, n);
    if n > 0 {
      var c := t.children[n - 1];
      FirstIsSum(t, n - 1);
      BelowMore(t, n);
      SumJoin(BelowFirst(t, n - 1), [c] + Below(c));
      SumFirst(c, Below(c));
      BelowNone(c);
      SumMore([], c);
      if c.Dir? { FoldIsSum(c); }
    } else {
      SumMore([], t);
    }
  }

  ghost predicate Fits(t: Tree, n: nat)
  {
    t.id < n && (t.Dir? ==> forall k {:trigger t.children[k]} :: 0 <= k < |t.children| ==> Fits(t.children[k], n))
  }

  /** The totals of the node and of all below it are in place. */
  ghost predicate Done(t: Tree, totals: seq<Totals>)
  {
    && t.id < |totals|
    && if t.File? then totals[t.id].size == t.size
       else totals[t.id] == Fold(t) && forall k {:trigger t.children[k]} :: 0 <= k < |t.children| ==> Done(t.children[k], totals)
  }

  lemma {:induction false} DoneElsewhere(t: Tree, totals: seq<Totals>, i: nat, v: Totals)
    requires Done(t, totals) && i < |totals| && i !in Ids(t)
    ensures Done(t, totals[i := v])
  {
    if t.Dir? {
      forall k {:trigger t.children[k]} | 0 <= k < |t.children|
        ensures Done(t.children[k], totals[i := v])
      {
        IdsOfChild(t, |t.children|, k);
        DoneElsewhere(t.children[k], totals, i, v);
      }
    }
  }

  // ------------------------------------------------------------------- the stack

  datatype Frame = Frame(node: Tree, next: int)     // next child; -1 before the totals are cleared

  /** The first `n` entries of the node have been added into its totals. */
  ghost predicate Added(t: Tree, n: int, totals: seq<Totals>)
  {
    && t.Dir? && 0 <= n <= |t.children| && t.id < |totals| && totals[t.id] == FoldFirst(t, n)
    && forall k {:trigger t.children[k]} :: 0 <= k < n ==> Done(t.children[k], totals)
  }

  /** A write below the child that is waited for does not disturb what was added. */
  lemma AddedElsewhere(t: Tree, n: nat, totals: seq<Totals>, i: nat, v: Totals)
    requires Proper(t) && Added(t, n, totals) && n < |t.children| && i in Ids(t.children[n]) && i < |totals|
    ensures Added(t, n, totals[i := v])
  {
    IdsOfChild(t, |t.children|, n);
    forall k {:trigger t.children[k]} | 0 <= k < n
      ensures Done(t.children[k], totals[i := v])
    {
      assert Ids(t.children[k]) !! Ids(t.children[n]);
      DoneElsewhere(t.children[k], totals, i, v);
    }
  }

  /** A frame that waits for the child that the frame above it holds. */
  ghost predicate WaitsFor(f: Frame, child: Tree, totals: seq<Totals>)
  {
    && Proper(f.node) && f.node.Dir? && 1 <= f.next <= |f.node.children|
    && Added(f.node, f.next - 1, totals)
    && child.Dir? && child == f.node.children[f.next - 1]
  }

  /** The node of the frame above the `j`-th. */
  ghost function Above(rest: seq<Frame>, top: Tree, j: nat): Tree
  {
    if j + 1 < |rest| then rest[j + 1].node else top
  }

  /** A stack: `rest`, and above it a frame that holds `top`. */
  ghost predicate Waits(rest: seq<Frame>, top: Tree, totals: seq<Totals>)
  {
    forall j {:trigger rest[j]} :: 0 <= j < |rest| ==> WaitsFor(rest[j], Above(rest, top, j), totals)
  }

  lemma {:induction false} TopIsBelow(rest: seq<Frame>, top: Tree, totals: seq<Totals>, j: nat)
    requires Waits(rest, top, totals) && j < |rest|
    ensures WaitsFor(rest[j], Above(rest, top, j), totals)
    ensures Ids(top) <= Ids(Above(rest, top, j))
    decreases |rest| - j
  {
    hide Ids, IdsFirst, Proper, Added;
    if j + 1 < |rest| {
      TopIsBelow(rest, top, totals, j + 1);
      var t := rest[j + 1].node;
      IdsOfChild(t, |t.children|, rest[j + 1].next - 1);
      IdsOfDir(t);
    }
  }

  lemma WaitsForElsewhere(f: Frame, child: Tree, totals: seq<Totals>, i: nat, v: Totals)
    requires WaitsFor(f, child, totals) && i in Ids(child) && i < |totals|
    ensures WaitsFor(f, child, totals[i := v])
  {
    AddedElsewhere(f.node, f.next - 1, totals, i, v);
  }

  /** A write at the top node or below it keeps the frames under it. */
  lemma WaitsElsewhere(rest: seq<Frame>, top: Tree, totals: seq<Totals>, i: nat, v: Totals)
    requires Waits(rest, top, totals) && i in Ids(top) && i < |totals|
    ensures Waits(rest, top, totals[i := v])
  {
    hide WaitsFor, Ids;
    forall j {:trigger rest[j]} | 0 <= j < |rest|
      ensures WaitsFor(rest[j], Above(rest, top, j), totals[i := v])
    {
      TopIsBelow(rest, top, totals, j);
      WaitsForElsewhere(rest[j], Above(rest, top, j), totals, i, v);
    }
  }

  // ------------------------------------------------------------------ termination

  /** Rounds of the loop that a directory still needs from entry `n` on. */
  ghost function Rounds(t: Tree, n: nat): nat
    requires t.Dir? && n <= |t.children|
    decreases t, |t.children| - n
  {
    if n == |t.children| then 1
    else 1 + (if t.children[n].Dir? then Rounds(t.children[n], 0) else 0) + Rounds(t, n + 1)
  }

  ghost function Left(f: Frame): nat
  {
    if f.node.File? || f.next > |f.node.children| then 1 else Rounds(f.node, if f.next < 0 then 0 else f.next)
  }

  ghost function TotalLeft(stack: seq<Frame>): nat
  {
    if stack == [] then 0 else TotalLeft(stack[..|stack| - 1]) + Left(stack[|stack| - 1])
  }

  lemma LeftOf(rest: seq<Frame>, f: Frame)
    ensures TotalLeft(rest + [f]) == TotalLeft(rest) + Left(f)
  {
    assert (rest + [f])[..|rest|] == rest;
  }

  // --------------------------------------------------------------------- the loop

  /** The last frame: nothing done yet, or some entries added. */
  ghost predicate TopSound(f: Frame, totals: seq<Totals>)
  {
    f.next == -1 || Added(f.node, f.next, totals)
  }

  /** The loop: `rest` waits for `f`, and only nodes of the tree are written. */
  ghost predicate Sound(root: Tree, rest: seq<Frame>, f: Frame, totals: seq<Totals>, first: seq<Totals>)
  {
    && Proper(f.node) && Fits(f.node, |totals|) && Fits(root, |totals|)
    && Waits(rest, f.node, totals) && TopSound(f, totals)
    && (if rest == [] then f.node else rest[0].node) == root
    && Outside(root, totals, first)
  }

  ghost predicate Outside(root: Tree, totals: seq<Totals>, first: seq<Totals>)
  {
    |totals| == |first| && forall i {:trigger totals[i]} :: 0 <= i < |totals| && i !in Ids(root) ==> totals[i] == first[i]
  }

  lemma OwnId(t: Tree)
    ensures t.id in Ids(t)
  {
  }

  lemma BelowRoot(root: Tree, rest: seq<Frame>, top: Tree, totals: seq<Totals>)
    requires Waits(rest, top, totals) && (if rest == [] then top else rest[0].node) == root
    ensures Ids(top) <= Ids(root)
  {
    hide Ids, IdsFirst, Proper, Added;
    if rest != [] {
      TopIsBelow(rest, top, totals, 0);
      IdsOfChild(root, |root.children|, rest[0].next - 1);
      IdsOfDir(root);
    }
  }

  lemma OutsideKept(root: Tree, totals: seq<Totals>, first: seq<Totals>, i: nat, v: Totals)
    requires Outside(root, totals, first) && i in Ids(root) && i < |totals|
    ensures Outside(root, totals[i := v], first)
  {
  }

  /** The totals of the last frame's node are cleared. */
  lemma Cleared(root: Tree, rest: seq<Frame>, f: Frame, totals: seq<Totals>, first: seq<Totals>)
    requires Sound(root, rest, f, totals, first) && f.node.Dir? && f.next == -1
    ensures f.node.id < |totals|
    ensures Sound(root, rest, f.(next := 0), totals[f.node.id := Totals(0, 0, 0)], first)
  {
    var i := f.node.id;
    assert i < |totals|;
    hide Waits, Ids, Outside;
    OwnId(f.node);
    BelowRoot(root, rest, f.node, totals);
    WaitsElsewhere(rest, f.node, totals, i, Totals(0, 0, 0));
    OutsideKept(root, totals, first, i, Totals(0, 0, 0));
  }

  /** One more entry has been added to the last frame's node. */
  lemma AddedMore(t: Tree, n: nat, totals: seq<Totals>, v: Totals)
    requires Proper(t) && Added(t, n, totals) && n < |t.children| && Done(t.children[n], totals)
    requires v == FoldFirst(t, n + 1)
    ensures Added(t, n + 1, totals[t.id := v])
  {
    forall k {:trigger t.children[k]} | 0 <= k < n + 1
      ensures Done(t.children[k], totals[t.id := v])
    {
      IdsOfChild(t, |t.children|, k);
      DoneElsewhere(t.children[k], totals, t.id, v);
    }
  }

  function FileAdded(t: Totals, size: nat): Totals
  {
    Totals(t.size + size, t.files + 1, t.dirs)
  }

  lemma FileDone(root: Tree, rest: seq<Frame>, f: Frame, totals: seq<Totals>, first: seq<Totals>)
    requires Sound(root, rest, f, totals, first) && f.node.Dir? && 0 <= f.next < |f.node.children| && f.node.children[f.next].File?
    ensures var c := f.node.children[f.next];
      && f.node.id < |totals| && c.id < |totals| && c.id != f.node.id
      && var totals' := totals[c.id := totals[c.id].(size := c.size)];
         Sound(root, rest, f.(next := f.next + 1), totals'[f.node.id := FileAdded(totals[f.node.id], c.size)], first)
  {
    hide *;
    SoundParts(root, rest, f, totals, first);
    var t, n := f.node, f.next;
    var c := t.children[n];
    TopIsAdded(f, totals);
    FitsBoth(t, n, |totals|);
    FileAddedToNode(t, n, totals);
    var v := totals[c.id].(size := c.size);
    var w := FileAdded(totals[t.id], c.size);
    var totals' := totals[c.id := v];
    OwnId(t);
    OwnId(c);
    IdsOfChild(t, |t.children|, n);
    IdsOfDir(t);
    BelowRoot(root, rest, t, totals);
    WaitsElsewhere(rest, t, totals, c.id, v);
    WaitsElsewhere(rest, t, totals', t.id, w);
    OutsideKept(root, totals, first, c.id, v);
    OutsideKept(root, totals', first, t.id, w);
    SoundWhole(root, rest, f.(next := n + 1), totals'[t.id := w], first);
  }

  lemma TopIsAdded(f: Frame, totals: seq<Totals>)
    requires TopSound(f, totals) && f.next != -1
    ensures Added(f.node, f.next, totals)
  {
  }

  lemma FitsBoth(t: Tree, n: nat, places: nat)
    requires Fits(t, places) && t.Dir? && n < |t.children|
    ensures t.id < places && t.children[n].id < places
  {
    assert Fits(t.children[n], places);
  }

  lemma IdsOfDir(t: Tree)
    requires t.Dir?
    ensures IdsFirst(t, |t.children|) <= Ids(t)
  {
  }

  lemma FileAddedToNode(t: Tree, n: nat, totals: seq<Totals>)
    requires Proper(t) && Added(t, n, totals) && n < |t.children| && t.children[n].File? && t.children[n].id < |totals|
    ensures t.children[n].id != t.id
    ensures var c := t.children[n];
      Added(t, n + 1, totals[c.id := totals[c.id].(size := c.size)][t.id := FileAdded(totals[t.id], c.size)])
  {
    var c := t.children[n];
    IdsOfChild(t, |t.children|, n);
    AddedElsewhere(t, n, totals, c.id, totals[c.id].(size := c.size));
    AddedMore(t, n, totals[c.id := totals[c.id].(size := c.size)], FileAdded(totals[t.id], c.size));
  }

  lemma ChildPushed(root: Tree, rest: seq<Frame>, f: Frame, totals: seq<Totals>, first: seq<Totals>)
    requires Sound(root, rest, f, totals, first) && f.node.Dir? && 0 <= f.next < |f.node.children| && f.node.children[f.next].Dir?
    ensures Sound(root, rest + [f.(next := f.next + 1)], Frame(f.node.children[f.next], -1), totals, first)
  {
    var f' := f.(next := f.next + 1);
    var more := rest + [f'];
    var c := f.node.children[f.next];
    assert Proper(c) && Fits(c, |totals|);
    assert WaitsFor(f', c, totals);
    hide Proper, Fits, Added, WaitsFor, Outside;
    forall j {:trigger more[j]} | 0 <= j < |more|
      ensures WaitsFor(more[j], Above(more, c, j), totals)
    {
      if j < |rest| { assert more[j] == rest[j] && Above(more, c, j) == Above(rest, f.node, j); }
    }
  }

  function DirAdded(p: Totals, t: Totals): Totals
  {
    Totals(p.size + t.size, p.files + t.files, p.dirs + 1 + t.dirs)
  }

  lemma NodeDone(root: Tree, rest: seq<Frame>, f: Frame, totals: seq<Totals>, first: seq<Totals>)
    requires Sound(root, rest, f, totals, first) && f.node.Dir? && f.next >= |f.node.children|
    ensures rest == [] ==> Done(root, totals) && Outside(root, totals, first)
    ensures rest != [] ==>
      var p := rest[|rest| - 1];
      && p.node.id < |totals| && f.node.id < |totals| && p.node.id != f.node.id
      && Sound(root, rest[..|rest| - 1], p, totals[p.node.id := DirAdded(totals[p.node.id], totals[f.node.id])], first)
  {
    hide *;
    SoundParts(root, rest, f, totals, first);
    AllAdded(f, totals);
    if rest != [] {
      var n := |rest| - 1;
      var p := rest[n];
      Popped(rest, f.node, totals);
      DirAddedToNode(p, f.node, totals);
      var v := DirAdded(totals[p.node.id], totals[f.node.id]);
      FitsBelow(root, rest[..n], p.node, totals);
      OwnId(p.node);
      BelowRoot(root, rest[..n], p.node, totals);
      WaitsElsewhere(rest[..n], p.node, totals, p.node.id, v);
      OutsideKept(root, totals, first, p.node.id, v);
      FitsParts(p.node, |totals|);
      FitsParts(f.node, |totals|);
      SoundWhole(root, rest[..n], p, totals[p.node.id := v], first);
    }
  }

  lemma FitsParts(t: Tree, n: nat)
    requires Fits(t, n)
    ensures t.id < n
  {
  }

  lemma SoundParts(root: Tree, rest: seq<Frame>, f: Frame, totals: seq<Totals>, first: seq<Totals>)
    requires Sound(root, rest, f, totals, first)
    ensures Proper(f.node) && Fits(f.node, |totals|) && Fits(root, |totals|)
    ensures Waits(rest, f.node, totals) && TopSound(f, totals) && Outside(root, totals, first)
    ensures (if rest == [] then f.node else rest[0].node) == root
  {
  }

  lemma SoundWhole(root: Tree, rest: seq<Frame>, f: Frame, totals: seq<Totals>, first: seq<Totals>)
    requires Proper(f.node) && Fits(f.node, |totals|) && Fits(root, |totals|) && Waits(rest, f.node, totals)
    requires Added(f.node, f.next, totals) && Outside(root, totals, first)
    requires (if rest == [] then f.node else rest[0].node) == root
    ensures Sound(root, rest, f, totals, first)
  {
  }

  lemma AllAdded(f: Frame, totals: seq<Totals>)
    requires TopSound(f, totals) && f.node.Dir? && f.next >= |f.node.children|
    ensures Done(f.node, totals)
  {
  }

  /** What waits under the top is whole once the child is done. */
  lemma EntryAdded(t: Tree, n: nat, totals: seq<Totals>)
    requires Proper(t) && Added(t, n, totals) && n < |t.children| && t.children[n].Dir? && Done(t.children[n], totals)
    ensures t.children[n].id < |totals| && t.id < |totals| && t.id != t.children[n].id
    ensures DirAdded(totals[t.id], totals[t.children[n].id]) == FoldFirst(t, n + 1)
  {
    hide Proper, Ids;
    IdApart(t, n);
    OwnId(t.children[n]);
  }

  lemma DirAddedToNode(p: Frame, t: Tree, totals: seq<Totals>)
    requires WaitsFor(p, t, totals) && Done(t, totals)
    ensures p.node.id < |totals| && p.node.id != t.id && t.id < |totals| && Proper(p.node)
    ensures Added(p.node, p.next, totals[p.node.id := DirAdded(totals[p.node.id], totals[t.id])])
  {
    hide Added, Done, Proper, Fold, FoldFirst;
    EntryAdded(p.node, p.next - 1, totals);
    AddedMore(p.node, p.next - 1, totals, DirAdded(totals[p.node.id], totals[t.id]));
  }

  lemma IdApart(t: Tree, k: nat)
    requires t.Dir? && Proper(t) && k < |t.children|
    ensures t.id !in Ids(t.children[k])
  {
    IdsOfChild(t, |t.children|, k);
  }

  lemma Popped(rest: seq<Frame>, top: Tree, totals: seq<Totals>)
    requires Waits(rest, top, totals) && rest != []
    ensures WaitsFor(rest[|rest| - 1], top, totals)
    ensures Waits(rest[..|rest| - 1], rest[|rest| - 1].node, totals)
  {
    var n := |rest| - 1;
    var less, p := rest[..n], rest[n].node;
    hide WaitsFor;
    assert WaitsFor(rest[n], Above(rest, top, n), totals);
    forall j {:trigger less[j]} | 0 <= j < |less|
      ensures WaitsFor(less[j], Above(less, p, j), totals)
    {
      assert less[j] == rest[j] && Above(less, p, j) == Above(rest, top, j);
    }
  }

  lemma {:induction false} FitsBelow(root: Tree, rest: seq<Frame>, top: Tree, totals: seq<Totals>)
    requires Waits(rest, top, totals) && (if rest == [] then top else rest[0].node) == root && Fits(root, |totals|)
    ensures Fits(top, |totals|)
    decreases |rest|
  {
    if rest != [] {
      var n := |rest| - 1;
      Popped(rest, top, totals);
      FitsBelow(root, rest[..n], rest[n].node, totals);
      assert WaitsFor(rest[n], Above(rest, top, n), totals);
    }
  }

  lemma OnlyRootIsFile(root: Tree, rest: seq<Frame>, f: Frame, totals: seq<Totals>, first: seq<Totals>)
    requires Sound(root, rest, f, totals, first) && f.node.File?
    ensures rest == [] && root.id < |totals| && f.node == root
    ensures var totals' := totals[root.id := totals[root.id].(size := f.node.size)];
      Done(root, totals') && Outside(root, totals', first)
  {
    if rest != [] { TopIsBelow(rest, f.node, totals, |rest| - 1); }
    OwnId(root);
  }

  lemma NextInRange(root: Tree, rest: seq<Frame>, f: Frame, totals: seq<Totals>, first: seq<Totals>)
    requires Sound(root, rest, f, totals, first) && f.next != -1
    ensures f.next >= 0
  {
  }

  /** Adding a file or entering a directory leaves fewer rounds. */
  lemma Counting(rest: seq<Frame>, f0: Frame, f: Frame)
    requires f.node == f0.node && f.node.Dir? && 0 <= f.next < |f.node.children| && (f0.next == f.next || (f0.next == -1 && f.next == 0))
    ensures TotalLeft(rest + [f0]) > TotalLeft(rest + [f.(next := f.next + 1)])
    ensures f.node.children[f.next].Dir? ==>
      TotalLeft(rest + [f0]) > TotalLeft(rest + [f.(next := f.next + 1)] + [Frame(f.node.children[f.next], -1)])
  {
    var f' := f.(next := f.next + 1);
    LeftOf(rest, f0);
    LeftOf(rest, f');
    LeftOf(rest + [f'], Frame(f.node.children[f.next], -1));
  }

  lemma Popping(rest: seq<Frame>, f: Frame)
    ensures TotalLeft(rest + [f]) > TotalLeft(rest)
  {
    LeftOf(rest, f);
  }

  method AddFile(node: Tree, c: Tree, totals: array<Totals>)
    requires c.File? && node.id < totals.Length && c.id < totals.Length && c.id != node.id
    modifies totals
    ensures totals[..] == old(totals[..])[c.id := old(totals[c.id]).(size := c.size)][node.id := FileAdded(old(totals[node.id]), c.size)]
  {
    totals[c.id] := totals[c.id].(size := c.size);
    totals[node.id] := totals[node.id].(files := totals[node.id].files + 1);
    totals[node.id] := totals[node.id].(size := totals[node.id].size + totals[c.id].size);
  }

  method AddDir(parent: Tree, node: Tree, totals: array<Totals>)
    requires parent.id < totals.Length && node.id < totals.Length && parent.id != node.id
    modifies totals
    ensures totals[..] == old(totals[..])[parent.id := DirAdded(old(totals[parent.id]), old(totals[node.id]))]
  {
    totals[parent.id] := totals[parent.id].(dirs := totals[parent.id].dirs + 1 + totals[node.id].dirs);
    totals[parent.id] := totals[parent.id].(files := totals[parent.id].files + totals[node.id].files);
    totals[parent.id] := totals[parent.id].(size := totals[parent.id].size + totals[node.id].size);
  }

  lemma Start(root: Tree, totals: seq<Totals>)
    requires Proper(root) && Fits(root, |totals|)
    ensures root.id < |totals| && root.id in Ids(root)
    ensures Sound(root, [], Frame(root, -1), totals, totals)
    ensures root.File? ==> Done(root, totals[root.id := totals[root.id].(size := root.size)])
  {
  }

  /** The loop ends, and leaves with every directory the totals of the recursive
      fold over its subtree; nothing outside the tree is written. */
  method Aggregate(root: Tree, totals: array<Totals>)
    requires Proper(root) && Fits(root, totals.Length)
    modifies totals
    ensures Done(root, totals[..]) && Outside(root, totals[..], old(totals[..]))
  {
    hide Proper, Fits, Done, Waits, Ids, Added, TopSound, Fold, FoldFirst, Sound, Outside, TotalLeft;
    ghost var first := totals[..];
    Start(root, first);
    var stack := [Frame(root, -1)];
    assert stack[..0] == [];
    while stack != []
      invariant stack != [] ==>
        Sound(root, stack[..|stack| - 1], stack[|stack| - 1], totals[..], first)
      invariant stack == [] ==> Done(root, totals[..]) && Outside(root, totals[..], first)
      decreases TotalLeft(stack)
    {
      var frame := stack[|stack| - 1];
      ghost var rest := stack[..|stack| - 1];
      var node := frame.node;
      assert stack == rest + [frame];
      if node.File? {
        OnlyRootIsFile(root, rest, frame, totals[..], first);
        Popping(rest, frame);
        totals[node.id] := totals[node.id].(size := node.size);
        stack := stack[..|stack| - 1];
        continue;
      }
      if frame.next == -1 {
        Cleared(root, rest, frame, totals[..], first);
        totals[node.id] := Totals(0, 0, 0);
        frame := frame.(next := 0);
      }
      NextInRange(root, rest, frame, totals[..], first);
      if frame.next < |node.children| {
        var c := node.children[frame.next];
        Counting(rest, stack[|stack| - 1], frame);
        stack := stack[|stack| - 1 := frame.(next := frame.next + 1)];
        assert stack == rest + [frame.(next := frame.next + 1)];
        if c.File? {
          FileDone(root, rest, frame, totals[..], first);
          AddFile(node, c, totals);
        } else {
          ChildPushed(root, rest, frame, totals[..], first);
          stack := stack + [Frame(c, -1)];
        }
      } else {
        NodeDone(root, rest, frame, totals[..], first);
        Popping(rest, stack[|stack| - 1]);
        stack := stack[..|stack| - 1];
        assert stack == rest;
        if stack != [] {
          AddDir(stack[|stack| - 1].node, node, totals);
        }
      }
    }
  }
}
