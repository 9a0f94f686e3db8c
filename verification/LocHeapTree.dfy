/** The size-guided binary heap as a value.

  `Tree` is what a `LocHeapNode*` denotes: the cached size, the data and the two subtrees.
  `Push`, `Pop` and `Remove` follow the three recursive methods branch by branch, reading the
  cached sizes and never the true ones, so nothing about them is assumed here: that the cached
  sizes are exact and that the order holds is proved, over any run of operations.
  */
module LocHeapTree {
  import opened Options

  /** An object that can be ranked. `id` stands for its address, `rank` for its place in the total
      preorder that `ranks` induces; two objects may rank equally. */
  datatype Rankable = Rankable(id: nat, rank: int)

  function Ranks(a: Rankable, b: Rankable): int {
    a.rank - b.rank
  }

  predicate OutRanks(a: Rankable, b: Rankable) {
    Ranks(a, b) > 0
  }

  datatype Tree = Nil | Node(size: int, data: Rankable, left: Tree, right: Tree)

  function Single(x: Rankable): Tree {
    Node(1, x, Nil, Nil)
  }

  ghost function Contents(t: Tree): multiset<Rankable> {
    if t.Nil? then multiset{} else multiset{t.data} + Contents(t.left) + Contents(t.right)
  }

  /** How often an object occurs: `Contents` pointwise. */
  function Occurrences(t: Tree, y: Rankable): nat {
    if t.Nil? then 0
    else (if t.data == y then 1 else 0) + Occurrences(t.left, y) + Occurrences(t.right, y)
  }

  lemma {:induction false} ContentsAt(t: Tree, y: Rankable)
    ensures Contents(t)[y] == Occurrences(t, y)
  {
    if t.Node? {
      ContentsAt(t.left, y);
      ContentsAt(t.right, y);
    }
  }

  /** Two trees agree on contents up to one object if they do so pointwise. */
  lemma ContentsDiffer(t: Tree, u: Tree, x: Rankable)
    requires forall y :: Occurrences(t, y) == Occurrences(u, y) + if x == y then 1 else 0
    ensures Contents(t) == Contents(u) + multiset{x}
  {
    forall y ensures Contents(t)[y] == Contents(u)[y] + if x == y then 1 else 0 {
      ContentsAt(t, y);
      ContentsAt(u, y);
    }
    OneMore(Contents(t), Contents(u), x);
  }

  lemma OneMore(a: multiset<Rankable>, b: multiset<Rankable>, x: Rankable)
    requires forall y :: a[y] == b[y] + if x == y then 1 else 0
    ensures a == b + multiset{x}
  {
  }

  function Count(t: Tree): nat {
    if t.Nil? then 0 else 1 + Count(t.left) + Count(t.right)
  }

  function Height(t: Tree): nat {
    if t.Nil? then 0
    else 1 + if Height(t.left) > Height(t.right) then Height(t.left) else Height(t.right)
  }

  /** No child outranks its parent. */
  predicate HeapOrdered(t: Tree) {
    t.Node? ==>
      && (t.left.Node? ==> !OutRanks(t.left.data, t.data))
      && (t.right.Node? ==> !OutRanks(t.right.data, t.data))
      && HeapOrdered(t.left)
      && HeapOrdered(t.right)
  }

  /** Every cached size is the number of nodes below and including it. */
  predicate SizesExact(t: Tree) {
    t.Node? ==> t.size == Count(t) && SizesExact(t.left) && SizesExact(t.right)
  }

  predicate Sound(t: Tree) {
    HeapOrdered(t) && SizesExact(t)
  }

  // ---------- The three operations ----------

  /** Which side the newcomer enters: an empty side first, left before right, else the smaller. */
  predicate GoesLeft(t: Tree)
    requires t.Node?
  {
    t.left.Nil? || (t.right.Node? && t.left.size <= t.right.size)
  }

  /** The higher-ranked of newcomer and top stays; the other one goes down. */
  function Stays(t: Tree, x: Rankable): Rankable
    requires t.Node?
  {
    if OutRanks(x, t.data) then x else t.data
  }

  function Sinks(t: Tree, x: Rankable): Rankable
    requires t.Node?
  {
    if OutRanks(x, t.data) then t.data else x
  }

  function Push(t: Tree, x: Rankable): Tree {
    if t.Nil? then Single(x)
    else if GoesLeft(t) then Node(t.size + 1, Stays(t, x), Push(t.left, Sinks(t, x)), t.right)
    else Node(t.size + 1, Stays(t, x), t.left, Push(t.right, Sinks(t, x)))
  }

  /** Which subtree gives up its top to replace the popped one. */
  predicate TakesLeft(t: Tree)
    requires t.Node? && (t.left.Node? || t.right.Node?)
  {
    t.left.Node? && (t.right.Nil? || OutRanks(t.left.data, t.right.data))
  }

  function Pop(t: Tree): Tree
    requires t.Node?
  {
    if t.left.Nil? && t.right.Nil? then Nil
    else if TakesLeft(t) then Node(t.size - 1, t.left.data, Pop(t.left), t.right)
    else Node(t.size - 1, t.right.data, t.left, Pop(t.right))
  }

  datatype Removal = Removal(tree: Tree, found: bool)

  function Remove(t: Tree, x: Rankable): Removal
    requires t.Node?
  {
    if x == t.data then Removal(Pop(t), true)
    else if OutRanks(x, t.data) then Removal(t, false)
    else
      var l := if t.left.Node? then Remove(t.left, x) else Removal(t.left, false);
      if l.found then Removal(Node(t.size - 1, t.data, l.tree, t.right), true)
      else
        var r := if t.right.Node? then Remove(t.right, x) else Removal(t.right, false);
        if r.found then Removal(Node(t.size - 1, t.data, t.left, r.tree), true)
        else Removal(t, false)
  }

  /** What `peek` shows. */
  function TopOf(t: Tree): Option<Rankable> {
    if t.Nil? then None else Some(t.data)
  }

  /** Removal from a heap that may be empty. */
  function RemoveFrom(t: Tree, x: Rankable): Removal {
    if t.Nil? then Removal(Nil, false) else Remove(t, x)
  }

  // ---------- What each operation keeps and changes ----------

  /** Nothing in an ordered tree outranks its top. */
  lemma {:induction false} TopIsHighest(t: Tree, x: Rankable)
    requires t.Node? && HeapOrdered(t) && x in Contents(t)
    ensures !OutRanks(x, t.data)
  {
    if x in Contents(t.left) {
      TopIsHighest(t.left, x);
    } else if x in Contents(t.right) {
      TopIsHighest(t.right, x);
    }
  }

  lemma {:induction false} PushCount(t: Tree, x: Rankable)
    ensures Count(Push(t, x)) == Count(t) + 1
  {
    if t.Node? {
      if GoesLeft(t) { PushCount(t.left, Sinks(t, x)); } else { PushCount(t.right, Sinks(t, x)); }
    }
  }

  lemma {:induction false} PushOccurrences(t: Tree, x: Rankable, y: Rankable)
    ensures Occurrences(Push(t, x), y) == Occurrences(t, y) + if x == y then 1 else 0
  {
    if t.Node? {
      if GoesLeft(t) {
        PushOccurrences(t.left, Sinks(t, x), y);
      } else {
        PushOccurrences(t.right, Sinks(t, x), y);
      }
    }
  }

  lemma {:induction false} PushContents(t: Tree, x: Rankable)
    ensures Contents(Push(t, x)) == Contents(t) + multiset{x}
  {
    forall y ensures Occurrences(Push(t, x), y) == Occurrences(t, y) + if x == y then 1 else 0 {
      PushOccurrences(t, x, y);
    }
    ContentsDiffer(Push(t, x), t, x);
  }

  /** Push keeps order and sizes; the new top is the newcomer only if it strictly outranks the old. */
  lemma {:induction false} PushSound(t: Tree, x: Rankable)
    requires Sound(t)
    ensures Sound(Push(t, x))
    ensures Push(t, x).data == if t.Node? then Stays(t, x) else x
  {
    PushCount(t, x);
    if t.Node? {
      if GoesLeft(t) { PushSound(t.left, Sinks(t, x)); } else { PushSound(t.right, Sinks(t, x)); }
    }
  }

  lemma {:induction false} PopCount(t: Tree)
    requires t.Node?
    ensures Count(Pop(t)) == Count(t) - 1
  {
    if t.left.Node? || t.right.Node? {
      if TakesLeft(t) { PopCount(t.left); } else { PopCount(t.right); }
    }
  }

  lemma {:induction false} PopOccurrences(t: Tree, y: Rankable)
    requires t.Node?
    ensures Occurrences(t, y) == Occurrences(Pop(t), y) + if t.data == y then 1 else 0
  {
    if t.left.Node? || t.right.Node? {
      if TakesLeft(t) { PopOccurrences(t.left, y); } else { PopOccurrences(t.right, y); }
    }
  }

  lemma {:induction false} PopContents(t: Tree)
    requires t.Node?
    ensures Contents(t) == Contents(Pop(t)) + multiset{t.data}
  {
    forall y ensures Occurrences(t, y) == Occurrences(Pop(t), y) + if t.data == y then 1 else 0 {
      PopOccurrences(t, y);
    }
    ContentsDiffer(t, Pop(t), t.data);
  }

  lemma {:induction false} PopSound(t: Tree)
    requires t.Node? && Sound(t)
    ensures Sound(Pop(t))
    ensures Pop(t).Node? ==> !OutRanks(Pop(t).data, t.data)
  {
    PopCount(t);
    if t.left.Node? || t.right.Node? {
      if TakesLeft(t) { PopSound(t.left); } else { PopSound(t.right); }
    }
  }

  /** The popped data travels down without taking part in any decision on its way. */
  lemma PopIgnoresTop(t: Tree, x: Rankable)
    requires t.Node?
    ensures Pop(t.(data := x)) == Pop(t)
    ensures Count(t.(data := x)) == Count(t)
  {
  }

  lemma {:induction false} RemoveMisses(t: Tree, x: Rankable)
    requires t.Node?
    ensures !Remove(t, x).found ==> Remove(t, x).tree == t
  {
    if x != t.data && !OutRanks(x, t.data) {
      if t.left.Node? { RemoveMisses(t.left, x); }
      if t.right.Node? { RemoveMisses(t.right, x); }
    }
  }

  lemma RemoveFromMisses(t: Tree, x: Rankable)
    ensures !RemoveFrom(t, x).found ==> RemoveFrom(t, x).tree == t
  {
    if t.Node? { RemoveMisses(t, x); }
  }

  /** Removal below the top, in terms of what it does to the two subtrees. */
  lemma RemoveBelowTop(t: Tree, x: Rankable)
    requires t.Node? && x != t.data && !OutRanks(x, t.data)
    ensures var l, r := RemoveFrom(t.left, x), RemoveFrom(t.right, x);
      var found := l.found || r.found;
      Remove(t, x) == Removal(Node(if found then t.size - 1 else t.size, t.data, l.tree,
                                   if l.found then t.right else r.tree), found)
  {
    if t.left.Node? { RemoveMisses(t.left, x); }
    if t.right.Node? { RemoveMisses(t.right, x); }
  }

  lemma {:induction false} RemoveFinds(t: Tree, x: Rankable)
    requires t.Node? && HeapOrdered(t)
    ensures Remove(t, x).found <==> x in Contents(t)
  {
    if x in Contents(t) { TopIsHighest(t, x); }
    if x != t.data {
      if t.left.Node? { RemoveFinds(t.left, x); }
      if t.right.Node? { RemoveFinds(t.right, x); }
    }
  }

  lemma {:induction false} RemoveOccurrences(t: Tree, x: Rankable, y: Rankable)
    requires t.Node?
    ensures Remove(t, x).found ==>
              Occurrences(t, y) == Occurrences(Remove(t, x).tree, y) + if x == y then 1 else 0
  {
    if x == t.data {
      PopOccurrences(t, y);
    } else {
      if t.left.Node? { RemoveOccurrences(t.left, x, y); }
      if t.right.Node? { RemoveOccurrences(t.right, x, y); }
    }
  }

  /** Pruning by rank loses nothing: an object is found exactly when it is present, one occurrence
      goes, and an object that is absent leaves the tree as it was. */
  lemma {:induction false} RemoveContents(t: Tree, x: Rankable)
    requires t.Node? && HeapOrdered(t)
    ensures Remove(t, x).found <==> x in Contents(t)
    ensures Remove(t, x).found ==> Contents(t) == Contents(Remove(t, x).tree) + multiset{x}
    ensures !Remove(t, x).found ==> Remove(t, x).tree == t
  {
    RemoveFinds(t, x);
    RemoveMisses(t, x);
    if Remove(t, x).found {
      var u := Remove(t, x).tree;
      forall y ensures Occurrences(t, y) == Occurrences(u, y) + if x == y then 1 else 0 {
        RemoveOccurrences(t, x, y);
      }
      ContentsDiffer(t, u, x);
    }
  }

  lemma {:induction false} RemoveCount(t: Tree, x: Rankable)
    requires t.Node?
    ensures Remove(t, x).found ==> Count(Remove(t, x).tree) == Count(t) - 1
  {
    if x == t.data {
      PopCount(t);
    } else {
      if t.left.Node? { RemoveCount(t.left, x); }
      if t.right.Node? { RemoveCount(t.right, x); }
    }
  }

  /** Removal keeps order and sizes, and disturbs the top only when it removes the top itself. */
  lemma {:induction false} RemoveSound(t: Tree, x: Rankable)
    requires t.Node? && Sound(t)
    ensures Sound(Remove(t, x).tree)
    ensures Remove(t, x).tree.Node? ==> !OutRanks(Remove(t, x).tree.data, t.data)
    ensures x != t.data ==> Remove(t, x).tree.Node? && Remove(t, x).tree.data == t.data
  {
    RemoveCount(t, x);
    if x == t.data {
      PopSound(t);
    } else {
      if t.left.Node? { RemoveSound(t.left, x); }
      if t.right.Node? { RemoveSound(t.right, x); }
    }
  }

  lemma {:induction false} CountIsCardinality(t: Tree)
    ensures |Contents(t)| == Count(t)
  {
    if t.Node? {
      CountIsCardinality(t.left);
      CountIsCardinality(t.right);
    }
  }

  /** The consistency check of the unit tests: local comparisons and cached sizes only. */
  predicate CheckNodes(t: Tree)
    requires t.Node?
  {
    && (t.left.Node? ==> !OutRanks(t.left.data, t.data) && CheckNodes(t.left))
    && (t.right.Node? ==> !OutRanks(t.right.data, t.data) && CheckNodes(t.right))
    && t.size - (if t.left.Nil? then 0 else t.left.size)
              - (if t.right.Nil? then 0 else t.right.size) == 1
  }

  /** The check accepts exactly the trees that are ordered with exact sizes. */
  lemma {:induction false} CheckNodesMeansSound(t: Tree)
    requires t.Node?
    ensures CheckNodes(t) <==> Sound(t)
  {
    if t.left.Node? { CheckNodesMeansSound(t.left); }
    if t.right.Node? { CheckNodesMeansSound(t.right); }
    assert Sound(t) <==> HeapOrdered(t) && t.size == Count(t) && Sound(t.left) && Sound(t.right);
    assert Sound(t.left) ==> (if t.left.Nil? then 0 else t.left.size) == Count(t.left);
    assert Sound(t.right) ==> (if t.right.Nil? then 0 else t.right.size) == Count(t.right);
  }

  // ---------- Runs of operations ----------

  datatype Op = OpPush(x: Rankable) | OpPop | OpRemove(x: Rankable)

  /** A heap together with what went in and what came out, in order. */
  datatype Ledger = Ledger(tree: Tree, pushed: seq<Rankable>, taken: seq<Rankable>)

  function Apply(l: Ledger, op: Op): Ledger {
    match op
    case OpPush(x) => Ledger(Push(l.tree, x), l.pushed + [x], l.taken)
    case OpPop =>
      if l.tree.Nil? then l else Ledger(Pop(l.tree), l.pushed, l.taken + [l.tree.data])
    case OpRemove(x) =>
      if l.tree.Nil? then l
      else
        var r := Remove(l.tree, x);
        if r.found then Ledger(r.tree, l.pushed, l.taken + [x]) else l
  }

  function RunOps(ops: seq<Op>): Ledger {
    if ops == [] then Ledger(Nil, [], [])
    else Apply(RunOps(ops[..|ops| - 1]), ops[|ops| - 1])
  }

  ghost predicate Accounted(l: Ledger) {
    Contents(l.tree) + multiset(l.taken) == multiset(l.pushed)
  }

  lemma ApplyKeepsHeap(l: Ledger, op: Op)
    requires Sound(l.tree) && Accounted(l)
    ensures Sound(Apply(l, op).tree) && Accounted(Apply(l, op))
  {
    match op
    case OpPush(x) =>
      PushContents(l.tree, x);
      PushSound(l.tree, x);
    case OpPop =>
      if l.tree.Node? { PopContents(l.tree); PopSound(l.tree); }
    case OpRemove(x) =>
      if l.tree.Node? { RemoveContents(l.tree, x); RemoveSound(l.tree, x); }
  }

  /** After any run the heap is ordered, its sizes are exact and it holds exactly what was pushed
      less what was taken. */
  lemma {:induction false} RunKeepsHeap(ops: seq<Op>)
    ensures Sound(RunOps(ops).tree)
    ensures Contents(RunOps(ops).tree) + multiset(RunOps(ops).taken) == multiset(RunOps(ops).pushed)
  {
    if ops != [] {
      RunKeepsHeap(ops[..|ops| - 1]);
      ApplyKeepsHeap(RunOps(ops[..|ops| - 1]), ops[|ops| - 1]);
    }
  }

  /** Whatever the run before it, a pop on a non-empty heap hands out an element that nothing left
      in the heap outranks, and an empty heap hands out nothing. */
  lemma PopTakesTheHighest(ops: seq<Op>)
    ensures var before := RunOps(ops); var after := RunOps(ops + [OpPop]);
      if Contents(before.tree) == multiset{} then after == before
      else
        && |after.taken| == |before.taken| + 1
        && var x := after.taken[|before.taken|];
           && x in Contents(before.tree)
           && Contents(after.tree) == Contents(before.tree) - multiset{x}
           && forall y <- Contents(before.tree) :: !OutRanks(y, x)
  {
    RunKeepsHeap(ops);
    assert (ops + [OpPop])[..|ops|] == ops;
    var t := RunOps(ops).tree;
    if t.Node? {
      PopContents(t);
      assert t.data in Contents(t);
      forall y <- Contents(t) ensures !OutRanks(y, t.data) { TopIsHighest(t, y); }
    }
  }

  // ---------- Draining ----------

  function Drain(t: Tree): seq<Rankable>
    decreases Count(t)
  {
    if t.Nil? then []
    else PopCount(t); [t.data] + Drain(Pop(t))
  }

  ghost predicate RankSorted(s: seq<Rankable>) {
    forall i, j :: 0 <= i < j < |s| ==> !OutRanks(s[j], s[i])
  }

  lemma {:induction false} DrainContents(t: Tree)
    ensures multiset(Drain(t)) == Contents(t)
    decreases Count(t)
  {
    if t.Node? {
      PopCount(t);
      DrainContents(Pop(t));
      PopContents(t);
    }
  }

  lemma {:induction false} DrainIsSorted(t: Tree)
    requires Sound(t)
    ensures RankSorted(Drain(t))
    decreases Count(t)
  {
    if t.Node? {
      PopCount(t);
      PopSound(t);
      DrainIsSorted(Pop(t));
      TopOutranksTheRest(t);
    }
  }

  lemma {:induction false} TopOutranksTheRest(t: Tree)
    requires Sound(t) && t.Node?
    ensures forall j | 0 <= j < |Drain(Pop(t))| :: !OutRanks(Drain(Pop(t))[j], t.data)
  {
    var rest := Drain(Pop(t));
    DrainContents(Pop(t));
    PopContents(t);
    forall j | 0 <= j < |rest| ensures !OutRanks(rest[j], t.data) {
      assert rest[j] in multiset(rest);
      TopIsHighest(t, rest[j]);
    }
  }

  /** Popping until the heap is empty sorts: the same elements, highest rank first. */
  lemma {:induction false} DrainSorts(t: Tree)
    requires Sound(t)
    ensures multiset(Drain(t)) == Contents(t)
    ensures RankSorted(Drain(t))
  {
    DrainContents(t);
    DrainIsSorted(t);
  }

  // ---------- Balance of a tree that is only pushed to ----------

  function PushAll(xs: seq<Rankable>): Tree {
    if xs == [] then Nil else Push(PushAll(xs[..|xs| - 1]), xs[|xs| - 1])
  }

  /** The left side never trails and never leads by more than one. */
  predicate Balanced(t: Tree) {
    t.Node? ==>
      && 0 <= Count(t.left) - Count(t.right) <= 1
      && Balanced(t.left)
      && Balanced(t.right)
  }

  predicate SameShape(t: Tree, u: Tree) {
    if t.Nil? || u.Nil? then t.Nil? && u.Nil?
    else SameShape(t.left, u.left) && SameShape(t.right, u.right)
  }

  lemma {:induction false} PushBalanced(t: Tree, x: Rankable)
    requires SizesExact(t) && Balanced(t)
    ensures SizesExact(Push(t, x)) && Balanced(Push(t, x))
  {
    PushCount(t, x);
    if t.Node? {
      var low := Sinks(t, x);
      if GoesLeft(t) {
        PushBalanced(t.left, low);
        PushCount(t.left, low);
      } else {
        PushBalanced(t.right, low);
        PushCount(t.right, low);
      }
    }
  }

  lemma {:induction false} PushAllBalanced(xs: seq<Rankable>)
    ensures SizesExact(PushAll(xs)) && Balanced(PushAll(xs)) && Count(PushAll(xs)) == |xs|
  {
    if xs != [] {
      PushAllBalanced(xs[..|xs| - 1]);
      PushBalanced(PushAll(xs[..|xs| - 1]), xs[|xs| - 1]);
      PushCount(PushAll(xs[..|xs| - 1]), xs[|xs| - 1]);
    }
  }

  lemma {:induction false} BalanceFixesShape(t: Tree, u: Tree)
    requires Balanced(t) && Balanced(u) && Count(t) == Count(u)
    ensures SameShape(t, u)
  {
    if t.Node? && u.Node? {
      BalanceFixesShape(t.left, u.left);
      BalanceFixesShape(t.right, u.right);
    }
  }

  /** The shape of a push-only tree depends on how many were pushed, not on what or in which order. */
  lemma ShapeDependsOnCountOnly(xs: seq<Rankable>, ys: seq<Rankable>)
    requires |xs| == |ys|
    ensures SameShape(PushAll(xs), PushAll(ys))
  {
    PushAllBalanced(xs);
    PushAllBalanced(ys);
    BalanceFixesShape(PushAll(xs), PushAll(ys));
  }

  function Pow2(n: nat): nat {
    if n == 0 then 1 else 2 * Pow2(n - 1)
  }

  lemma {:induction false} BalancedIsShallow(t: Tree)
    requires t.Node? && Balanced(t)
    ensures Count(t) >= Pow2(Height(t) - 1)
  {
    var l, r := t.left, t.right;
    if l.Node? {
      BalancedIsShallow(l);
      if r.Node? && Height(r) > Height(l) {
        BalancedIsShallow(r);
      }
      assert Height(t) >= 2 && Pow2(Height(t) - 1) == 2 * Pow2(Height(t) - 2);
    }
  }

  /** Height is logarithmic: a push-only tree of height h holds at least 2^(h-1) elements. */
  lemma PushAllIsShallow(xs: seq<Rankable>)
    requires xs != []
    ensures |xs| >= Pow2(Height(PushAll(xs)) - 1)
  {
    PushAllBalanced(xs);
    BalancedIsShallow(PushAll(xs));
  }
}
