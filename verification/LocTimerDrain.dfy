/** One expire message, start to finish, and the container's three message handlers in place.

  The message thread alone touches a container's heap (`HeapsBelongToMessageThread`), so what an
  expire message pops is a function of the heap it finds and the clock it reads.
  */
module LocTimerDrain {
  import opened Sequences
  import opened Options
  import opened LocTimerClock
  import opened LocHeapTree
  import opened LocTimerProtocol
  import opened LocHeaps

  /** No step of a client thread, the poll thread or the clock changes a heap. */
  lemma HeapsBelongToMessageThread(s: State, l: Label, k: Kind)
    requires !l.MsgStep?
    ensures Get(Step(s, l), k).heap == Get(s, k).heap
  {
    match l
    case Start(c, kind, ms) =>
    case Stop(c) =>
    case Destroy(c) =>
    case PollStep =>
    case PollWake(kind, both) =>
    case Tick(to) =>
  }

  // ---------- What an expire message pops ----------

  /** `timerOfNow` outranks the top: the top is due in a later second. */
  predicate Later(x: Rankable, at: Timespec) {
    OutRanks(RankOf(0, at), x)
  }

  function FiredFrom(t: Tree, at: Timespec, first: bool): seq<Rankable>
    decreases Count(t)
  {
    if t.Nil? || (!first && Later(t.data, at)) then []
    else PopCount(t); [t.data] + FiredFrom(Pop(t), at, false)
  }

  function RestFrom(t: Tree, at: Timespec, first: bool): Tree
    decreases Count(t)
  {
    if t.Nil? || (!first && Later(t.data, at)) then t
    else PopCount(t); RestFrom(Pop(t), at, false)
  }

  lemma {:induction false} DrainKeepsContents(t: Tree, at: Timespec, first: bool)
    requires Sound(t)
    ensures multiset(FiredFrom(t, at, first)) + Contents(RestFrom(t, at, first)) == Contents(t)
    ensures Sound(RestFrom(t, at, first))
    decreases Count(t)
  {
    if t.Node? && (first || !Later(t.data, at)) {
      PopCount(t);
      PopContents(t);
      PopSound(t);
      DrainKeepsContents(Pop(t), at, false);
    }
  }

  lemma {:induction false} DrainLeavesLater(t: Tree, at: Timespec, first: bool)
    requires Sound(t)
    ensures var r := RestFrom(t, at, first); r.Node? ==> Later(r.data, at)
    ensures forall i | 0 <= i < |FiredFrom(t, at, first)| :: !(first && i == 0) ==>
              !Later(FiredFrom(t, at, first)[i], at)
    decreases Count(t)
  {
    if t.Node? && (first || !Later(t.data, at)) {
      PopCount(t);
      PopSound(t);
      DrainLeavesLater(Pop(t), at, false);
    }
  }

  lemma {:induction false} DrainSorted(t: Tree, at: Timespec, first: bool)
    requires Sound(t)
    ensures RankSorted(FiredFrom(t, at, first))
    decreases Count(t)
  {
    if t.Node? && (first || !Later(t.data, at)) {
      PopCount(t);
      PopSound(t);
      DrainSorted(Pop(t), at, false);
      var rest := FiredFrom(Pop(t), at, false);
      forall j | 0 <= j < |rest| ensures !OutRanks(rest[j], t.data) {
        DrainKeepsContents(Pop(t), at, false);
        assert rest[j] in multiset(rest);
        PopContents(t);
        TopIsHighest(t, rest[j]);
      }
    }
  }

  /** An expire message hands every element either to its `expire` or back to the heap; it fires in
      non-decreasing seconds, leaves only timers of later seconds, and every timer after the first is
      of the current second or an earlier one, hence less than one second early. */
  lemma ExpireDrains(t: Tree, at: Timespec)
    requires Sound(t)
    ensures var fired, rest := FiredFrom(t, at, true), RestFrom(t, at, true);
      && multiset(fired) + Contents(rest) == Contents(t)
      && Sound(rest)
      && RankSorted(fired)
      && (forall x <- Contents(rest) :: Later(x, at))
      && (forall i | 0 < i < |fired| :: !Later(fired[i], at))
  {
    DrainKeepsContents(t, at, true);
    DrainSorted(t, at, true);
    DrainLeavesLater(t, at, true);
    var rest := RestFrom(t, at, true);
    forall x <- Contents(rest) ensures Later(x, at) {
      TopIsHighest(rest, x);
    }
  }

  /** What "of the current second" means for the due time itself. */
  lemma LessThanASecondEarly(d: nat, due: Timespec, at: Timespec)
    requires Normal(due) && Normal(at) && !Later(RankOf(d, due), at)
    ensures Nanos(due) - Nanos(at) < NANOS_PER_SEC
  {
  }

  /** Because the first pop is unchecked, an expire message fires a timer of a later second exactly
      when the heap it finds is not empty and its top is of a later second. */
  lemma FiresEarlyIff(t: Tree, at: Timespec)
    requires Sound(t)
    ensures (exists x <- FiredFrom(t, at, true) :: Later(x, at)) <==> t.Node? && Later(t.data, at)
  {
    DrainLeavesLater(t, at, true);
    if t.Node? {
      var fired := FiredFrom(t, at, true);
      PopCount(t);
      assert fired[0] == t.data && t.data in fired;
      forall x <- fired | Later(x, at) ensures x == t.data {
        var i :| 0 <= i < |fired| && fired[i] == x;
      }
    }
  }

  // ---------- The handlers in place ----------

  /** What is still to fire once `timer` has been popped and `t` is left. */
  function Unfired(timer: Option<Rankable>, t: Tree, at: Timespec): seq<Rankable> {
    if timer.None? then [] else [timer.value] + FiredFrom(t, at, false)
  }

  function Unpopped(timer: Option<Rankable>, t: Tree, at: Timespec): Tree {
    if timer.None? then t else RestFrom(t, at, false)
  }

  lemma Turn(t: Tree, at: Timespec, first: bool)
    ensures var stops := t.Nil? || (!first && Later(t.data, at));
      && FiredFrom(t, at, first)
           == Unfired(if stops then None else TopOf(t), if stops then t else Pop(t), at)
      && RestFrom(t, at, first)
           == Unpopped(if stops then None else TopOf(t), if stops then t else Pop(t), at)
      && (!stops ==> Count(Pop(t)) < Count(t))
  {
    if t.Node? { PopCount(t); }
  }

  /** What the kernel knows: the descriptor's expiry and whether it is polled. */
  datatype Descriptor = Descriptor(armed: Option<Timespec>, polled: bool)

  /** Setting an all-zero time disarms. */
  function ArmedAt(t: Timespec): Option<Timespec> {
    if t == Timespec(0, 0) then None else Some(t)
  }

  /** The descriptor once `updateSoonestTime(prior)` has run. */
  function Updated(was: Descriptor, prior: Option<Rankable>, cur: Option<Rankable>,
                   dueOf: nat -> Timespec): Descriptor {
    match UpdateFor(prior, cur)
    case Keep => was
    case Disarm => Descriptor(None, false)
    case Arm => if cur.Some? then Descriptor(ArmedAt(dueOf(cur.value.id)), true) else was
  }

  /** A timer container: its heap and its descriptor. `dueOf` stands for the due time each delegate
      carries from its construction on. */
  class LocTimerContainer {
    const heap: LocHeap
    const dueOf: nat -> Timespec
    var fd: Descriptor

    constructor (dueOf: nat -> Timespec)
      ensures heap.Valid() && heap.Shape() == Nil && fd == Descriptor(None, false)
      ensures fresh(heap) && this.dueOf == dueOf
    {
      heap := new LocHeap();
      this.dueOf := dueOf;
      fd := Descriptor(None, false);
    }

    /** Tells the kernel about the soonest timer if it changed for the sooner. */
    method UpdateSoonestTime(prior: Option<Rankable>)
      requires heap.Valid()
      modifies this`fd
      ensures fd == Updated(old(fd), prior, TopOf(heap.Shape()), dueOf)
    {
      var cur := heap.Peek();
      if cur != prior {
        if cur.None? {
          fd := Descriptor(None, false);
        } else if prior.None? || OutRanks(cur.value, prior.value) {
          fd := fd.(polled := true);
          fd := fd.(armed := ArmedAt(dueOf(cur.value.id)));
        }
      }
    }

    /** The push message. */
    method ProcPush(d: nat)
      requires heap.Valid()
      modifies this`fd, heap, heap.Repr()
      ensures heap.Valid() && heap.Shape() == Push(old(heap.Shape()), RankOf(d, dueOf(d)))
      ensures fd == Updated(old(fd), TopOf(old(heap.Shape())), TopOf(heap.Shape()), dueOf)
    {
      var prior := heap.Peek();
      heap.Push(RankOf(d, dueOf(d)));
      UpdateSoonestTime(prior);
    }

    /** The remove message: only losing the top itself re-arms. */
    method ProcRemove(d: nat)
      requires heap.Valid()
      modifies this`fd, heap, heap.Repr()
      ensures heap.Valid()
      ensures var r := RemoveFrom(old(heap.Shape()), RankOf(d, dueOf(d)));
        && heap.Shape() == r.tree
        && fd == if TopOf(old(heap.Shape())) == (if r.found then Some(RankOf(d, dueOf(d))) else None)
                 then Updated(old(fd), None, TopOf(heap.Shape()), dueOf)
                 else old(fd)
    {
      var prior := heap.Peek();
      var removed := heap.Remove(RankOf(d, dueOf(d)));
      if prior == removed {
        UpdateSoonestTime(None);
      }
    }

    method PopIfOutRanks(at: Timespec) returns (timer: Option<Rankable>)
      requires heap.Valid()
      modifies heap, heap.Repr()
      ensures heap.Valid() && heap.Repr() <= old(heap.Repr())
      ensures if old(heap.Shape()).Nil? || Later(old(heap.Shape()).data, at)
              then timer == None && heap.Shape() == old(heap.Shape())
              else timer == TopOf(old(heap.Shape())) && heap.Shape() == Pop(old(heap.Shape()))
    {
      timer := None;
      var top := heap.Peek();
      if top.Some? && !OutRanks(RankOf(0, at), top.value) {
        timer := heap.Pop();
      }
    }

    /** The expire message: fires in the order of `FiredFrom`, leaves `RestFrom`, then re-arms. */
    method ProcExpire(at: Timespec) returns (fired: seq<Rankable>)
      requires heap.Valid()
      modifies this`fd, heap, heap.Repr()
      ensures heap.Valid()
      ensures fired == FiredFrom(old(heap.Shape()), at, true)
      ensures heap.Shape() == RestFrom(old(heap.Shape()), at, true)
      ensures fd == Updated(old(fd), None, TopOf(heap.Shape()), dueOf)
    {
      fired := [];
      ghost var t := heap.Shape();
      Turn(t, at, true);
      var timer := heap.Pop();
      while timer.Some?
        invariant heap.Valid() && heap.Repr() <= old(heap.Repr()) && fd == old(fd)
        invariant FiredFrom(t, at, true) == fired + Unfired(timer, heap.Shape(), at)
        invariant RestFrom(t, at, true) == Unpopped(timer, heap.Shape(), at)
        decreases Count(heap.Shape()) + if timer.Some? then 1 else 0
      {
        MoveAcross(fired, timer.value, FiredFrom(heap.Shape(), at, false));
        Turn(heap.Shape(), at, false);
        fired := fired + [timer.value];
        timer := PopIfOutRanks(at);
      }
      UpdateSoonestTime(None);
    }
  }
}
