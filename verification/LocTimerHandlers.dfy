/** The steps of a message, left to run by themselves, add up to the container's handler for it. */
module LocTimerHandlers {
  import opened Sequences
  import opened Options
  import opened LocTimerClock
  import opened LocHeapTree
  import opened LocTimerProtocol
  import opened LocTimerInvariant
  import opened LocTimerTheorems
  import D = LocTimerDrain
  import P = LocTimerProofs

  function DueOf(s: State): nat -> Timespec {
    (d: nat) => if d < |s.dels| then s.dels[d].due else Timespec(0, 0)
  }

  /** The container as `LocTimerContainer` leaves it: its heap, and the updated descriptor. */
  function Handled(s: State, k: Kind, heap: Tree, prior: Option<Rankable>): Container {
    var c := Get(s, k);
    var fd := D.Updated(D.Descriptor(c.armed, c.polled), prior, TopOf(heap), DueOf(s));
    Container(heap, fd.armed, fd.polled)
  }

  /** The message thread running alone for `n` steps. */
  function Alone(s: State, n: nat): State
    decreases n
  {
    if n == 0 then s else Alone(StepMsg(s), n - 1)
  }

  /** The delegates popped in those steps, in order. */
  function Popped(s: State, n: nat): seq<nat>
    decreases n
  {
    if n == 0 then []
    else PoppedNow(s, StepMsg(s)) + Popped(StepMsg(s), n - 1)
  }

  /** The delegate popped by the step from `s` to `t`, if any. */
  function PoppedNow(s: State, t: State): seq<nat> {
    if s.msg.Popping? && t.msg.Firing? then [t.msg.d] else []
  }

  /** The kernel calls of an update, if it makes any. */
  function UpdateSteps(s: State): nat {
    if s.msg.AddPoll? then 2 else 0
  }

  function FinishUpdate(s: State): State {
    Alone(s, UpdateSteps(s))
  }

  lemma AloneStarts(s: State, t: State, n: nat)
    requires n > 0 && t == StepMsg(s)
    ensures Alone(s, n) == Alone(t, n - 1)
  {
  }

  lemma PoppedStarts(s: State, t: State, n: nat)
    requires n > 0 && t == StepMsg(s)
    ensures Popped(s, n) == PoppedNow(s, t) + Popped(t, n - 1)
  {
  }

  lemma RearmMatches(s: State, k: Kind, prior: Option<Rankable>, del: Option<nat>)
    requires HeapOk(s, k) && UpdateFor(prior, TopOf(Get(s, k).heap)) != Disarm
    ensures var t := FinishUpdate(Rearm(s, k, prior, del));
      && Get(t, k) == Handled(s, k, Get(s, k).heap, prior) && t.msg == AfterUpdate(del)
      && t.log == s.log && t.taken == s.taken
      && Popped(Rearm(s, k, prior, del), UpdateSteps(Rearm(s, k, prior, del))) == []
  {
    P.RearmIsPc(s, k, prior, del);
    var pc := Rearm(s, k, prior, del).msg;
    if pc.AddPoll? {
      var heap := Get(s, k).heap;
      assert Occurrences(heap, heap.data) > 0;
      var s0 := Rearm(s, k, prior, del);
      var s1 := StepMsg(s0);
      AloneStarts(s0, s1, 2);
      AloneStarts(s1, StepMsg(s1), 1);
      PoppedStarts(s0, s1, 2);
      PoppedStarts(s1, StepMsg(s1), 1);
    }
  }

  /** The steps of a push message add up to `LocTimerContainer.ProcPush`. */
  lemma PushMatchesContainer(now: Clock, ls: seq<Label>, k: Kind, d: nat)
    requires Positive(now) && P.PushNext(After(now, ls), k, d)
    ensures var s := After(now, ls); var heap := Get(s, k).heap;
      var t := FinishUpdate(StepMsg(s));
      Get(t, k) == Handled(s, k, Push(heap, RankOf(d, DueOf(s)(d))), TopOf(heap)) && t.msg.Idle?
  {
    AlwaysOk(now, ls);
    var s := After(now, ls);
    assert MsgOk(s, s.queue[0]);
    P.PushSplits(s, k, d);
    RearmMatches(P.Pushed(s, k, d), k, TopOf(Get(s, k).heap), None);
  }

  /** When a timer due before the armed top is pushed, the descriptor is armed for it if and only if it
      is due in an earlier second: within the top's second the kernel is not told. */
  lemma KernelIsToldIff(now: Clock, ls: seq<Label>, k: Kind, d: nat)
    requires Positive(now) && P.PushNext(After(now, ls), k, d) && ArmedForTop(After(now, ls), k)
    requires var s := After(now, ls); Earlier(s.dels[d].due, s.dels[Get(s, k).heap.data.id].due)
    ensures var s := After(now, ls); var top := Get(s, k).heap.data.id;
      Get(FinishUpdate(StepMsg(s)), k).armed == Some(s.dels[d].due) <==> s.dels[d].due.sec < s.dels[top].due.sec
  {
    AlwaysOk(now, ls);
    PushMatchesContainer(now, ls, k, d);
    var s := After(now, ls);
    var heap := Get(s, k).heap;
    assert Occurrences(heap, heap.data) > 0;
    assert Positive(s.dels[d].due);
  }

  /** The steps of a remove message add up to `LocTimerContainer.ProcRemove`; deleting comes next. */
  lemma RemoveMatchesContainer(now: Clock, ls: seq<Label>, k: Kind, d: nat)
    requires Positive(now) && P.RemoveNext(After(now, ls), k, d)
    ensures var s := After(now, ls); var heap := Get(s, k).heap;
      var x := RankOf(d, DueOf(s)(d)); var r := RemoveFrom(heap, x);
      var t := FinishUpdate(StepMsg(s));
      && t.msg == Deleting(d)
      && Get(t, k) == if TopOf(heap) == (if r.found then Some(x) else None) then Handled(s, k, r.tree, None)
                      else Get(s, k).(heap := r.tree)
  {
    AlwaysOk(now, ls);
    var s := After(now, ls);
    P.RemoveSplits(s, k, d);
    if TakeMsg(s) == Rearm(P.Removed(s, k, d), k, None, Some(d)) {
      RearmMatches(P.Removed(s, k, d), k, None, Some(d));
    }
  }

  /** Removing the last timer leaves the descriptor armed. */
  lemma LastRemovalStaysArmed(now: Clock, ls: seq<Label>, k: Kind, d: nat)
    requires Positive(now) && P.RemoveNext(After(now, ls), k, d)
    requires var s := After(now, ls); Get(s, k).heap == Single(Ranked(s, d))
    ensures var s := After(now, ls); StepMsg(s).msg == Deleting(d) && Get(StepMsg(s), k) == Get(s, k).(heap := Nil)
  {
    AlwaysOk(now, ls);
    P.RemoveSplits(After(now, ls), k, d);
  }

  /** The message thread never disarms a descriptor, nor takes it off the poll set. */
  lemma MessageThreadNeverDisarms(now: Clock, ls: seq<Label>, k: Kind)
    requires Positive(now)
    ensures var s := After(now, ls); var c, c' := Get(s, k), Get(StepMsg(s), k);
      (c.armed.Some? ==> c'.armed.Some?) && (c.polled ==> c'.polled)
  {
    AlwaysOk(now, ls);
    var s := After(now, ls);
    match s.msg
    case Idle => if s.queue != [] { TakingNeverDisarms(s, k); }
    case Popping(kind, at, first) => if !P.Pops(s, kind, at, first) { P.RearmIsPc(s, kind, None, None); }
    case SetTime(kind, t, del) => assert Positive(t);
    case _ =>
  }

  lemma TakingNeverDisarms(s: State, k: Kind)
    requires Inv(s) && s.msg.Idle? && s.queue != []
    ensures var c, c' := Get(s, k), Get(TakeMsg(s), k); c'.armed == c.armed && c'.polled == c.polled
  {
    assert MsgOk(s, s.queue[0]);
    match s.queue[0]
    case MsgPush(kind, d) =>
      P.PushSplits(s, kind, d);
      P.RearmIsPc(P.Pushed(s, kind, d), kind, TopOf(Get(s, kind).heap), None);
    case MsgRemove(kind, d) =>
      P.RemoveSplits(s, kind, d);
      P.RearmIsPc(P.Removed(s, kind, d), kind, None, Some(d));
    case MsgExpire(kind) =>
  }

  // ---------- Expire messages ----------

  /** The steps of one turn of the expire loop that pops something. */
  function TurnSteps(s: State): nat {
    1 + FiringSteps(StepMsg(s))
  }

  /** Those of them that deal with the delegate popped. */
  function FiringSteps(s: State): nat {
    if StepMsg(s).msg.Stopping? then 2 else 1
  }

  /** The callbacks that popping `fired` leads to: one for each delegate not stopped before. */
  function Callbacks(fired: seq<Rankable>, dels: seq<Delegate>): seq<Event> {
    if fired == [] then []
    else
      var d := fired[0].id;
      (if d < |dels| && dels[d].live then [Event(CalledBack, dels[d].client, d)] else [])
      + Callbacks(fired[1..], dels)
  }

  predicate SameButLive(dels: seq<Delegate>, dels': seq<Delegate>, d: nat) {
    && |dels'| == |dels|
    && (forall e | 0 <= e < |dels| :: dels'[e].(live := dels[e].live) == dels[e])
    && (forall e | 0 <= e < |dels| && e != d :: dels'[e] == dels[e])
  }

  lemma {:induction false} OtherCallbacks(fired: seq<Rankable>, dels: seq<Delegate>, dels': seq<Delegate>, d: nat)
    requires SameButLive(dels, dels', d)
    requires forall i | 0 <= i < |fired| :: fired[i].id != d
    ensures Callbacks(fired, dels') == Callbacks(fired, dels)
  {
    if fired != [] { OtherCallbacks(fired[1..], dels, dels', d); }
  }

  /** The delegate popped is stopped if it is still live, and its client called back. */
  lemma FiringEnds(s: State, k: Kind, at: Timespec, d: nat)
    requires Inv(s) && s.msg == Firing(k, at, d)
    ensures d < |s.dels|
    ensures !s.dels[d].live ==> StepMsg(s) == s.(msg := Popping(k, at, false))
    ensures s.dels[d].live ==>
      var t := StepMsg(StepMsg(s));
      && StepMsg(s) == s.(msg := Stopping(k, at, d, s.dels[d].client))
      && t.dels == s.dels[d := s.dels[d].(live := false)]
      && t.log == s.log + [Event(CalledBack, s.dels[d].client, d)]
      && t.sw == s.sw && t.hw == s.hw && t.msg == Popping(k, at, false) && t.taken == s.taken
  {
    assert DelegateOk(s, d);
  }

  function EndOfTurn(s: State): State {
    var t := StepMsg(s);
    if t.msg.Stopping? then StepMsg(t) else t
  }

  lemma FiringKeepsRest(s: State, k: Kind, at: Timespec, d: nat)
    requires Inv(s) && s.msg == Firing(k, at, d)
    ensures var t := EndOfTurn(s);
      && Inv(t) && t.msg == Popping(k, at, false) && Get(t, k) == Get(s, k) && t.taken == s.taken
      && d < |s.dels| && SameButLive(s.dels, t.dels, d)
      && t.log == s.log + Callbacks([Rankable(d, -s.dels[d].due.sec)], s.dels)
  {
    FiringEnds(s, k, at, d);
    P.MsgStepKeepsInv(s);
    if s.dels[d].live { P.MsgStepKeepsInv(StepMsg(s)); }
  }

  lemma EndRuns(s: State, n: nat)
    requires s.msg.Firing?
    ensures Alone(s, FiringSteps(s) + n) == Alone(EndOfTurn(s), n)
  {
    var t := StepMsg(s);
    AloneStarts(s, t, FiringSteps(s) + n);
    if t.msg.Stopping? { AloneStarts(t, StepMsg(t), 1 + n); }
  }

  lemma EndPops(s: State, n: nat)
    requires s.msg.Firing?
    ensures Popped(s, FiringSteps(s) + n) == Popped(EndOfTurn(s), n)
  {
    var t := StepMsg(s);
    PoppedStarts(s, t, FiringSteps(s) + n);
    if t.msg.Stopping? { PoppedStarts(t, StepMsg(t), 1 + n); }
  }

  lemma TurnRuns(s: State, n: nat)
    requires s.msg.Popping? && StepMsg(s).msg.Firing?
    ensures Alone(s, TurnSteps(s) + n) == Alone(EndOfTurn(StepMsg(s)), n)
    ensures Popped(s, TurnSteps(s) + n) == [StepMsg(s).msg.d] + Popped(EndOfTurn(StepMsg(s)), n)
  {
    AloneStarts(s, StepMsg(s), TurnSteps(s) + n);
    PoppedStarts(s, StepMsg(s), TurnSteps(s) + n);
    EndRuns(StepMsg(s), n);
    EndPops(StepMsg(s), n);
  }

  lemma PopStep(s: State, k: Kind, at: Timespec, first: bool)
    requires Inv(s) && s.msg == Popping(k, at, first) && P.Pops(s, k, at, first)
    ensures var t := StepMsg(s); var x := Get(s, k).heap.data;
      && Inv(t) && t.msg == Firing(k, at, x.id) && t.dels == s.dels && t.log == s.log && t.taken == s.taken
      && Get(t, k) == Get(s, k).(heap := Pop(Get(s, k).heap))
      && x.id < |s.dels| && s.dels[x.id].kind == k && x == Ranked(s, x.id) && InHeap(t, x.id) == 0
  {
    var heap := Get(s, k).heap;
    assert Occurrences(heap, heap.data) > 0;
    P.MsgStepKeepsInv(s);
    assert DelegateOk(StepMsg(s), heap.data.id);
  }

  lemma OneTurn(s: State, k: Kind, at: Timespec, first: bool)
    requires Inv(s) && s.msg == Popping(k, at, first) && P.Pops(s, k, at, first)
    ensures var t := EndOfTurn(StepMsg(s)); var x := Get(s, k).heap.data;
      && Inv(t) && t.msg == Popping(k, at, false)
      && Get(t, k) == Get(s, k).(heap := Pop(Get(s, k).heap))
      && x.id < |s.dels| && SameButLive(s.dels, t.dels, x.id) && InHeap(t, x.id) == 0 && s.dels[x.id].kind == k
      && t.log == s.log + Callbacks([x], s.dels) && t.taken == s.taken
      && StepMsg(s).msg == Firing(k, at, x.id)
  {
    PopStep(s, k, at, first);
    FiringKeepsRest(StepMsg(s), k, at, Get(s, k).heap.data.id);
  }

  function Ids(fired: seq<Rankable>): seq<nat> {
    if fired == [] then [] else [fired[0].id] + Ids(fired[1..])
  }

  /** The message thread, about to pop, has dealt with the expire message `n` steps later. */
  predicate Expires(s: State, k: Kind, at: Timespec, first: bool, n: nat) {
    var heap := Get(s, k).heap;
    var t := Alone(s, n);
    && t.msg.Idle? && t.taken == s.taken
    && Get(t, k) == Handled(s, k, D.RestFrom(heap, at, first), None)
    && t.log == s.log + Callbacks(D.FiredFrom(heap, at, first), s.dels)
    && Popped(s, n) == Ids(D.FiredFrom(heap, at, first))
  }

  lemma NotFiredAgain(s: State, k: Kind, at: Timespec, d: nat)
    requires Inv(s) && d < |s.dels| && s.dels[d].kind == k && InHeap(s, d) == 0
    ensures forall i | 0 <= i < |D.FiredFrom(Get(s, k).heap, at, false)| ::
              D.FiredFrom(Get(s, k).heap, at, false)[i].id != d
  {
    var heap := Get(s, k).heap;
    var fired := D.FiredFrom(heap, at, false);
    D.DrainKeepsContents(heap, at, false);
    forall i | 0 <= i < |fired| ensures fired[i].id != d {
      assert fired[i] in multiset(fired);
      ContentsAt(heap, fired[i]);
    }
  }

  /** The expire loop, from any point where it is about to pop: left to run, the message thread pops
      what `LocTimerContainer.ProcExpire` pops, calls back for each delegate popped that is still
      live, in that order, and leaves the heap and the descriptor as that handler does. */
  lemma {:induction false} ExpireMatchesContainer(s: State, k: Kind, at: Timespec, first: bool)
    requires Inv(s) && s.msg == Popping(k, at, first)
    ensures exists n: nat :: Expires(s, k, at, first, n)
    decreases Count(Get(s, k).heap)
  {
    var heap := Get(s, k).heap;
    if P.Pops(s, k, at, first) {
      var m, x := TurnSteps(s), heap.data;
      OneTurn(s, k, at, first);
      var t := EndOfTurn(StepMsg(s));
      PopCount(heap);
      ExpireMatchesContainer(t, k, at, false);
      var n: nat :| Expires(t, k, at, false, n);
      NotFiredAgain(t, k, at, x.id);
      TurnRuns(s, n);
      TurnAndRest(s, t, m, n, k, at, first);
    } else {
      LoopEnds(s, k, at, first);
    }
  }

  lemma TurnAndRest(s: State, t: State, m: nat, n: nat, k: Kind, at: Timespec, first: bool)
    requires P.Pops(s, k, at, first) && Expires(t, k, at, false, n)
    requires var x := Get(s, k).heap.data;
      && Get(t, k) == Get(s, k).(heap := Pop(Get(s, k).heap))
      && x.id < |s.dels| && SameButLive(s.dels, t.dels, x.id)
      && t.log == s.log + Callbacks([x], s.dels) && t.taken == s.taken
      && Alone(s, m + n) == Alone(t, n) && Popped(s, m + n) == [x.id] + Popped(t, n)
      && (forall i | 0 <= i < |D.FiredFrom(Get(t, k).heap, at, false)| ::
            D.FiredFrom(Get(t, k).heap, at, false)[i].id != x.id)
    ensures Expires(s, k, at, first, m + n)
  {
    var heap := Get(s, k).heap;
    var fired := D.FiredFrom(Pop(heap), at, false);
    OtherCallbacks(fired, s.dels, t.dels, heap.data.id);
    FirstFired(heap, at, first, s.dels);
    Regroup(s.log, Callbacks([heap.data], s.dels), Callbacks(fired, s.dels));
    SameDues(s, t, k, D.RestFrom(Pop(heap), at, false));
    assert D.RestFrom(heap, at, first) == D.RestFrom(Pop(heap), at, false);
  }

  lemma LoopEnds(s: State, k: Kind, at: Timespec, first: bool)
    requires Inv(s) && s.msg == Popping(k, at, first) && !P.Pops(s, k, at, first)
    ensures exists n: nat :: Expires(s, k, at, first, n)
  {
    var t := StepMsg(s);
    RearmMatches(s, k, None, None);
    AloneStarts(s, t, 1 + UpdateSteps(t));
    PoppedStarts(s, t, 1 + UpdateSteps(t));
    assert Expires(s, k, at, first, 1 + UpdateSteps(t));
  }

  lemma FirstFired(heap: Tree, at: Timespec, first: bool, dels: seq<Delegate>)
    requires heap.Node? && (first || !D.Later(heap.data, at))
    ensures Callbacks(D.FiredFrom(heap, at, first), dels)
         == Callbacks([heap.data], dels) + Callbacks(D.FiredFrom(Pop(heap), at, false), dels)
    ensures Ids(D.FiredFrom(heap, at, first)) == [heap.data.id] + Ids(D.FiredFrom(Pop(heap), at, false))
  {
    var rest := D.FiredFrom(Pop(heap), at, false);
    assert ([heap.data] + rest)[1..] == rest && [heap.data][1..] == [];
  }

  lemma SameDues(s: State, t: State, k: Kind, heap: Tree)
    requires |t.dels| == |s.dels| && forall e | 0 <= e < |s.dels| :: t.dels[e].due == s.dels[e].due
    requires Get(t, k).armed == Get(s, k).armed && Get(t, k).polled == Get(s, k).polled
    ensures Handled(t, k, heap, None) == Handled(s, k, heap, None)
  {
  }
}
