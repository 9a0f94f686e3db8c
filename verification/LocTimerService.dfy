/** The timer service end to end: from a message, or a descriptor that becomes readable, to the
    callbacks that follow. */
module LocTimerService {
  import opened Options
  import opened LocTimerClock
  import opened LocHeapTree
  import opened LocTimerProtocol
  import opened LocTimerInvariant
  import opened LocTimerTheorems
  import opened LocTimerHandlers
  import D = LocTimerDrain
  import P = LocTimerProofs

  // ---------- When an expire message fires early ----------

  predicate DueLater(s: State, d: nat) {
    d < |s.dels| && s.dels[d].due.sec > s.now.sec
  }

  /** `n` steps of the message thread deal with exactly the message at the head of the queue. */
  predicate DealsWithHead(s: State, n: nat)
    requires s.queue != []
  {
    var t := Alone(s, n);
    t.msg.Idle? && t.taken == s.taken + [s.queue[0]]
  }

  predicate ExpireNext(s: State, k: Kind) {
    s.msg.Idle? && s.queue != [] && s.queue[0] == MsgExpire(k)
  }

  ghost predicate DealsWithExpire(s: State, k: Kind, n: nat) {
    var heap := Get(s, k).heap;
    && ExpireNext(s, k) && DealsWithHead(s, n)
    && Popped(s, n) == Ids(D.FiredFrom(heap, s.now, true))
    && Alone(s, n).log == s.log + Callbacks(D.FiredFrom(heap, s.now, true), s.dels)
  }

  lemma ExpireIsDealtWith(s: State, k: Kind)
    requires Inv(s) && ExpireNext(s, k)
    ensures exists n: nat :: DealsWithExpire(s, k, n)
  {
    var t := StepMsg(s);
    P.MsgStepKeepsInv(s);
    ExpireMatchesContainer(t, k, s.now, true);
    var n: nat :| Expires(t, k, s.now, true, n);
    AloneStarts(s, t, n + 1);
    PoppedStarts(s, t, n + 1);
    assert DealsWithExpire(s, k, n + 1);
  }

  lemma {:induction false} IdsMember(fired: seq<Rankable>, d: nat)
    ensures d in Ids(fired) <==> exists i :: 0 <= i < |fired| && fired[i].id == d
  {
    if fired != [] {
      IdsMember(fired[1..], d);
      assert forall i | 0 < i < |fired| :: fired[i] == fired[1..][i - 1];
    }
  }

  /** An element of a sound heap is ranked by its delegate's due second. */
  lemma LaterIsDueLater(s: State, k: Kind, x: Rankable)
    requires HeapOk(s, k) && x in Contents(Get(s, k).heap)
    ensures D.Later(x, s.now) <==> DueLater(s, x.id)
  {
    ContentsAt(Get(s, k).heap, x);
    assert x == Ranked(s, x.id);
  }

  lemma PopsEarlyIff(s: State, k: Kind)
    requires HeapOk(s, k)
    ensures var heap := Get(s, k).heap;
      (exists d: nat :: d in Ids(D.FiredFrom(heap, s.now, true)) && DueLater(s, d))
        <==> heap.Node? && DueLater(s, heap.data.id)
  {
    var heap := Get(s, k).heap;
    var fired := D.FiredFrom(heap, s.now, true);
    D.DrainKeepsContents(heap, s.now, true);
    D.FiresEarlyIff(heap, s.now);
    forall i | 0 <= i < |fired| ensures D.Later(fired[i], s.now) <==> DueLater(s, fired[i].id) {
      assert fired[i] in multiset(fired);
      LaterIsDueLater(s, k, fired[i]);
    }
    if heap.Node? {
      assert fired[0] == heap.data;
      IdsMember(fired, heap.data.id);
    }
    forall d: nat | d in Ids(fired) && DueLater(s, d) ensures exists x <- fired :: D.Later(x, s.now) {
      IdsMember(fired, d);
      var i :| 0 <= i < |fired| && fired[i].id == d;
      assert fired[i] in fired;
    }
  }

  /** In any reachable state whose next message is an expire message: the message thread, left to deal
      with it, pops a timer of a later second if and only if the heap is not empty and the timer at its
      top is due in a later second. */
  lemma ExpireTakesEarlyIff(now: Clock, ls: seq<Label>, k: Kind)
    requires Positive(now) && ExpireNext(After(now, ls), k)
    ensures var s := After(now, ls); var heap := Get(s, k).heap;
      exists n: nat ::
        && DealsWithHead(s, n)
        && ((exists d: nat :: d in Popped(s, n) && DueLater(s, d)) <==> heap.Node? && DueLater(s, heap.data.id))
  {
    AlwaysOk(now, ls);
    var s := After(now, ls);
    ExpireIsDealtWith(s, k);
    var n: nat :| DealsWithExpire(s, k, n);
    PopsEarlyIff(s, k);
    assert DealsWithHead(s, n);
  }

  // ---------- From rest to callback ----------

  function MsgSteps(n: nat): seq<Label> {
    if n == 0 then [] else [MsgStep] + MsgSteps(n - 1)
  }

  /** Letting the message thread run alone is one of the interleavings. */
  lemma {:induction false} AloneIsARun(s: State, n: nat)
    ensures Alone(s, n) == Run(s, MsgSteps(n))
    decreases n
  {
    if n > 0 {
      AloneStarts(s, StepMsg(s), n);
      AloneIsARun(StepMsg(s), n - 1);
      RunStarts(s, MsgSteps(n - 1));
    }
  }

  lemma RunStarts(s: State, ls: seq<Label>)
    ensures Run(s, [MsgStep] + ls) == Run(StepMsg(s), ls)
  {
    assert ([MsgStep] + ls)[1..] == ls;
  }

  lemma {:induction false} RunKeepsInv(s: State, ls: seq<Label>)
    requires Inv(s)
    ensures Inv(Run(s, ls))
    decreases |ls|
  {
    if ls != [] {
      P.StepKeepsInv(s, ls[0]);
      RunKeepsInv(Step(s, ls[0]), ls[1..]);
    }
  }

  lemma TopIsLive(s: State, k: Kind)
    requires Inv(s) && Quiescent(s) && Get(s, k).heap.Node?
    ensures var d := Get(s, k).heap.data.id; d < |s.dels| && s.dels[d].live
  {
    var heap := Get(s, k).heap;
    var d := heap.data.id;
    assert Occurrences(heap, heap.data) > 0;
    assert DelegateOk(s, d);
  }

  /** The schedule in which the poll thread wakes and then the message thread runs. */
  function WakeThenRun(k: Kind, n: nat): seq<Label> {
    WakeSteps(k) + MsgSteps(n)
  }

  /** From any reachable resting state with the timer at the heap's top due: once the poll thread has woken, the message
      thread calls back the client of the heap's top, and then, in order, those of all the timers the
      expire loop drains. */
  lemma RestingTimerIsCalledBack(now: Clock, ls: seq<Label>, k: Kind)
    requires Positive(now) && Quiescent(After(now, ls))
    requires var s := After(now, ls); var heap := Get(s, k).heap;
      heap.Node? && heap.data.id < |s.dels| && !Earlier(s.now, s.dels[heap.data.id].due)
    ensures var s := After(now, ls); var heap := Get(s, k).heap; var d := heap.data.id;
      exists n: nat :: var t := Run(s, WakeThenRun(k, n));
        && t.log == s.log + [Event(CalledBack, s.dels[d].client, d)]
                    + Callbacks(D.FiredFrom(Pop(heap), s.now, false), s.dels)
        && t.taken == s.taken + [MsgExpire(k)] && t.msg.Idle?
  {
    AlwaysOk(now, ls);
    RestingServiceWakes(now, ls, k);
    var s := After(now, ls);
    WakingSends(s, k);
    RunKeepsInv(s, WakeSteps(k));
    var u := Woken(s, k);
    assert Get(u, k).heap == Get(s, k).heap && u.queue == [MsgExpire(k)];
    ExpireIsDealtWith(u, k);
    var n: nat :| DealsWithExpire(u, k, n);
    AloneIsARun(u, n);
    RunAppend(s, WakeSteps(k), MsgSteps(n));
    TopIsLive(s, k);
    FirstCallback(s, k);
    var t := Run(s, WakeThenRun(k, n));
    assert t == Alone(u, n);
  }

  lemma {:induction false} CallbackOf(fired: seq<Rankable>, dels: seq<Delegate>, i: nat)
    requires i < |fired| && fired[i].id < |dels| && dels[fired[i].id].live
    ensures Event(CalledBack, dels[fired[i].id].client, fired[i].id) in Callbacks(fired, dels)
  {
    if i > 0 { CallbackOf(fired[1..], dels, i - 1); }
  }

  lemma HeapIsLive(s: State, k: Kind, d: nat)
    requires Inv(s) && Quiescent(s) && d < |s.dels| && s.dels[d].kind == k && InHeap(s, d) > 0
    ensures s.dels[d].live
  {
    assert DelegateOk(s, d);
  }

  /** What is due in the current second or an earlier one is drained. */
  lemma DueIsFired(s: State, k: Kind, d: nat)
    requires HeapOk(s, k) && d < |s.dels| && s.dels[d].kind == k && InHeap(s, d) > 0 && !DueLater(s, d)
    ensures exists i :: 0 <= i < |D.FiredFrom(Get(s, k).heap, s.now, true)|
                     && D.FiredFrom(Get(s, k).heap, s.now, true)[i] == Ranked(s, d)
  {
    var heap := Get(s, k).heap;
    var fired, rest := D.FiredFrom(heap, s.now, true), D.RestFrom(heap, s.now, true);
    D.ExpireDrains(heap, s.now);
    ContentsAt(heap, Ranked(s, d));
    LaterIsDueLater(s, k, Ranked(s, d));
    assert Ranked(s, d) !in Contents(rest);
    assert Ranked(s, d) in multiset(fired);
  }

  /** In that same schedule every timer of the heap that is due in the current second or an earlier one
      is called back, one that had to wait for the top included. */
  lemma EveryTimerDueIsCalledBack(now: Clock, ls: seq<Label>, k: Kind)
    requires Positive(now) && Quiescent(After(now, ls))
    requires var s := After(now, ls); var heap := Get(s, k).heap;
      heap.Node? && heap.data.id < |s.dels| && !Earlier(s.now, s.dels[heap.data.id].due)
    ensures var s := After(now, ls);
      exists n: nat :: var t := Run(s, WakeThenRun(k, n));
        && t.msg.Idle? && t.taken == s.taken + [MsgExpire(k)]
        && forall d: nat | d < |s.dels| && s.dels[d].kind == k && InHeap(s, d) > 0 && !DueLater(s, d) ::
             Event(CalledBack, s.dels[d].client, d) in t.log
  {
    RestingTimerIsCalledBack(now, ls, k);
    AlwaysOk(now, ls);
    var s := After(now, ls);
    var heap := Get(s, k).heap;
    var n: nat :| var t := Run(s, WakeThenRun(k, n));
      && t.log == s.log + [Event(CalledBack, s.dels[heap.data.id].client, heap.data.id)]
                  + Callbacks(D.FiredFrom(Pop(heap), s.now, false), s.dels)
      && t.taken == s.taken + [MsgExpire(k)] && t.msg.Idle?;
    var t := Run(s, WakeThenRun(k, n));
    TopIsLive(s, k);
    FirstCallback(s, k);
    var fired := D.FiredFrom(heap, s.now, true);
    assert t.log == s.log + Callbacks(fired, s.dels);
    forall d: nat | d < |s.dels| && s.dels[d].kind == k && InHeap(s, d) > 0 && !DueLater(s, d)
      ensures Event(CalledBack, s.dels[d].client, d) in t.log
    {
      DueIsFired(s, k, d);
      HeapIsLive(s, k, d);
      var i :| 0 <= i < |fired| && fired[i] == Ranked(s, d);
      CallbackOf(fired, s.dels, i);
    }
  }

  lemma FirstCallback(s: State, k: Kind)
    requires var heap := Get(s, k).heap; heap.Node? && heap.data.id < |s.dels| && s.dels[heap.data.id].live
    ensures var heap := Get(s, k).heap; var d := heap.data.id;
      s.log + Callbacks(D.FiredFrom(heap, s.now, true), s.dels) ==
        s.log + [Event(CalledBack, s.dels[d].client, d)] + Callbacks(D.FiredFrom(Pop(heap), s.now, false), s.dels)
  {
    var heap := Get(s, k).heap;
    FirstFired(heap, s.now, true, s.dels);
    assert [heap.data][1..] == [];
  }

  // ---------- The message thread comes to rest ----------

  function Live(dels: seq<Delegate>): nat {
    if dels == [] then 0 else Live(dels[..|dels| - 1]) + if dels[|dels| - 1].live then 1 else 0
  }

  lemma {:induction false} OneLessLive(dels: seq<Delegate>, d: nat)
    requires d < |dels| && dels[d].live
    ensures Live(dels[d := dels[d].(live := false)]) == Live(dels) - 1
  {
    var n := |dels| - 1;
    var dels' := dels[d := dels[d].(live := false)];
    if d == n {
      assert dels'[..n] == dels[..n];
    } else {
      assert dels'[..n] == dels[..n][d := dels[..n][d].(live := false)];
      OneLessLive(dels[..n], d);
    }
  }

  /** Messages queued, and those that stopping the live delegates would still send. */
  function Outstanding(s: State): nat {
    |s.queue| + Live(s.dels)
  }

  /** Steps left, at most, in the message being processed. */
  function StepsLeft(s: State): nat {
    match s.msg
    case Idle => 0
    case Deleting(_) => 1
    case SetTime(_, _, _) => 2
    case AddPoll(_, _, _) => 3
    case Popping(k, _, _) => 3 * Count(Get(s, k).heap) + 4
    case Stopping(k, _, _, _) => 3 * Count(Get(s, k).heap) + 5
    case Firing(k, _, _) => 3 * Count(Get(s, k).heap) + 6
  }

  lemma StopKeepsOutstanding(s: State, c: nat)
    requires Base(s)
    ensures Outstanding(StepStop(s, c, CalledBack)) == Outstanding(s)
  {
    if c in s.running { OneLessLive(s.dels, s.running[c]); }
  }

  lemma RearmCounts(s: State, k: Kind, prior: Option<Rankable>, del: Option<nat>)
    ensures var t := Rearm(s, k, prior, del);
      t.queue == s.queue && t.dels == s.dels && StepsLeft(t) <= 3
  {
  }

  lemma TakeCounts(s: State)
    requires s.queue != [] && MsgOk(s, s.queue[0])
    ensures Outstanding(TakeMsg(s)) == Outstanding(s) - 1
  {
    TakeKeepsHistory(s);
  }

  lemma PopCounts(s: State, k: Kind, at: Timespec, first: bool)
    requires s.msg == Popping(k, at, first)
    ensures var t := ProcPop(s, k, at, first);
      Outstanding(t) == Outstanding(s) && StepsLeft(t) < StepsLeft(s)
  {
    RearmCounts(s, k, None, None);
    if Get(s, k).heap.Node? { PopCount(Get(s, k).heap); }
  }

  /** Within a message nothing new is outstanding and the end comes nearer. */
  lemma StepCounts(s: State)
    requires Base(s) && !s.msg.Idle?
    ensures Outstanding(StepMsg(s)) == Outstanding(s) && StepsLeft(StepMsg(s)) < StepsLeft(s)
  {
    match s.msg
    case Popping(k, at, first) => PopCounts(s, k, at, first);
    case Stopping(k, at, d, c) => StopKeepsOutstanding(s, c);
    case _ =>
  }

  predicate Rests(s: State) {
    s.msg.Idle? && s.queue == []
  }

  lemma {:induction false} ComesToRest(s: State)
    requires Inv(s)
    ensures exists n: nat :: Rests(Alone(s, n))
    decreases Outstanding(s), StepsLeft(s)
  {
    if Rests(s) {
      assert Rests(Alone(s, 0));
    } else {
      var t := StepMsg(s);
      P.MsgStepKeepsInv(s);
      if s.msg.Idle? { TakeStarts(s); } else { StepCounts(s); }
      ComesToRest(t);
      var n: nat :| Rests(Alone(t, n));
      AloneStarts(s, t, n + 1);
      assert Rests(Alone(s, n + 1));
    }
  }

  lemma TakeStarts(s: State)
    requires Base(s) && s.msg.Idle? && s.queue != []
    ensures Outstanding(StepMsg(s)) < Outstanding(s)
  {
    assert MsgOk(s, s.queue[0]);
    TakeCounts(s);
  }

  /** From any reachable state, with no further step of clients or poll thread, the message thread
      empties its queue, the messages it sends itself included. */
  lemma MessageThreadEmptiesItsQueue(now: Clock, ls: seq<Label>)
    requires Positive(now)
    ensures exists n: nat :: Rests(Run(After(now, ls), MsgSteps(n)))
  {
    AlwaysOk(now, ls);
    var s := After(now, ls);
    ComesToRest(s);
    var n: nat :| Rests(Alone(s, n));
    AloneIsARun(s, n);
  }
}
