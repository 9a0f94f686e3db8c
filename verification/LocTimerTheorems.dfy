/** What holds after any run of the timer service, whatever the interleaving. */
module LocTimerTheorems {
  import opened Options
  import opened LocTimerClock
  import opened LocHeapTree
  import opened LocTimerProtocol
  import opened LocTimerInvariant
  import P = LocTimerProofs

  // ---------- Histories ----------

  /** Every message ever sent, in order: what was taken, then what is queued. */
  function Sent(s: State): seq<Msg> {
    s.taken + s.queue
  }

  function ByClient(log: seq<Event>, what: What, c: nat): nat {
    if log == [] then 0
    else
      var last := log[|log| - 1];
      ByClient(log[..|log| - 1], what, c) + if last.what == what && last.client == c then 1 else 0
  }

  function ByTimer(log: seq<Event>, what: What, d: nat): nat {
    if log == [] then 0
    else
      var last := log[|log| - 1];
      ByTimer(log[..|log| - 1], what, d) + if last.what == what && last.timer == d then 1 else 0
  }

  lemma {:induction false} ByTimerUnknown(log: seq<Event>, what: What, d: nat)
    requires forall i | 0 <= i < |log| :: log[i].timer != d
    ensures ByTimer(log, what, d) == 0
  {
    if log != [] {
      ByTimerUnknown(log[..|log| - 1], what, d);
    }
  }

  ghost predicate SentOk(s: State) {
    && (forall i | 0 <= i < |Sent(s)| :: MsgOk(s, Sent(s)[i]))
    && forall d: nat | d < |s.dels| ::
         && CountOf(Sent(s), PushOf(s, d)) == 1
         && CountOf(Sent(s), RemoveOf(s, d)) == (if s.dels[d].live then 0 else 1)
         && PushFirst(Sent(s), PushOf(s, d), RemoveOf(s, d))
  }

  /** Each start is still running, or ended in a client's stop, or ended in a callback. */
  predicate ClientBalanced(s: State, c: nat) {
    ByClient(s.log, Started, c)
      == ByClient(s.log, Stopped, c) + ByClient(s.log, CalledBack, c) + if c in s.running then 1 else 0
  }

  predicate TimerBalanced(s: State, d: nat)
    requires d < |s.dels|
  {
    && ByTimer(s.log, Started, d) == 1
    && ByTimer(s.log, Stopped, d) + ByTimer(s.log, CalledBack, d) == (if s.dels[d].live then 0 else 1)
  }

  ghost predicate LogOk(s: State) {
    && (forall i | 0 <= i < |s.log| :: s.log[i].timer < |s.dels|)
    && (forall c: nat :: ClientBalanced(s, c))
    && (forall d: nat | d < |s.dels| :: TimerBalanced(s, d))
  }

  ghost predicate AllOk(s: State) {
    Inv(s) && SentOk(s) && LogOk(s)
  }

  // ---------- Histories over one step ----------

  /** Same delegates, messages sent, log and running timers. */
  predicate SameHistory(s: State, s': State) {
    Sent(s') == Sent(s) && s'.log == s.log && s'.dels == s.dels && s'.running == s.running
  }

  lemma TakeKeepsHistory(s: State)
    requires s.queue != [] && MsgOk(s, s.queue[0])
    ensures SameHistory(s, TakeMsg(s))
  {
    assert s.taken + [s.queue[0]] + s.queue[1..] == s.taken + s.queue;
  }

  lemma RearmKeepsHistory(s: State, k: Kind, prior: Option<Rankable>, del: Option<nat>)
    ensures SameHistory(s, Rearm(s, k, prior, del))
  {
  }

  lemma PopKeepsHistory(s: State, k: Kind, at: Timespec, first: bool)
    ensures SameHistory(s, ProcPop(s, k, at, first))
  {
    RearmKeepsHistory(s, k, None, None);
  }

  lemma {:induction false} MsgStepKeepsHistory(s: State)
    requires Base(s) && !(s.msg.Stopping? && s.msg.client in s.running)
    ensures SameHistory(s, StepMsg(s))
  {
    match s.msg
    case Idle =>
      if s.queue != [] {
        assert MsgOk(s, s.queue[0]);
        TakeKeepsHistory(s);
      }
    case Popping(k, at, first) => PopKeepsHistory(s, k, at, first);
    case _ =>
  }

  lemma SentAppend(s: State, s': State, m: Msg, d: nat)
    requires Sent(s') == Sent(s) + [m] && SentOk(s) && d < |s.dels| <= |s'.dels|
    requires s'.dels[d].kind == s.dels[d].kind && m != PushOf(s, d)
    ensures CountOf(Sent(s'), PushOf(s', d)) == 1
    ensures CountOf(Sent(s'), RemoveOf(s', d))
         == CountOf(Sent(s), RemoveOf(s, d)) + if m == RemoveOf(s, d) then 1 else 0
    ensures PushFirst(Sent(s'), PushOf(s', d), RemoveOf(s', d))
  {
    CountAppend(Sent(s), m, PushOf(s, d));
    CountAppend(Sent(s), m, RemoveOf(s, d));
    P.PushFirstAppend(Sent(s), m, PushOf(s, d), RemoveOf(s, d));
  }

  lemma StartKeepsSent(s: State, c: nat, k: Kind, ms: UInt32)
    requires Inv(s) && SentOk(s) && CanStart(s, c)
    ensures SentOk(StepStart(s, c, k, ms))
  {
    var s' := StepStart(s, c, k, ms);
    var n: nat := |s.dels|;
    var m := MsgPush(k, n);
    assert Sent(s') == Sent(s) + [m];
    forall i | 0 <= i < |Sent(s')| ensures MsgOk(s', Sent(s')[i]) {
      if i < |Sent(s)| { assert MsgOk(s, Sent(s)[i]); }
    }
    forall d: nat | d < |s'.dels|
      ensures CountOf(Sent(s'), PushOf(s', d)) == 1
           && CountOf(Sent(s'), RemoveOf(s', d)) == (if s'.dels[d].live then 0 else 1)
           && PushFirst(Sent(s'), PushOf(s', d), RemoveOf(s', d))
    {
      if d < n {
        SentAppend(s, s', m, d);
      } else {
        P.NoMessages(s, Sent(s), m);
        P.NoMessages(s, Sent(s), MsgRemove(k, n));
        CountAppend(Sent(s), m, m);
        CountAppend(Sent(s), m, MsgRemove(k, n));
        CountMember(Sent(s'), MsgRemove(k, n));
      }
    }
  }

  lemma StopKeepsSent(s: State, c: nat, what: What)
    requires Inv(s) && SentOk(s) && c in s.running
    ensures SentOk(StepStop(s, c, what))
  {
    var s' := StepStop(s, c, what);
    var d0 := s.running[c];
    var m := RemoveOf(s, d0);
    assert Sent(s') == Sent(s) + [m];
    forall i | 0 <= i < |Sent(s')| ensures MsgOk(s', Sent(s')[i]) {
      if i < |Sent(s)| { assert MsgOk(s, Sent(s)[i]); }
    }
    forall d: nat | d < |s'.dels|
      ensures CountOf(Sent(s'), PushOf(s', d)) == 1
           && CountOf(Sent(s'), RemoveOf(s', d)) == (if s'.dels[d].live then 0 else 1)
           && PushFirst(Sent(s'), PushOf(s', d), RemoveOf(s', d))
    {
      SentAppend(s, s', m, d);
    }
  }

  lemma SendKeepsSent(s: State)
    requires Inv(s) && SentOk(s) && P.Sends(s)
    ensures SentOk(StepPoll(s))
  {
    var s' := StepPoll(s);
    var m := MsgExpire(s.poll.k);
    assert Sent(s') == Sent(s) + [m];
    forall i | 0 <= i < |Sent(s')| ensures MsgOk(s', Sent(s')[i]) {
      if i < |Sent(s)| { assert MsgOk(s, Sent(s)[i]); }
    }
    forall d: nat | d < |s'.dels|
      ensures CountOf(Sent(s'), PushOf(s', d)) == 1
           && CountOf(Sent(s'), RemoveOf(s', d)) == (if s'.dels[d].live then 0 else 1)
           && PushFirst(Sent(s'), PushOf(s', d), RemoveOf(s', d))
    {
      SentAppend(s, s', m, d);
    }
  }

  lemma StartKeepsLog(s: State, c: nat, k: Kind, ms: UInt32)
    requires Inv(s) && LogOk(s) && CanStart(s, c)
    ensures LogOk(StepStart(s, c, k, ms))
  {
    var s' := StepStart(s, c, k, ms);
    assert s'.log[..|s.log|] == s.log;
    forall c': nat ensures ClientBalanced(s', c') { assert ClientBalanced(s, c'); }
    forall d: nat | d < |s'.dels| ensures TimerBalanced(s', d) {
      if d < |s.dels| {
        assert TimerBalanced(s, d);
      } else {
        ByTimerUnknown(s.log, Started, d);
        ByTimerUnknown(s.log, Stopped, d);
        ByTimerUnknown(s.log, CalledBack, d);
      }
    }
  }

  lemma StopKeepsLog(s: State, c: nat, what: What)
    requires Inv(s) && LogOk(s) && c in s.running && what != Started
    ensures LogOk(StepStop(s, c, what))
  {
    var s' := StepStop(s, c, what);
    assert s'.log[..|s.log|] == s.log;
    forall c': nat ensures ClientBalanced(s', c') { assert ClientBalanced(s, c'); }
    forall d: nat | d < |s'.dels| ensures TimerBalanced(s', d) { assert TimerBalanced(s, d); }
  }

  lemma QuietKeepsLog(s: State, s': State)
    requires LogOk(s) && s'.log == s.log && s'.dels == s.dels && s'.running == s.running
    ensures LogOk(s')
  {
    forall c': nat ensures ClientBalanced(s', c') { assert ClientBalanced(s, c'); }
    forall d: nat | d < |s'.dels| ensures TimerBalanced(s', d) { assert TimerBalanced(s, d); }
  }

  lemma SameHistoryKeepsAll(s: State, s': State)
    requires SentOk(s) && LogOk(s) && SameHistory(s, s')
    ensures SentOk(s') && LogOk(s')
  {
    QuietKeepsLog(s, s');
    assert forall m :: MsgOk(s, m) ==> MsgOk(s', m);
  }

  lemma {:induction false} MsgStepKeepsHistories(s: State)
    requires AllOk(s)
    ensures SentOk(StepMsg(s)) && LogOk(StepMsg(s))
  {
    if s.msg.Stopping? && s.msg.client in s.running {
      StopKeepsSent(s, s.msg.client, CalledBack);
      StopKeepsLog(s, s.msg.client, CalledBack);
      SameHistoryKeepsAll(StepStop(s, s.msg.client, CalledBack), StepMsg(s));
    } else {
      MsgStepKeepsHistory(s);
      SameHistoryKeepsAll(s, StepMsg(s));
    }
  }

  lemma PollStepKeepsHistories(s: State)
    requires AllOk(s)
    ensures SentOk(StepPoll(s)) && LogOk(StepPoll(s))
  {
    if P.Sends(s) {
      SendKeepsSent(s);
      QuietKeepsLog(s, StepPoll(s));
    } else {
      SameHistoryKeepsAll(s, StepPoll(s));
    }
  }

  lemma DestroyKeepsHistories(s: State, c: nat)
    requires AllOk(s)
    ensures SentOk(StepDestroy(s, c)) && LogOk(StepDestroy(s, c))
  {
    if c in s.locks.ending || c in s.locks.ended || c !in s.running {
      SameHistoryKeepsAll(s, StepDestroy(s, c));
    } else {
      StopKeepsSent(s, c, Stopped);
      StopKeepsLog(s, c, Stopped);
      SameHistoryKeepsAll(StepStop(s, c, Stopped), StepDestroy(s, c));
    }
  }

  lemma StepKeepsAll(s: State, l: Label)
    requires AllOk(s)
    ensures AllOk(Step(s, l))
  {
    P.StepKeepsInv(s, l);
    match l
    case Start(c, k, ms) =>
      if CanStart(s, c) { StartKeepsSent(s, c, k, ms); StartKeepsLog(s, c, k, ms); }
    case Stop(c) =>
      if c in s.running { StopKeepsSent(s, c, Stopped); StopKeepsLog(s, c, Stopped); }
    case Destroy(c) => DestroyKeepsHistories(s, c);
    case MsgStep => MsgStepKeepsHistories(s);
    case PollStep => PollStepKeepsHistories(s);
    case Tick(to) => SameHistoryKeepsAll(s, StepTick(s, to));
    case PollWake(k, both) => SameHistoryKeepsAll(s, StepWake(s, k, both));
  }

  // ---------- Runs ----------

  function Run(s: State, ls: seq<Label>): State
    decreases |ls|
  {
    if ls == [] then s else Run(Step(s, ls[0]), ls[1..])
  }

  lemma {:induction false} RunAppend(s: State, a: seq<Label>, b: seq<Label>)
    ensures Run(s, a + b) == Run(Run(s, a), b)
    decreases |a|
  {
    if a == [] {
      assert a + b == b;
    } else {
      assert (a + b)[1..] == a[1..] + b;
      RunAppend(Step(s, a[0]), a[1..], b);
    }
  }

  lemma RunOneMore(s: State, ls: seq<Label>, l: Label)
    ensures Run(s, ls + [l]) == Step(Run(s, ls), l)
  {
    RunAppend(s, ls, [l]);
    assert Run(Step(Run(s, ls), l), []) == Step(Run(s, ls), l);
  }

  lemma OtherStepKeepsPc(s: State, l: Label)
    requires !l.MsgStep?
    ensures Step(s, l).msg == s.msg
  {
  }

  lemma InitOk(now: Clock)
    requires Positive(now)
    ensures AllOk(Init(now))
  {
  }

  /** The service started at `now`, after any interleaving whatsoever. */
  function After(now: Clock, ls: seq<Label>): State
    requires Positive(now)
  {
    Run(Init(now), ls)
  }

  lemma {:induction false} RunKeepsAll(s: State, ls: seq<Label>)
    requires AllOk(s)
    ensures AllOk(Run(s, ls))
    decreases |ls|
  {
    if ls != [] {
      StepKeepsAll(s, ls[0]);
      RunKeepsAll(Step(s, ls[0]), ls[1..]);
    }
  }

  lemma AlwaysOk(now: Clock, ls: seq<Label>)
    requires Positive(now)
    ensures AllOk(After(now, ls))
  {
    InitOk(now);
    RunKeepsAll(Init(now), ls);
  }

  lemma AfterOneMore(now: Clock, ls: seq<Label>)
    requires Positive(now) && ls != []
    ensures After(now, ls) == Step(After(now, ls[..|ls| - 1]), ls[|ls| - 1])
  {
    assert ls == ls[..|ls| - 1] + [ls[|ls| - 1]];
    RunOneMore(Init(now), ls[..|ls| - 1], ls[|ls| - 1]);
  }

  /** Client, kind and due time never change, and timers are never taken off the list. */
  predicate SameTimers(s: State, t: State) {
    && |s.dels| <= |t.dels|
    && forall d | 0 <= d < |s.dels| :: t.dels[d].(live := s.dels[d].live) == s.dels[d]
  }

  lemma StepKeepsTimers(s: State, l: Label)
    requires Base(s)
    ensures SameTimers(s, Step(s, l))
    ensures !l.Start? ==> |Step(s, l).dels| == |s.dels|
  {
    if l.MsgStep? && !(s.msg.Stopping? && s.msg.client in s.running) { MsgStepKeepsHistory(s); }
  }

  lemma {:induction false} RunKeepsTimers(s: State, ls: seq<Label>)
    requires Inv(s)
    ensures SameTimers(s, Run(s, ls))
    decreases |ls|
  {
    if ls != [] {
      StepKeepsTimers(s, ls[0]);
      P.StepKeepsInv(s, ls[0]);
      RunKeepsTimers(Step(s, ls[0]), ls[1..]);
    }
  }

  lemma PrefixKeepsTimers(now: Clock, ls: seq<Label>, i: nat)
    requires Positive(now) && i <= |ls|
    ensures SameTimers(After(now, ls[..i]), After(now, ls))
  {
    AlwaysOk(now, ls[..i]);
    assert ls == ls[..i] + ls[i..];
    RunAppend(Init(now), ls[..i], ls[i..]);
    RunKeepsTimers(After(now, ls[..i]), ls[i..]);
  }

  // ---------- No lost wakeup ----------

  /** A non-empty heap is never forgotten: its descriptor is armed for the top's due time and polled,
      or the poll thread has woken for it, or an expire message is queued, or the message thread is
      expiring or re-arming it. */
  lemma NoLostWakeup(now: Clock, ls: seq<Label>, k: Kind)
    requires Positive(now)
    ensures var s := After(now, ls);
      Get(s, k).heap.Node? ==>
        || ArmedForTop(s, k)
        || Pending(s, k)
        || MsgExpire(k) in s.queue
        || Expiring(s, k)
        || Arming(s, k)
  {
    AlwaysOk(now, ls);
  }

  predicate Quiescent(s: State) {
    s.queue == [] && s.msg.Idle? && s.poll.Waiting?
  }

  function WakeSteps(k: Kind): seq<Label> {
    [PollWake(k, false), PollStep, PollStep, PollStep]
  }

  /** The service once the poll thread has turned a readable descriptor into an expire message. */
  function Woken(s: State, k: Kind): State {
    Put(s, k, Get(s, k).(armed := None, polled := false)).(queue := s.queue + [MsgExpire(k)])
  }

  lemma WakingSends(s: State, k: Kind)
    requires s.poll.Waiting? && Readable(s, k)
    ensures Run(s, WakeSteps(k)) == Woken(s, k)
  {
    var c := Get(s, k);
    var s1 := s.(poll := Handling(ToDisarm, k, None));
    var s2 := Put(s, k, c.(armed := None)).(poll := Handling(ToUnpoll, k, None));
    var s3 := Put(s, k, c.(armed := None, polled := false)).(poll := Handling(ToSend, k, None));
    KernelCalls(s, k);
    assert Step(s, PollWake(k, false)) == s1;
    FourSteps(s, s1, s2, s3, Woken(s, k), PollWake(k, false), PollStep, PollStep, PollStep);
  }

  lemma KernelCalls(s: State, k: Kind)
    requires s.poll.Waiting?
    ensures var c := Get(s, k);
      var s1 := s.(poll := Handling(ToDisarm, k, None));
      var s2 := Put(s, k, c.(armed := None)).(poll := Handling(ToUnpoll, k, None));
      var s3 := Put(s, k, c.(armed := None, polled := false)).(poll := Handling(ToSend, k, None));
      StepPoll(s1) == s2 && StepPoll(s2) == s3 && StepPoll(s3) == Woken(s, k)
  {
  }

  lemma FourSteps(s: State, s1: State, s2: State, s3: State, s4: State, l1: Label, l2: Label, l3: Label, l4: Label)
    requires Step(s, l1) == s1 && Step(s1, l2) == s2 && Step(s2, l3) == s3 && Step(s3, l4) == s4
    ensures Run(s, [l1, l2, l3, l4]) == s4
  {
    RunOneMore(s, [], l1);
    RunOneMore(s, [l1], l2);
    RunOneMore(s, [l1, l2], l3);
    RunOneMore(s, [l1, l2, l3], l4);
    assert [] + [l1] == [l1] && [l1] + [l2] == [l1, l2] && [l1, l2] + [l3] == [l1, l2, l3];
    assert [l1, l2, l3] + [l4] == [l1, l2, l3, l4];
  }

  function BothWakeSteps(k: Kind): seq<Label> {
    [PollWake(k, true), PollStep, PollStep, PollStep, PollStep, PollStep, PollStep]
  }

  /** When the poll thread wakes for both descriptors at once, it deals with one and then the other. */
  lemma WakingSendsBoth(s: State, k: Kind)
    requires s.poll.Waiting? && Readable(s, k) && Readable(s, Other(k))
    ensures Run(s, BothWakeSteps(k)) == Woken(Woken(s, k), Other(k))
  {
    var first := [PollWake(k, true), PollStep, PollStep, PollStep];
    assert BothWakeSteps(k) == first + [PollStep, PollStep, PollStep];
    RunAppend(s, first, [PollStep, PollStep, PollStep]);
    WakingSendsFirst(s, k);
    SendsSecond(Woken(s, k), Other(k));
  }

  lemma WakingSendsFirst(s: State, k: Kind)
    requires s.poll.Waiting? && Readable(s, k) && Readable(s, Other(k))
    ensures Run(s, [PollWake(k, true), PollStep, PollStep, PollStep])
         == Woken(s, k).(poll := Handling(ToDisarm, Other(k), None))
  {
    var c := Get(s, k);
    var o := Some(Other(k));
    var s1 := s.(poll := Handling(ToDisarm, k, o));
    var s2 := Put(s, k, c.(armed := None)).(poll := Handling(ToUnpoll, k, o));
    var s3 := Put(s, k, c.(armed := None, polled := false)).(poll := Handling(ToSend, k, o));
    var s4 := Woken(s, k).(poll := Handling(ToDisarm, Other(k), None));
    FirstOfBoth(s, k);
    assert Step(s, PollWake(k, true)) == s1;
    FourSteps(s, s1, s2, s3, s4, PollWake(k, true), PollStep, PollStep, PollStep);
  }

  lemma SendsSecond(u: State, k: Kind)
    requires u.poll.Waiting?
    ensures Run(u.(poll := Handling(ToDisarm, k, None)), [PollStep, PollStep, PollStep]) == Woken(u, k)
  {
    var d := Get(u, k);
    var s1 := u.(poll := Handling(ToDisarm, k, None));
    var s2 := Put(u, k, d.(armed := None)).(poll := Handling(ToUnpoll, k, None));
    var s3 := Put(u, k, d.(armed := None, polled := false)).(poll := Handling(ToSend, k, None));
    KernelCalls(u, k);
    ThreeSteps(s1, s2, s3, Woken(u, k), PollStep, PollStep, PollStep);
  }

  lemma ThreeSteps(s: State, s1: State, s2: State, s3: State, l1: Label, l2: Label, l3: Label)
    requires Step(s, l1) == s1 && Step(s1, l2) == s2 && Step(s2, l3) == s3
    ensures Run(s, [l1, l2, l3]) == s3
  {
    RunOneMore(s, [], l1);
    RunOneMore(s, [l1], l2);
    RunOneMore(s, [l1, l2], l3);
    assert [] + [l1] == [l1] && [l1] + [l2] == [l1, l2] && [l1, l2] + [l3] == [l1, l2, l3];
  }

  lemma FirstOfBoth(s: State, k: Kind)
    requires s.poll.Waiting?
    ensures var c := Get(s, k); var o := Some(Other(k));
      var s1 := s.(poll := Handling(ToDisarm, k, o));
      var s2 := Put(s, k, c.(armed := None)).(poll := Handling(ToUnpoll, k, o));
      var s3 := Put(s, k, c.(armed := None, polled := false)).(poll := Handling(ToSend, k, o));
      && StepPoll(s1) == s2 && StepPoll(s2) == s3
      && StepPoll(s3) == Woken(s, k).(poll := Handling(ToDisarm, Other(k), None))
  {
  }

  lemma TopIsSoonest(s: State, k: Kind, d: nat)
    requires HeapOk(s, k) && d < |s.dels| && s.dels[d].kind == k && InHeap(s, d) > 0
    ensures var heap := Get(s, k).heap;
      heap.Node? && heap.data.id < |s.dels| && s.dels[heap.data.id].due.sec <= s.dels[d].due.sec
  {
    var heap := Get(s, k).heap;
    ContentsAt(heap, Ranked(s, d));
    TopIsHighest(heap, Ranked(s, d));
    assert Occurrences(heap, heap.data) > 0;
  }

  /** Once both threads have come to rest, the descriptor is armed for the heap's top, than which no
      timer is due in an earlier second; and when that time has come, waking the poll thread does queue
      the expire message. */
  lemma RestingServiceWakes(now: Clock, ls: seq<Label>, k: Kind)
    requires Positive(now) && Quiescent(After(now, ls)) && Get(After(now, ls), k).heap.Node?
    ensures var s := After(now, ls); var top := Get(s, k).heap.data;
      && top.id < |s.dels| && Get(s, k).armed == Some(s.dels[top.id].due) && Get(s, k).polled
      && (forall d: nat | d < |s.dels| && InHeap(s, d) > 0 && s.dels[d].kind == k ::
            s.dels[top.id].due.sec <= s.dels[d].due.sec)
      && (!Earlier(s.now, s.dels[top.id].due) ==>
            Run(s, WakeSteps(k)) == Woken(s, k) && Woken(s, k).queue == [MsgExpire(k)])
  {
    AlwaysOk(now, ls);
    var s := After(now, ls);
    var heap := Get(s, k).heap;
    assert Occurrences(heap, heap.data) > 0;
    forall d: nat | d < |s.dels| && InHeap(s, d) > 0 && s.dels[d].kind == k
      ensures s.dels[heap.data.id].due.sec <= s.dels[d].due.sec
    {
      TopIsSoonest(s, k, d);
    }
    if !Earlier(s.now, s.dels[heap.data.id].due) { WakingSends(s, k); }
  }

  /** At rest the descriptor becomes readable less than a second after any timer of the heap is due,
      and not before the top is: a timer due earlier within the top's second waits for the top. */
  lemma RestingTimerIsUnderASecondLate(now: Clock, ls: seq<Label>, k: Kind, d: nat)
    requires Positive(now) && Quiescent(After(now, ls))
    requires var s := After(now, ls); d < |s.dels| && s.dels[d].kind == k && InHeap(s, d) > 0
    ensures var s := After(now, ls); var c := Get(s, k);
      && c.heap.Node? && c.heap.data.id < |s.dels|
      && c.armed.Some? && Nanos(c.armed.value) - Nanos(s.dels[d].due) < NANOS_PER_SEC
      && (Readable(s, k) <==> !Earlier(s.now, s.dels[c.heap.data.id].due))
  {
    AlwaysOk(now, ls);
    TopIsSoonest(After(now, ls), k, d);
    RestingServiceWakes(now, ls, k);
  }

  // ---------- Life of a delegate ----------

  /** Every delegate is pushed by exactly one message; it gets exactly one remove message, sent after
      the push, once it has been stopped and none before; it is in at most one place; and it is
      deleted at most once, when its push and its remove have both been taken, it is in no heap and
      the expire loop does not hold it. */
  lemma DelegateLifecycle(now: Clock, ls: seq<Label>, d: nat)
    requires Positive(now) && d < |After(now, ls).dels|
    ensures var s := After(now, ls);
      && CountOf(Sent(s), PushOf(s, d)) == 1
      && CountOf(Sent(s), RemoveOf(s, d)) == (if s.dels[d].live then 0 else 1)
      && PushFirst(Sent(s), PushOf(s, d), RemoveOf(s, d))
      && CountOf(s.queue, PushOf(s, d)) + InHeap(s, d) + (if Held(s.msg, d) then 1 else 0) <= 1
      && CountOf(s.freed, d) <= 1
      && (d in s.freed ==>
            && PushOf(s, d) in s.taken && RemoveOf(s, d) in s.taken
            && PushOf(s, d) !in s.queue && RemoveOf(s, d) !in s.queue
            && InHeap(s, d) == 0 && !Held(s.msg, d))
  {
    AlwaysOk(now, ls);
    var s := After(now, ls);
    assert DelegateOk(s, d);
    CountMember(s.freed, d);
    CountMember(s.queue, PushOf(s, d));
    CountMember(s.queue, RemoveOf(s, d));
    CountMember(Sent(s), PushOf(s, d));
    CountMember(Sent(s), RemoveOf(s, d));
  }

  /** A delegate the expire loop popped and has finished with is stopped, and its one remove message
      is queued, being processed, or has already deleted it. */
  lemma PoppedIsDisposedOf(now: Clock, ls: seq<Label>, d: nat)
    requires Positive(now) && d < |After(now, ls).dels|
    requires var s := After(now, ls);
      PushOf(s, d) !in s.queue && InHeap(s, d) == 0 && !Held(s.msg, d)
    ensures var s := After(now, ls);
      && !s.dels[d].live
      && CountOf(s.queue, RemoveOf(s, d)) + (if Doomed(s.msg, d) then 1 else 0) + CountOf(s.freed, d) == 1
  {
    AlwaysOk(now, ls);
    var s := After(now, ls);
    assert DelegateOk(s, d);
    CountMember(s.queue, PushOf(s, d));
  }

  /** Nothing leaks: when the service rests, a delegate exists exactly while its timer runs. */
  lemma RestingServiceLeaksNothing(now: Clock, ls: seq<Label>, d: nat)
    requires Positive(now) && Quiescent(After(now, ls)) && d < |After(now, ls).dels|
    ensures var s := After(now, ls);
      && (d in s.freed <==> !s.dels[d].live)
      && (s.dels[d].live <==> InHeap(s, d) == 1)
      && (s.dels[d].live <==> s.dels[d].client in s.running && s.running[s.dels[d].client] == d)
  {
    AlwaysOk(now, ls);
    var s := After(now, ls);
    assert DelegateOk(s, d);
    CountMember(s.freed, d);
  }

  // ---------- Conservation of starts, stops and callbacks ----------

  /** For each LocTimer, successful starts are successful client stops plus callbacks plus one if it
      is running; and each single start ends at most once, in one way or the other. */
  lemma TimerConservation(now: Clock, ls: seq<Label>)
    requires Positive(now)
    ensures var s := After(now, ls);
      && (forall c: nat :: ClientBalanced(s, c))
      && (forall d: nat | d < |s.dels| :: TimerBalanced(s, d))
  {
    AlwaysOk(now, ls);
  }
}
