/** Each step keeps the invariant; hence every run does. */
module LocTimerProofs {
  import opened Options
  import opened LocTimerClock
  import opened LocHeapTree
  import opened LocTimerProtocol
  import opened LocTimerInvariant

  // ---------- Queue facts ----------

  lemma PushFirstAppend(q: seq<Msg>, m: Msg, p: Msg, r: Msg)
    requires PushFirst(q, p, r) && p != r && (m == p ==> CountOf(q, r) == 0)
    ensures PushFirst(q + [m], p, r)
  {
    CountMember(q, r);
  }

  lemma PushFirstTail(q: seq<Msg>, p: Msg, r: Msg)
    requires q != [] && PushFirst(q, p, r)
    ensures PushFirst(q[1..], p, r)
    ensures q[0] == r && p != r ==> CountOf(q[1..], p) == 0
  {
    CountMember(q[1..], p);
    forall i, j | 0 <= i < |q[1..]| && 0 <= j < |q[1..]| && q[1..][i] == p && q[1..][j] == r
      ensures i < j
    {
      assert q[i + 1] == p && q[j + 1] == r;
    }
    if q[0] == r && p != r {
      assert forall i | 0 <= i < |q[1..]| :: q[1..][i] == q[i + 1] && q[i + 1] != p;
    }
  }

  /** No message names a delegate that does not exist yet. */
  lemma {:induction false} NoMessages(s: State, q: seq<Msg>, m: Msg)
    requires forall i | 0 <= i < |q| :: MsgOk(s, q[i])
    requires !MsgOk(s, m)
    ensures CountOf(q, m) == 0
  {
    CountMember(q, m);
  }

  // ---------- start ----------

  lemma StartKeepsBase(s: State, c: nat, k: Kind, ms: UInt32)
    requires Base(s)
    ensures Base(StepStart(s, c, k, ms))
  {
  }

  lemma StartKeepsDelegate(s: State, c: nat, k: Kind, ms: UInt32, d: nat)
    requires Base(s) && DelegatesOk(s)
    requires d < |StepStart(s, c, k, ms).dels|
    ensures DelegateOk(StepStart(s, c, k, ms), d)
  {
    var s' := StepStart(s, c, k, ms);
    if s' != s {
      var n: nat := |s.dels|;
      var m := MsgPush(k, n);
      if d < n {
        assert DelegateOk(s, d);
        CountAppend(s.queue, m, PushOf(s, d));
        CountAppend(s.queue, m, RemoveOf(s, d));
        PushFirstAppend(s.queue, m, PushOf(s, d), RemoveOf(s, d));
      } else {
        NoMessages(s, s.queue, m);
        NoMessages(s, s.queue, MsgRemove(k, n));
        CountAppend(s.queue, m, m);
        CountAppend(s.queue, m, MsgRemove(k, n));
        CountMember(s.queue, MsgRemove(k, n));
        CountMember(s.freed, n);
      }
    }
  }

  lemma StartKeepsWake(s: State, c: nat, k: Kind, ms: UInt32, k': Kind)
    requires Base(s) && WakeOk(s, k')
    ensures WakeOk(StepStart(s, c, k, ms), k')
  {
    var s' := StepStart(s, c, k, ms);
    assert MsgExpire(k') in s.queue ==> MsgExpire(k') in s'.queue;
  }

  // ---------- stop, by a client or by the expire loop ----------

  lemma StopKeepsBase(s: State, c: nat, what: What)
    requires Base(s) && DelegatesOk(s)
    ensures Base(StepStop(s, c, what))
  {
    if c in s.running {
      var d0 := s.running[c];
      var s' := StepStop(s, c, what);
      forall e <- s'.running ensures s'.running[e] != d0 {
        assert s.dels[s.running[e]].client == e;
      }
    }
  }

  lemma StopKeepsDelegate(s: State, c: nat, what: What, d: nat)
    requires Base(s) && DelegatesOk(s) && d < |s.dels|
    ensures DelegateOk(StepStop(s, c, what), d)
  {
    assert DelegateOk(s, d);
    if c in s.running {
      var m := RemoveOf(s, s.running[c]);
      CountAppend(s.queue, m, PushOf(s, d));
      CountAppend(s.queue, m, RemoveOf(s, d));
      PushFirstAppend(s.queue, m, PushOf(s, d), RemoveOf(s, d));
    }
  }

  lemma StopKeepsWake(s: State, c: nat, what: What, k: Kind)
    requires Base(s) && WakeOk(s, k)
    ensures WakeOk(StepStop(s, c, what), k)
  {
    var s' := StepStop(s, c, what);
    assert MsgExpire(k) in s.queue ==> MsgExpire(k) in s'.queue;
  }

  // ---------- pieces of a message being processed ----------

  function Taken(s: State): State
    requires s.queue != []
  {
    s.(queue := s.queue[1..], taken := s.taken + [s.queue[0]])
  }

  function WithHeap(s: State, k: Kind, heap: Tree): State {
    Put(s, k, Get(s, k).(heap := heap))
  }

  lemma TakenKeepsBase(s: State)
    requires Base(s) && s.queue != []
    ensures Base(Taken(s)) && MsgOk(s, s.queue[0])
  {
    forall i | 0 <= i < |s.queue[1..]| ensures MsgOk(s, s.queue[1..][i]) {
      assert MsgOk(s, s.queue[i + 1]);
    }
  }

  lemma WithHeapKeepsBase(s: State, k: Kind, heap: Tree)
    requires Base(s) && !s.msg.AddPoll? && !s.msg.SetTime? && HeapOk(WithHeap(s, k, heap), k)
    ensures Base(WithHeap(s, k, heap))
  {
    var s' := WithHeap(s, k, heap);
    assert HeapOk(s, Other(k));
    assert HeapOk(s', Other(k));
    assert forall i | 0 <= i < |s'.queue| :: MsgOk(s, s.queue[i]) ==> MsgOk(s', s'.queue[i]);
  }

  lemma PcKeepsBase(s: State, pc: MsgPc)
    requires Base(s) && PcOk(s.(msg := pc))
    ensures Base(s.(msg := pc))
  {
    var s' := s.(msg := pc);
    assert HeapOk(s', SwTimers) && HeapOk(s', HwTimers);
    assert forall i | 0 <= i < |s'.queue| :: MsgOk(s, s.queue[i]) ==> MsgOk(s', s'.queue[i]);
  }

  lemma RearmKeepsBase(s: State, k: Kind, prior: Option<Rankable>, del: Option<nat>)
    requires Base(s) && DelOk(s, del) && UpdateFor(prior, TopOf(Get(s, k).heap)) != Disarm
    ensures Base(Rearm(s, k, prior, del))
  {
    var heap := Get(s, k).heap;
    if heap.Node? {
      assert Occurrences(heap, heap.data) > 0;
    }
    PcKeepsBase(s, Rearm(s, k, prior, del).msg);
  }

  /** Re-arming only moves the program counter. */
  lemma RearmIsPc(s: State, k: Kind, prior: Option<Rankable>, del: Option<nat>)
    requires HeapOk(s, k) && UpdateFor(prior, TopOf(Get(s, k).heap)) != Disarm
    ensures var pc := Rearm(s, k, prior, del).msg;
      && Rearm(s, k, prior, del) == s.(msg := pc)
      && (if UpdateFor(prior, TopOf(Get(s, k).heap)) == Arm
          then pc == AddPoll(k, s.dels[Get(s, k).heap.data.id].due, del)
          else pc == AfterUpdate(del))
  {
    var heap := Get(s, k).heap;
    if heap.Node? {
      assert Occurrences(heap, heap.data) > 0;
    }
  }

  // ---------- processing a push ----------

  lemma PushedHeapOk(s: State, k: Kind, d0: nat)
    requires HeapOk(s, k) && d0 < |s.dels| && s.dels[d0].kind == k
    ensures HeapOk(WithHeap(s, k, Push(Get(s, k).heap, Ranked(s, d0))), k)
  {
    var heap := Get(s, k).heap;
    PushSound(heap, Ranked(s, d0));
    forall x: Rankable | Occurrences(Push(heap, Ranked(s, d0)), x) > 0
      ensures x.id < |s.dels| && s.dels[x.id].kind == k && x == Ranked(s, x.id)
    {
      PushOccurrences(heap, Ranked(s, d0), x);
    }
  }

  predicate PushNext(s: State, k: Kind, d0: nat) {
    s.msg.Idle? && s.queue != [] && s.queue[0] == MsgPush(k, d0) && d0 < |s.dels|
  }

  /** The state between the heap's push and the kernel update. */
  function Pushed(s: State, k: Kind, d0: nat): State
    requires PushNext(s, k, d0)
  {
    WithHeap(Taken(s), k, Push(Get(s, k).heap, Ranked(s, d0)))
  }

  lemma PushSplits(s: State, k: Kind, d0: nat)
    requires PushNext(s, k, d0) && HeapOk(s, k) && s.dels[d0].kind == k
    ensures HeapOk(Pushed(s, k, d0), k)
    ensures UpdateFor(TopOf(Get(s, k).heap), TopOf(Get(Pushed(s, k, d0), k).heap)) != Disarm
    ensures TakeMsg(s) == Rearm(Pushed(s, k, d0), k, TopOf(Get(s, k).heap), None)
  {
    PushedHeapOk(Taken(s), k, d0);
  }

  lemma PushKeepsBase(s: State, k: Kind, d0: nat)
    requires Base(s) && PushNext(s, k, d0)
    ensures Base(TakeMsg(s))
  {
    TakenKeepsBase(s);
    PushSplits(s, k, d0);
    WithHeapKeepsBase(Taken(s), k, Push(Get(s, k).heap, Ranked(s, d0)));
    RearmKeepsBase(Pushed(s, k, d0), k, TopOf(Get(s, k).heap), None);
  }

  lemma PushKeepsDelegate(s: State, k: Kind, d0: nat, d: nat)
    requires Base(s) && PushNext(s, k, d0) && d < |s.dels| && DelegateOk(s, d)
    ensures DelegateOk(TakeMsg(s), d)
  {
    assert MsgOk(s, s.queue[0]);
    PushSplits(s, k, d0);
    RearmIsPc(Pushed(s, k, d0), k, TopOf(Get(s, k).heap), None);
    PushOccurrences(Get(s, k).heap, Ranked(s, d0), Ranked(s, d));
    PushFirstTail(s.queue, PushOf(s, d), RemoveOf(s, d));
  }

  lemma {:induction false} PushKeepsWake(s: State, k: Kind, d0: nat, k': Kind)
    requires Base(s) && PushNext(s, k, d0) && WakeOk(s, k')
    ensures WakeOk(TakeMsg(s), k')
  {
    assert MsgOk(s, s.queue[0]);
    PushSplits(s, k, d0);
    RearmIsPc(Pushed(s, k, d0), k, TopOf(Get(s, k).heap), None);
    PushSound(Get(s, k).heap, Ranked(s, d0));
    assert MsgExpire(k') in s.queue ==> MsgExpire(k') in s.queue[1..];
  }

  // ---------- processing a remove ----------

  predicate RemoveNext(s: State, k: Kind, d0: nat) {
    && s.msg.Idle? && s.queue != [] && s.queue[0] == MsgRemove(k, d0)
    && d0 < |s.dels| && s.dels[d0].kind == k
  }

  function Removed(s: State, k: Kind, d0: nat): State
    requires RemoveNext(s, k, d0)
  {
    WithHeap(Taken(s), k, RemoveFrom(Get(s, k).heap, Ranked(s, d0)).tree)
  }

  lemma {:induction false} RemoveFromFacts(t: Tree, x: Rankable)
    requires Sound(t)
    ensures var r := RemoveFrom(t, x);
      && Sound(r.tree)
      && (r.found <==> Occurrences(t, x) > 0)
      && (!r.found ==> r.tree == t)
      && (TopOf(t) != Some(x) ==> TopOf(r.tree) == TopOf(t))
  {
    ContentsAt(t, x);
    if t.Node? {
      RemoveSound(t, x);
      RemoveContents(t, x);
    }
  }

  lemma RemoveFromOccurrences(t: Tree, x: Rankable, y: Rankable)
    requires Sound(t)
    ensures var r := RemoveFrom(t, x);
      Occurrences(t, y) == Occurrences(r.tree, y) + if r.found && x == y then 1 else 0
  {
    RemoveFromFacts(t, x);
    if t.Node? {
      RemoveOccurrences(t, x, y);
    }
  }

  lemma RemovedHeapOk(s: State, k: Kind, d0: nat)
    requires HeapOk(s, k) && d0 < |s.dels|
    ensures HeapOk(WithHeap(s, k, RemoveFrom(Get(s, k).heap, Ranked(s, d0)).tree), k)
  {
    var heap := Get(s, k).heap;
    RemoveFromFacts(heap, Ranked(s, d0));
    forall x: Rankable | Occurrences(RemoveFrom(heap, Ranked(s, d0)).tree, x) > 0
      ensures x.id < |s.dels| && s.dels[x.id].kind == k && x == Ranked(s, x.id)
    {
      RemoveFromOccurrences(heap, Ranked(s, d0), x);
    }
  }

  /** The kernel is updated only if the top itself went. */
  lemma RemoveSplits(s: State, k: Kind, d0: nat)
    requires RemoveNext(s, k, d0) && HeapOk(s, k)
    ensures HeapOk(Removed(s, k, d0), k)
    ensures UpdateFor(None, TopOf(Get(Removed(s, k, d0), k).heap)) != Disarm
    ensures var top := TopOf(Get(s, k).heap); var s1 := Removed(s, k, d0);
      if top.None? || top == Some(Ranked(s, d0))
      then TakeMsg(s) == Rearm(s1, k, None, Some(d0))
      else TakeMsg(s) == s1.(msg := Deleting(d0)) && TopOf(Get(s1, k).heap) == top
  {
    RemovedHeapOk(Taken(s), k, d0);
    RemoveFromFacts(Get(s, k).heap, Ranked(s, d0));
  }

  lemma RemoveKeepsBase(s: State, k: Kind, d0: nat)
    requires Base(s) && RemoveNext(s, k, d0)
    ensures Base(TakeMsg(s))
  {
    TakenKeepsBase(s);
    RemoveSplits(s, k, d0);
    var s1 := Removed(s, k, d0);
    WithHeapKeepsBase(Taken(s), k, RemoveFrom(Get(s, k).heap, Ranked(s, d0)).tree);
    if TakeMsg(s) == Rearm(s1, k, None, Some(d0)) {
      RearmKeepsBase(s1, k, None, Some(d0));
    } else {
      PcKeepsBase(s1, Deleting(d0));
    }
  }

  lemma RemoveLeavesPc(s: State, k: Kind, d0: nat)
    requires Base(s) && RemoveNext(s, k, d0)
    ensures TakeMsg(s) == Removed(s, k, d0).(msg := TakeMsg(s).msg)
    ensures forall d: nat :: !Held(TakeMsg(s).msg, d) && (Doomed(TakeMsg(s).msg, d) <==> d == d0)
  {
    RemoveSplits(s, k, d0);
    var s1 := Removed(s, k, d0);
    if TakeMsg(s) == Rearm(s1, k, None, Some(d0)) {
      RearmIsPc(s1, k, None, Some(d0));
    }
  }

  lemma RemoveKeepsDelegate(s: State, k: Kind, d0: nat, d: nat)
    requires Base(s) && RemoveNext(s, k, d0) && d < |s.dels| && DelegateOk(s, d)
    ensures DelegateOk(TakeMsg(s), d)
  {
    RemoveLeavesPc(s, k, d0);
    RemoveFromFacts(Get(s, k).heap, Ranked(s, d0));
    RemoveFromOccurrences(Get(s, k).heap, Ranked(s, d0), Ranked(s, d));
    PushFirstTail(s.queue, PushOf(s, d), RemoveOf(s, d));
  }

  lemma RemoveKeepsWake(s: State, k: Kind, d0: nat, k': Kind)
    requires Base(s) && RemoveNext(s, k, d0) && WakeOk(s, k')
    ensures WakeOk(TakeMsg(s), k')
  {
    RemoveSplits(s, k, d0);
    var s1 := Removed(s, k, d0);
    if TakeMsg(s) == Rearm(s1, k, None, Some(d0)) {
      RearmIsPc(s1, k, None, Some(d0));
    }
    assert MsgExpire(k') in s.queue ==> MsgExpire(k') in s.queue[1..];
  }

  // ---------- processing an expire ----------

  predicate ExpireNext(s: State, k: Kind) {
    s.msg.Idle? && s.queue != [] && s.queue[0] == MsgExpire(k)
  }

  lemma ExpireKeepsBase(s: State, k: Kind)
    requires Base(s) && ExpireNext(s, k)
    ensures Base(TakeMsg(s))
  {
    TakenKeepsBase(s);
    PcKeepsBase(Taken(s), Popping(k, s.now, true));
  }

  lemma ExpireKeepsDelegate(s: State, k: Kind, d: nat)
    requires Base(s) && ExpireNext(s, k) && d < |s.dels| && DelegateOk(s, d)
    ensures DelegateOk(TakeMsg(s), d)
  {
    PushFirstTail(s.queue, PushOf(s, d), RemoveOf(s, d));
  }

  lemma ExpireKeepsWake(s: State, k: Kind, k': Kind)
    requires Base(s) && ExpireNext(s, k) && WakeOk(s, k')
    ensures WakeOk(TakeMsg(s), k')
  {
    assert MsgExpire(k') in s.queue ==> k == k' || MsgExpire(k') in s.queue[1..];
  }

  // ---------- one turn of the expire loop ----------

  predicate Pops(s: State, k: Kind, at: Timespec, first: bool) {
    && s.msg == Popping(k, at, first)
    && var heap := Get(s, k).heap;
       heap.Node? && (first || !OutRanks(RankOf(0, at), heap.data))
  }

  lemma PoppedHeapOk(s: State, k: Kind)
    requires HeapOk(s, k) && Get(s, k).heap.Node?
    ensures HeapOk(WithHeap(s, k, Pop(Get(s, k).heap)), k)
  {
    var heap := Get(s, k).heap;
    PopSound(heap);
    forall x: Rankable | Occurrences(Pop(heap), x) > 0
      ensures x.id < |s.dels| && s.dels[x.id].kind == k && x == Ranked(s, x.id)
    {
      PopOccurrences(heap, x);
    }
  }

  lemma PopKeepsBase(s: State, k: Kind, at: Timespec, first: bool)
    requires Base(s) && s.msg == Popping(k, at, first)
    ensures Base(ProcPop(s, k, at, first))
  {
    if Pops(s, k, at, first) {
      var heap := Get(s, k).heap;
      assert Occurrences(heap, heap.data) > 0;
      PoppedHeapOk(s, k);
      WithHeapKeepsBase(s, k, Pop(heap));
      PcKeepsBase(WithHeap(s, k, Pop(heap)), Firing(k, at, heap.data.id));
    } else {
      RearmKeepsBase(s, k, None, None);
    }
  }

  lemma PopKeepsDelegate(s: State, k: Kind, at: Timespec, first: bool, d: nat)
    requires Base(s) && s.msg == Popping(k, at, first) && d < |s.dels| && DelegateOk(s, d)
    ensures DelegateOk(ProcPop(s, k, at, first), d)
  {
    if Pops(s, k, at, first) {
      var heap := Get(s, k).heap;
      assert Occurrences(heap, heap.data) > 0;
      PopOccurrences(heap, Ranked(s, d));
    } else {
      RearmIsPc(s, k, None, None);
    }
  }

  lemma PopKeepsWake(s: State, k: Kind, at: Timespec, first: bool, k': Kind)
    requires Base(s) && s.msg == Popping(k, at, first) && WakeOk(s, k')
    ensures WakeOk(ProcPop(s, k, at, first), k')
  {
    if !Pops(s, k, at, first) {
      RearmIsPc(s, k, None, None);
    }
  }

  // ---------- steps that leave heaps, delegates and clients alone ----------

  predicate SameData(s: State, s': State) {
    && s'.dels == s.dels && s'.running == s.running
    && s'.sw.heap == s.sw.heap && s'.hw.heap == s.hw.heap
  }

  lemma SameDataKeepsPc(s: State, s': State)
    requires PcOk(s) && SameData(s, s') && s'.msg == s.msg
    ensures PcOk(s')
  {
  }

  lemma SameDataKeepsBase(s: State, s': State)
    requires Base(s) && SameData(s, s') && Positive(s'.now) && PcOk(s')
    requires s'.queue == s.queue || exists k :: s'.queue == s.queue + [MsgExpire(k)]
    requires s'.freed == s.freed || exists d: nat | d < |s.dels| :: s'.freed == s.freed + [d]
    ensures Base(s')
  {
    assert HeapOk(s', SwTimers) && HeapOk(s', HwTimers) by {
      assert HeapOk(s, SwTimers) && HeapOk(s, HwTimers);
    }
    forall i | 0 <= i < |s'.queue| ensures MsgOk(s', s'.queue[i]) {
      if i < |s.queue| { assert MsgOk(s, s.queue[i]); }
    }
  }

  lemma SameDataKeepsDelegate(s: State, s': State, d: nat)
    requires d < |s.dels| && DelegateOk(s, d) && SameData(s, s') && s'.freed == s.freed
    requires s'.queue == s.queue || exists k :: s'.queue == s.queue + [MsgExpire(k)]
    requires Held(s'.msg, d) <==> Held(s.msg, d)
    requires Doomed(s'.msg, d) <==> Doomed(s.msg, d)
    ensures DelegateOk(s', d)
  {
    if s'.queue != s.queue {
      var k :| s'.queue == s.queue + [MsgExpire(k)];
      CountAppend(s.queue, MsgExpire(k), PushOf(s, d));
      CountAppend(s.queue, MsgExpire(k), RemoveOf(s, d));
      PushFirstAppend(s.queue, MsgExpire(k), PushOf(s, d), RemoveOf(s, d));
    }
  }

  // ---------- the remaining turns of the message thread ----------

  lemma AddPollKeepsInv(s: State)
    requires Inv(s) && s.msg.AddPoll?
    ensures Inv(StepMsg(s))
  {
    var s' := StepMsg(s);
    SameDataKeepsBase(s, s');
    forall d | 0 <= d < |s.dels| ensures DelegateOk(s', d) { SameDataKeepsDelegate(s, s', d); }
  }

  lemma SetTimeKeepsInv(s: State)
    requires Inv(s) && s.msg.SetTime?
    ensures Inv(StepMsg(s))
  {
    var s' := StepMsg(s);
    assert Positive(s.msg.t);
    SameDataKeepsBase(s, s');
    forall d | 0 <= d < |s.dels| ensures DelegateOk(s', d) { SameDataKeepsDelegate(s, s', d); }
  }

  lemma DeletingKeepsInv(s: State)
    requires Inv(s) && s.msg.Deleting?
    ensures Inv(StepMsg(s))
  {
    var s' := StepMsg(s);
    SameDataKeepsBase(s, s');
    forall d: nat | d < |s.dels| ensures DelegateOk(s', d) {
      assert DelegateOk(s, d);
      CountAppend(s.freed, s.msg.d, d);
    }
  }

  lemma FiringKeepsInv(s: State)
    requires Inv(s) && s.msg.Firing?
    ensures Inv(StepMsg(s))
  {
    var s' := StepMsg(s);
    SameDataKeepsBase(s, s');
    forall d | 0 <= d < |s.dels| ensures DelegateOk(s', d) {
      assert DelegateOk(s, d);
      if s'.msg.Stopping? || d != s.msg.d { SameDataKeepsDelegate(s, s', d); }
    }
  }

  lemma PoppingKeepsInv(s: State)
    requires Inv(s) && s.msg.Popping?
    ensures Inv(StepMsg(s))
  {
    var Popping(k, at, first) := s.msg;
    PopKeepsBase(s, k, at, first);
    forall d | 0 <= d < |s.dels| ensures DelegateOk(StepMsg(s), d) {
      PopKeepsDelegate(s, k, at, first, d);
    }
    PopKeepsWake(s, k, at, first, SwTimers);
    PopKeepsWake(s, k, at, first, HwTimers);
  }

  /** The expire loop's own stop: whatever it stops, the popped delegate is no longer live after. */
  lemma StoppingKeepsDelegate(s: State, d: nat)
    requires Base(s) && DelegatesOk(s) && s.msg.Stopping? && d < |s.dels|
    ensures DelegateOk(StepMsg(s), d)
  {
    assert DelegateOk(s, s.msg.d);
    StopKeepsDelegate(s, s.msg.client, CalledBack, d);
  }

  lemma StoppingKeepsInv(s: State)
    requires Inv(s) && s.msg.Stopping?
    ensures Inv(StepMsg(s))
  {
    var c := s.msg.client;
    StopKeepsBase(s, c, CalledBack);
    PcKeepsBase(StepStop(s, c, CalledBack), Popping(s.msg.k, s.msg.at, false));
    forall d | 0 <= d < |s.dels| ensures DelegateOk(StepMsg(s), d) { StoppingKeepsDelegate(s, d); }
    StopKeepsWake(s, c, CalledBack, SwTimers);
    StopKeepsWake(s, c, CalledBack, HwTimers);
  }

  lemma TakePushKeepsInv(s: State, k: Kind, d0: nat)
    requires Inv(s) && PushNext(s, k, d0)
    ensures Inv(TakeMsg(s))
  {
    PushKeepsBase(s, k, d0);
    forall d | 0 <= d < |s.dels| ensures DelegateOk(TakeMsg(s), d) { PushKeepsDelegate(s, k, d0, d); }
    PushKeepsWake(s, k, d0, SwTimers);
    PushKeepsWake(s, k, d0, HwTimers);
  }

  lemma TakeRemoveKeepsInv(s: State, k: Kind, d0: nat)
    requires Inv(s) && RemoveNext(s, k, d0)
    ensures Inv(TakeMsg(s))
  {
    RemoveKeepsBase(s, k, d0);
    forall d | 0 <= d < |s.dels| ensures DelegateOk(TakeMsg(s), d) { RemoveKeepsDelegate(s, k, d0, d); }
    RemoveKeepsWake(s, k, d0, SwTimers);
    RemoveKeepsWake(s, k, d0, HwTimers);
  }

  lemma TakeExpireKeepsInv(s: State, k: Kind)
    requires Inv(s) && ExpireNext(s, k)
    ensures Inv(TakeMsg(s))
  {
    ExpireKeepsBase(s, k);
    forall d | 0 <= d < |s.dels| ensures DelegateOk(TakeMsg(s), d) { ExpireKeepsDelegate(s, k, d); }
    ExpireKeepsWake(s, k, SwTimers);
    ExpireKeepsWake(s, k, HwTimers);
  }

  lemma {:induction false} MsgStepKeepsInv(s: State)
    requires Inv(s)
    ensures Inv(StepMsg(s))
  {
    match s.msg
    case Idle =>
      if s.queue != [] {
        assert MsgOk(s, s.queue[0]);
        match s.queue[0]
        case MsgPush(k, d) => TakePushKeepsInv(s, k, d);
        case MsgRemove(k, d) => TakeRemoveKeepsInv(s, k, d);
        case MsgExpire(k) => TakeExpireKeepsInv(s, k);
      }
    case AddPoll(_, _, _) => AddPollKeepsInv(s);
    case SetTime(_, _, _) => SetTimeKeepsInv(s);
    case Deleting(_) => DeletingKeepsInv(s);
    case Popping(_, _, _) => PoppingKeepsInv(s);
    case Firing(_, _, _) => FiringKeepsInv(s);
    case Stopping(_, _, _, _) => StoppingKeepsInv(s);
  }

  // ---------- client threads, poll thread and clock ----------

  lemma StartKeepsInv(s: State, c: nat, k: Kind, ms: UInt32)
    requires Inv(s)
    ensures Inv(StepStart(s, c, k, ms))
  {
    var s' := StepStart(s, c, k, ms);
    StartKeepsBase(s, c, k, ms);
    forall d | 0 <= d < |s'.dels| ensures DelegateOk(s', d) { StartKeepsDelegate(s, c, k, ms, d); }
    StartKeepsWake(s, c, k, ms, SwTimers);
    StartKeepsWake(s, c, k, ms, HwTimers);
  }

  lemma StopKeepsInv(s: State, c: nat)
    requires Inv(s)
    ensures Inv(StepStop(s, c, Stopped))
  {
    StopKeepsBase(s, c, Stopped);
    forall d | 0 <= d < |s.dels| ensures DelegateOk(StepStop(s, c, Stopped), d) {
      StopKeepsDelegate(s, c, Stopped, d);
    }
    StopKeepsWake(s, c, Stopped, SwTimers);
    StopKeepsWake(s, c, Stopped, HwTimers);
  }

  lemma LocksKeepInv(s: State, locks: Locks)
    requires Inv(s)
    ensures Inv(s.(locks := locks))
  {
    var s' := s.(locks := locks);
    SameDataKeepsBase(s, s');
    forall d | 0 <= d < |s.dels| ensures DelegateOk(s', d) { SameDataKeepsDelegate(s, s', d); }
  }

  lemma DestroyKeepsInv(s: State, c: nat)
    requires Inv(s)
    ensures Inv(StepDestroy(s, c))
  {
    if c in s.locks.ending || c in s.locks.ended {
      LocksKeepInv(s, StepDestroy(s, c).locks);
    } else {
      StopKeepsInv(s, c);
      LocksKeepInv(StepStop(s, c, Stopped), StepDestroy(s, c).locks);
    }
  }

  predicate Sends(s: State) {
    s.poll.Handling? && s.poll.stage.ToSend?
  }

  lemma KernelCallKeepsWake(s: State, k: Kind)
    requires WakeOk(s, k) && !Sends(s)
    ensures WakeOk(StepPoll(s), k)
  {
  }

  lemma KernelCallKeepsData(s: State)
    requires !Sends(s)
    ensures var s' := StepPoll(s);
      SameData(s, s') && s'.msg == s.msg && s'.queue == s.queue && s'.freed == s.freed && s'.now == s.now
  {
  }

  lemma KernelCallKeepsInv(s: State)
    requires Inv(s) && !Sends(s)
    ensures Inv(StepPoll(s))
  {
    KernelCallKeepsData(s);
    var s' := StepPoll(s);
    SameDataKeepsPc(s, s');
    SameDataKeepsBase(s, s');
    forall d | 0 <= d < |s.dels| ensures DelegateOk(s', d) { SameDataKeepsDelegate(s, s', d); }
    KernelCallKeepsWake(s, SwTimers);
    KernelCallKeepsWake(s, HwTimers);
  }

  lemma SendKeepsWake(s: State, k: Kind)
    requires WakeOk(s, k) && Sends(s)
    ensures WakeOk(StepPoll(s), k)
  {
    var s' := StepPoll(s);
    assert s'.queue[|s.queue|] == MsgExpire(s.poll.k);
    assert MsgExpire(k) in s.queue ==> MsgExpire(k) in s'.queue;
  }

  lemma SendKeepsInv(s: State)
    requires Inv(s) && Sends(s)
    ensures Inv(StepPoll(s))
  {
    var s' := StepPoll(s);
    assert s'.queue == s.queue + [MsgExpire(s.poll.k)];
    SameDataKeepsBase(s, s');
    forall d | 0 <= d < |s.dels| ensures DelegateOk(s', d) { SameDataKeepsDelegate(s, s', d); }
    SendKeepsWake(s, SwTimers);
    SendKeepsWake(s, HwTimers);
  }

  lemma WakeKeepsInv(s: State, k: Kind, both: bool)
    requires Inv(s)
    ensures Inv(StepWake(s, k, both))
  {
    var s' := StepWake(s, k, both);
    SameDataKeepsBase(s, s');
    forall d | 0 <= d < |s.dels| ensures DelegateOk(s', d) { SameDataKeepsDelegate(s, s', d); }
  }

  lemma TickKeepsInv(s: State, to: Clock)
    requires Inv(s)
    ensures Inv(StepTick(s, to))
  {
    var s' := StepTick(s, to);
    NanosOrder(s'.now, s.now);
    SameDataKeepsBase(s, s');
    forall d | 0 <= d < |s.dels| ensures DelegateOk(s', d) { SameDataKeepsDelegate(s, s', d); }
  }

  // ---------- every step, every run ----------

  lemma StepKeepsInv(s: State, l: Label)
    requires Inv(s)
    ensures Inv(Step(s, l))
  {
    match l
    case MsgStep => MsgStepKeepsInv(s);
    case Start(c, k, ms) => StartKeepsInv(s, c, k, ms);
    case Stop(c) => StopKeepsInv(s, c);
    case Destroy(c) => DestroyKeepsInv(s, c);
    case PollStep => if Sends(s) { SendKeepsInv(s); } else { KernelCallKeepsInv(s); }
    case PollWake(k, both) => WakeKeepsInv(s, k, both);
    case Tick(to) => TickKeepsInv(s, to);
  }
}
