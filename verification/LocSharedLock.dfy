/** The lock a timer shares with its delegates, which deletes itself when the last of them drops it. */
module LocSharedLocks {
  import opened Options
  import opened LocTimerClock
  import opened LocHeapTree
  import opened LocTimerProtocol
  import opened LocTimerInvariant
  import opened LocTimerTheorems

  // ---------- Who uses a timer's lock ----------

  /** A delegate of timer `c` that is not deleted. */
  predicate Exists(s: State, c: nat, d: nat)
    requires d < |s.dels|
  {
    s.dels[d].client == c && CountOf(s.freed, d) == 0
  }

  /** How many of the first `n` delegates belong to `c` and are not deleted. */
  function Existing(s: State, c: nat, n: nat): nat
    requires n <= |s.dels|
  {
    if n == 0 then 0 else Existing(s, c, n - 1) + if Exists(s, c, n - 1) then 1 else 0
  }

  /** The timer itself, until its destructor has dropped the lock, and its delegates. */
  function Users(s: State, c: nat): nat {
    (if c in s.locks.ended then 0 else 1) + Existing(s, c, |s.dels|)
  }

  predicate LockOk(s: State, c: nat) {
    var lock := LockOf(s.locks, c);
    && lock.mRef == Users(s, c)
    && lock.deletes == (if Users(s, c) == 0 then 1 else 0)
    && !(c in s.locks.ending && c in s.locks.ended)
    && (c in s.locks.ending || c in s.locks.ended ==> c !in s.running)
  }

  lemma {:induction false} SameExisting(s: State, s': State, c: nat, n: nat)
    requires n <= |s.dels| && n <= |s'.dels|
    requires forall d | 0 <= d < n :: Exists(s', c, d) == Exists(s, c, d)
    ensures Existing(s', c, n) == Existing(s, c, n)
  {
    if n > 0 { SameExisting(s, s', c, n - 1); }
  }

  lemma {:induction false} OneLess(s: State, s': State, c: nat, d: nat, n: nat)
    requires d < n <= |s.dels| && n <= |s'.dels|
    requires Exists(s, c, d) && !Exists(s', c, d)
    requires forall e | 0 <= e < n && e != d :: Exists(s', c, e) == Exists(s, c, e)
    ensures Existing(s', c, n) == Existing(s, c, n) - 1
  {
    if d == n - 1 {
      SameExisting(s, s', c, n - 1);
    } else {
      OneLess(s, s', c, d, n - 1);
    }
  }

  lemma {:induction false} SomeExisting(s: State, c: nat, n: nat)
    requires n <= |s.dels|
    ensures Existing(s, c, n) == 0 <==> forall d | 0 <= d < n :: !Exists(s, c, d)
  {
    if n > 0 { SomeExisting(s, c, n - 1); }
  }

  // ---------- Every step keeps the account ----------

  lemma StartKeepsLock(s: State, c: nat, client: nat, k: Kind, ms: UInt32)
    requires Inv(s) && LockOk(s, c)
    ensures LockOk(StepStart(s, client, k, ms), c)
  {
    if CanStart(s, client) {
      var n: nat := |s.dels|;
      SameExisting(s, StepStart(s, client, k, ms), c, n);
      CountMember(s.freed, n);
    }
  }

  lemma StopKeepsLock(s: State, c: nat, client: nat, what: What)
    requires LockOk(s, c)
    ensures LockOk(StepStop(s, client, what), c)
  {
    SameExisting(s, StepStop(s, client, what), c, |s.dels|);
  }

  lemma DestroyKeepsLock(s: State, c: nat, client: nat)
    requires Inv(s) && LockOk(s, c)
    ensures LockOk(StepDestroy(s, client), c)
  {
    if client in s.locks.ending || client in s.locks.ended {
      SameExisting(s, StepDestroy(s, client), c, |s.dels|);
    } else {
      StopKeepsLock(s, c, client, Stopped);
      SameExisting(StepStop(s, client, Stopped), StepDestroy(s, client), c, |s.dels|);
    }
  }

  lemma DeleteKeepsLock(s: State, c: nat)
    requires Inv(s) && LockOk(s, c) && s.msg.Deleting?
    ensures LockOk(StepMsg(s), c)
  {
    var s', d := StepMsg(s), s.msg.d;
    assert DelegateOk(s, d);
    forall e: nat | e < |s.dels| ensures CountOf(s'.freed, e) == CountOf(s.freed, e) + if d == e then 1 else 0 {
      CountAppend(s.freed, d, e);
    }
    if s.dels[d].client == c {
      OneLess(s, s', c, d, |s.dels|);
    } else {
      SameExisting(s, s', c, |s.dels|);
    }
  }

  /** Same delegates, deletions, locks and running timers. */
  predicate SameUsers(s: State, s': State) {
    s'.dels == s.dels && s'.freed == s.freed && s'.locks == s.locks && s'.running == s.running
  }

  lemma QuietKeepsLock(s: State, s': State, c: nat)
    requires LockOk(s, c) && SameUsers(s, s')
    ensures LockOk(s', c)
  {
    SameExisting(s, s', c, |s.dels|);
  }

  lemma RearmIsQuiet(s: State, k: Kind, prior: Option<Rankable>, del: Option<nat>)
    ensures SameUsers(s, Rearm(s, k, prior, del))
  {
  }

  lemma TakeIsQuiet(s: State)
    requires s.queue != [] && MsgOk(s, s.queue[0])
    ensures SameUsers(s, TakeMsg(s))
  {
    var t := s.(queue := s.queue[1..], taken := s.taken + [s.queue[0]]);
    match s.queue[0]
    case MsgPush(k, d) =>
      RearmIsQuiet(Put(t, k, Get(t, k).(heap := Push(Get(t, k).heap, Ranked(t, d)))), k, TopOf(Get(t, k).heap), None);
    case MsgRemove(k, d) =>
      var r := RemoveFrom(Get(t, k).heap, Ranked(t, d));
      RearmIsQuiet(Put(t, k, Get(t, k).(heap := r.tree)), k, None, Some(d));
    case MsgExpire(k) =>
  }

  lemma PopIsQuiet(s: State, k: Kind, at: Timespec, first: bool)
    ensures SameUsers(s, ProcPop(s, k, at, first))
  {
    RearmIsQuiet(s, k, None, None);
  }

  lemma MsgStepIsQuiet(s: State)
    requires Base(s) && !s.msg.Deleting? && !s.msg.Stopping?
    ensures SameUsers(s, StepMsg(s))
  {
    match s.msg
    case Idle => if s.queue != [] { assert MsgOk(s, s.queue[0]); TakeIsQuiet(s); }
    case Popping(k, at, first) => PopIsQuiet(s, k, at, first);
    case _ =>
  }

  lemma MsgStepKeepsLock(s: State, c: nat)
    requires Inv(s) && LockOk(s, c)
    ensures LockOk(StepMsg(s), c)
  {
    if s.msg.Deleting? {
      DeleteKeepsLock(s, c);
    } else if s.msg.Stopping? {
      StopKeepsLock(s, c, s.msg.client, CalledBack);
      QuietKeepsLock(StepStop(s, s.msg.client, CalledBack), StepMsg(s), c);
    } else {
      MsgStepIsQuiet(s);
      QuietKeepsLock(s, StepMsg(s), c);
    }
  }

  lemma StepKeepsLock(s: State, l: Label, c: nat)
    requires Inv(s) && LockOk(s, c)
    ensures LockOk(Step(s, l), c)
  {
    match l
    case Start(client, k, ms) => StartKeepsLock(s, c, client, k, ms);
    case Stop(client) => StopKeepsLock(s, c, client, Stopped);
    case Destroy(client) => DestroyKeepsLock(s, c, client);
    case MsgStep => MsgStepKeepsLock(s, c);
    case Tick(to) => QuietKeepsLock(s, StepTick(s, to), c);
    case PollWake(k, both) => QuietKeepsLock(s, StepWake(s, k, both), c);
    case PollStep => QuietKeepsLock(s, StepPoll(s), c);
  }

  lemma {:induction false} RunKeepsLock(s: State, ls: seq<Label>, c: nat)
    requires AllOk(s) && LockOk(s, c)
    ensures LockOk(Run(s, ls), c)
    decreases |ls|
  {
    if ls != [] {
      StepKeepsLock(s, ls[0], c);
      StepKeepsAll(s, ls[0]);
      RunKeepsLock(Step(s, ls[0]), ls[1..], c);
    }
  }

  lemma AlwaysLocked(now: Clock, ls: seq<Label>, c: nat)
    requires Positive(now)
    ensures LockOk(After(now, ls), c)
  {
    InitOk(now);
    RunKeepsLock(Init(now), ls, c);
  }

  // ---------- Theorems ----------

  /** Over every interleaving the lock is deleted at most once: not while its timer or one of the
      timer's delegates exists, and by the time neither does. */
  lemma LockOutlivesItsUsers(now: Clock, ls: seq<Label>, c: nat)
    requires Positive(now)
    ensures var s := After(now, ls);
      LockOf(s.locks, c).deletes ==
        if c in s.locks.ended && (forall d | 0 <= d < |s.dels| :: !Exists(s, c, d)) then 1 else 0
  {
    AlwaysLocked(now, ls, c);
    SomeExisting(After(now, ls), c, |After(now, ls).dels|);
  }

  /** So the lock is there as long as the timer is, and while the expire loop is about to stop the timer:
      the loop holds one of its delegates, which keeps the lock alive even if the timer is destroyed. */
  lemma LockIsThereWhileNeeded(now: Clock, ls: seq<Label>, c: nat)
    requires Positive(now)
    requires var s := After(now, ls);
      c !in s.locks.ended || (s.msg.Stopping? && s.msg.client == c)
    ensures LockOf(After(now, ls).locks, c).deletes == 0
  {
    LockOutlivesItsUsers(now, ls, c);
    AlwaysOk(now, ls);
    var s := After(now, ls);
    if s.msg.Stopping? && s.msg.client == c {
      assert DelegateOk(s, s.msg.d) && Held(s.msg, s.msg.d);
      assert Exists(s, c, s.msg.d);
    }
  }

  /** No lock leaks: when the service rests, a destroyed timer's lock has been deleted. */
  lemma RestingServiceLeaksNoLock(now: Clock, ls: seq<Label>, c: nat)
    requires Positive(now) && Quiescent(After(now, ls)) && c in After(now, ls).locks.ended
    ensures LockOf(After(now, ls).locks, c).deletes == 1
  {
    AlwaysLocked(now, ls, c);
    LockOutlivesItsUsers(now, ls, c);
    var s := After(now, ls);
    forall d: nat | d < |s.dels| ensures !Exists(s, c, d) {
      RestingServiceLeaksNothing(now, ls, d);
      CountMember(s.freed, d);
    }
  }

  // ---------- Stopping a destroyed timer ----------

  /** How far the destructor of timer `c` has come: not begun, stopped, or over. */
  function Phase(s: State, c: nat): nat {
    if c in s.locks.ended then 2 else if c in s.locks.ending then 1 else 0
  }

  function Destroys(ls: seq<Label>, c: nat): nat {
    if ls == [] then 0 else (if ls[0] == Destroy(c) then 1 else 0) + Destroys(ls[1..], c)
  }

  lemma MsgStepKeepsPhase(s: State, c: nat)
    requires Base(s)
    ensures Phase(StepMsg(s), c) == Phase(s, c)
  {
    if !s.msg.Deleting? && !s.msg.Stopping? { MsgStepIsQuiet(s); }
  }

  lemma StepMovesPhase(s: State, l: Label, c: nat)
    requires Base(s)
    ensures Phase(Step(s, l), c) == if l == Destroy(c) && Phase(s, c) < 2 then Phase(s, c) + 1 else Phase(s, c)
  {
    match l
    case MsgStep => MsgStepKeepsPhase(s, c);
    case _ =>
  }

  lemma {:induction false} RunMovesPhase(s: State, ls: seq<Label>, c: nat)
    requires AllOk(s)
    ensures Phase(Run(s, ls), c) == 2 <==> Phase(s, c) + Destroys(ls, c) >= 2
    decreases |ls|
  {
    if ls != [] {
      StepMovesPhase(s, ls[0], c);
      StepKeepsAll(s, ls[0]);
      RunMovesPhase(Step(s, ls[0]), ls[1..], c);
    }
  }

  /** A client that the expire loop has just read is there. */
  lemma ClientReadExists(now: Clock, ls: seq<Label>)
    requires Positive(now) && After(now, ls).msg.Firing? && StepMsg(After(now, ls)).msg.Stopping?
    ensures var s := StepMsg(After(now, ls)); var c := s.msg.client;
      c !in s.locks.ending && c !in s.locks.ended
  {
    AlwaysOk(now, ls);
    var s0 := After(now, ls);
    assert DelegateOk(s0, s0.msg.d);
    AlwaysLocked(now, ls, StepMsg(s0).msg.client);
  }

  /** When the expire loop has read a live delegate's client, the client exists. Whatever happens until
      its next step, that step is a stop of a destroyed timer if and only if both steps of the timer's
      destructor come in between. */
  lemma StopsADestroyedTimerIff(now: Clock, ls: seq<Label>, more: seq<Label>)
    requires Positive(now) && After(now, ls).msg.Firing? && StepMsg(After(now, ls)).msg.Stopping?
    requires forall i | 0 <= i < |more| :: !more[i].MsgStep?
    ensures var s := StepMsg(After(now, ls)); var t := Run(s, more); var c := s.msg.client;
      && c !in s.locks.ending && c !in s.locks.ended
      && t.msg == s.msg && (c in t.locks.ended <==> Destroys(more, c) >= 2)
  {
    AlwaysOk(now, ls);
    ClientReadExists(now, ls);
    var s := StepMsg(After(now, ls));
    StepKeepsAll(After(now, ls), MsgStep);
    OthersKeepPc(s, more);
    RunMovesPhase(s, more, s.msg.client);
  }

  lemma {:induction false} OthersKeepPc(s: State, ls: seq<Label>)
    requires forall i | 0 <= i < |ls| :: !ls[i].MsgStep?
    ensures Run(s, ls).msg == s.msg
    decreases |ls|
  {
    if ls != [] {
      OtherStepKeepsPc(s, ls[0]);
      OthersKeepPc(Step(s, ls[0]), ls[1..]);
    }
  }
}
