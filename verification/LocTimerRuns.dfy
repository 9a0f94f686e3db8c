/** Which delegate an expiry stops, and concrete runs in which it stops or fires the wrong one. */
module LocTimerRuns {
  import opened Options
  import opened LocTimerClock
  import opened LocHeapTree
  import opened LocTimerProtocol
  import opened LocTimerInvariant
  import opened LocTimerTheorems

  // ---------- Which delegate the expire loop stops ----------

  /** Between reading a popped delegate's client and stopping that client, another thread may have
      stopped and restarted it. The expire loop calls back for the delegate it popped exactly when
      that delegate is still live; otherwise it does nothing, or stops a different, running one. */
  lemma ExpiryStopsThePoppedDelegateIff(now: Clock, ls: seq<Label>)
    requires Positive(now) && After(now, ls).msg.Stopping?
    ensures var s := After(now, ls); var s' := StepMsg(s); var d, c := s.msg.d, s.msg.client;
      && d < |s.dels|
      && (s'.log == s.log + [Event(CalledBack, c, d)] <==> s.dels[d].live)
      && (!s.dels[d].live ==>
            if c in s.running then s.running[c] != d && s'.log == s.log + [Event(CalledBack, c, s.running[c])]
            else s'.log == s.log)
  {
    AlwaysOk(now, ls);
    var s := After(now, ls);
    var d, c := s.msg.d, s.msg.client;
    assert DelegateOk(s, d);
    if c in s.running && s.running[c] != d {
      assert (s.log + [Event(CalledBack, c, s.running[c])])[|s.log|].timer != d;
      assert (s.log + [Event(CalledBack, c, d)])[|s.log|].timer == d;
    }
  }

  // ---------- Two runs that go wrong ----------

  const ONE_SECOND: Clock := Timespec(1, 0)
  const SIX_SECONDS := Timespec(6, 0)

  ghost predicate Reachable(s: State) {
    exists ls :: After(ONE_SECOND, ls) == s
  }

  lemma Reaches(s: State, l: Label)
    requires Reachable(s)
    ensures Reachable(Step(s, l))
  {
    var ls :| After(ONE_SECOND, ls) == s;
    RunOneMore(Init(ONE_SECOND), ls, l);
    assert After(ONE_SECOND, ls + [l]) == Step(s, l);
  }

  const DUE_AT_ONCE := Delegate(0, SwTimers, ONE_SECOND, true)
  const EMPTY := Container(Nil, None, false)
  const STARTED_0 := Event(Started, 0, 0)
  const STOPPED_0 := Event(Stopped, 0, 0)

  /** One timer, due at once, started by client 0 and armed. */
  function Armed(): State {
    State(ONE_SECOND, [DUE_AT_ONCE], map[0 := 0],
          Container(Single(Rankable(0, -1)), Some(ONE_SECOND), true), EMPTY,
          [], [MsgPush(SwTimers, 0)], Idle, Waiting, [], [STARTED_0],
          Locks(map[0 := Lock(2, 0)], {}, {}))
  }

  lemma ArmedIsReachable()
    ensures Reachable(Armed())
  {
    var s0 := Init(ONE_SECOND);
    assert After(ONE_SECOND, []) == s0;
    var s1 := Step(s0, Start(0, SwTimers, 0));
    Reaches(s0, Start(0, SwTimers, 0));
    var s2 := Step(s1, MsgStep);
    Reaches(s1, MsgStep);
    assert s2.msg == AddPoll(SwTimers, ONE_SECOND, None);
    var s3 := Step(s2, MsgStep);
    Reaches(s2, MsgStep);
    Reaches(s3, MsgStep);
    assert Step(s3, MsgStep) == Armed();
  }

  /** The expire loop has popped client 0's delegate and read its client. */
  function Popped(): State {
    Armed().(sw := EMPTY, taken := [MsgPush(SwTimers, 0), MsgExpire(SwTimers)],
             msg := Stopping(SwTimers, ONE_SECOND, 0, 0))
  }

  function ExpireSent(): State {
    Armed().(sw := Container(Single(Rankable(0, -1)), None, false), queue := [MsgExpire(SwTimers)])
  }

  lemma ExpireSentIsReachable()
    ensures Reachable(ExpireSent())
  {
    ArmedIsReachable();
    var s1 := Step(Armed(), PollWake(SwTimers, false));
    Reaches(Armed(), PollWake(SwTimers, false));
    var s2 := Step(s1, PollStep);
    Reaches(s1, PollStep);
    var s3 := Step(s2, PollStep);
    Reaches(s2, PollStep);
    Reaches(s3, PollStep);
    assert Step(s3, PollStep) == ExpireSent();
  }

  lemma PoppedIsReachable()
    ensures Reachable(Popped())
  {
    ExpireSentIsReachable();
    var s1 := Step(ExpireSent(), MsgStep);
    Reaches(ExpireSent(), MsgStep);
    var s2 := Step(s1, MsgStep);
    Reaches(s1, MsgStep);
    Reaches(s2, MsgStep);
    assert Step(s2, MsgStep) == Popped();
  }

  /** Client 0 stops the popped timer and starts one five seconds out before the expire loop gets to
      its stop: the new timer is stopped and called back five seconds early. */
  lemma RestartedTimerIsCalledBack()
    ensures exists s: State ::
              && Reachable(s)
              && |s.dels| == 2 && s.dels[1].due == SIX_SECONDS && s.now == ONE_SECOND
              && s.log == [STARTED_0, STOPPED_0, Event(Started, 0, 1), Event(CalledBack, 0, 1)]
  {
    PoppedIsReachable();
    var s1 := Step(Popped(), Stop(0));
    Reaches(Popped(), Stop(0));
    var s2 := Step(s1, Start(0, SwTimers, 5000));
    Reaches(s1, Start(0, SwTimers, 5000));
    assert s2.dels[1] == Delegate(0, SwTimers, SIX_SECONDS, true) && s2.running[0] == 1;
    var s3 := Step(s2, MsgStep);
    Reaches(s2, MsgStep);
    assert s3.log == [STARTED_0, STOPPED_0, Event(Started, 0, 1), Event(CalledBack, 0, 1)];
  }

  /** Client 0's timer expired but was stopped, and client 1 has started one five seconds out, before
      the expire message was sent. */
  function StaleExpire(): State {
    Armed().(
      dels := [DUE_AT_ONCE.(live := false), Delegate(1, SwTimers, SIX_SECONDS, true)],
      running := map[1 := 1],
      sw := Container(Single(Rankable(0, -1)), None, false),
      queue := [MsgRemove(SwTimers, 0), MsgPush(SwTimers, 1), MsgExpire(SwTimers)],
      log := [STARTED_0, STOPPED_0, Event(Started, 1, 1)],
      locks := Locks(map[0 := Lock(2, 0), 1 := Lock(2, 0)], {}, {}))
  }

  /** The same a little earlier: the poll thread has woken, and nothing has reached the kernel. */
  function Restarted(): State {
    StaleExpire().(sw := Armed().sw, queue := [MsgRemove(SwTimers, 0), MsgPush(SwTimers, 1)],
                   poll := Handling(ToDisarm, SwTimers, None))
  }

  lemma RestartedIsReachable()
    ensures Reachable(Restarted())
  {
    ArmedIsReachable();
    var s1 := Step(Armed(), PollWake(SwTimers, false));
    Reaches(Armed(), PollWake(SwTimers, false));
    var s2 := Step(s1, Stop(0));
    Reaches(s1, Stop(0));
    Reaches(s2, Start(1, SwTimers, 5000));
    assert DueTime(ONE_SECOND, 5000) == SIX_SECONDS;
    assert Step(s2, Start(1, SwTimers, 5000)) == Restarted();
  }

  lemma StaleExpireIsReachable()
    ensures Reachable(StaleExpire())
  {
    RestartedIsReachable();
    var s4 := Step(Restarted(), PollStep);
    Reaches(Restarted(), PollStep);
    var s5 := Step(s4, PollStep);
    Reaches(s4, PollStep);
    Reaches(s5, PollStep);
    assert Step(s5, PollStep) == StaleExpire();
  }

  /** The heap now holds only client 1's timer, and the stale expire message is next. */
  function StaleNext(): State {
    StaleExpire().(
      sw := Container(Single(Rankable(1, -6)), Some(SIX_SECONDS), true),
      queue := [MsgExpire(SwTimers)],
      taken := [MsgPush(SwTimers, 0), MsgRemove(SwTimers, 0), MsgPush(SwTimers, 1)],
      freed := [0],
      locks := Locks(map[0 := Lock(1, 0), 1 := Lock(2, 0)], {}, {}))
  }

  /** Client 0's timer is gone from the heap and deleted. */
  function Removed(): State {
    StaleExpire().(
      sw := Container(Nil, None, false),
      queue := [MsgPush(SwTimers, 1), MsgExpire(SwTimers)],
      taken := [MsgPush(SwTimers, 0), MsgRemove(SwTimers, 0)],
      freed := [0],
      locks := StaleNext().locks)
  }

  lemma RemovedIsReachable()
    ensures Reachable(Removed())
  {
    StaleExpireIsReachable();
    var s1 := Step(StaleExpire(), MsgStep);
    Reaches(StaleExpire(), MsgStep);
    assert s1.sw.heap == Nil && s1.msg == Deleting(0);
    Reaches(s1, MsgStep);
    assert Step(s1, MsgStep) == Removed();
  }

  lemma StaleNextIsReachable()
    ensures Reachable(StaleNext())
  {
    RemovedIsReachable();
    var s3 := Step(Removed(), MsgStep);
    Reaches(Removed(), MsgStep);
    assert s3.sw.heap == Single(Rankable(1, -6)) && s3.msg == AddPoll(SwTimers, SIX_SECONDS, None);
    var s4 := Step(s3, MsgStep);
    Reaches(s3, MsgStep);
    Reaches(s4, MsgStep);
    assert Step(s4, MsgStep) == StaleNext();
  }

  /** The stale expire message pops client 1's timer unconditionally: five seconds early. */
  lemma StaleExpireFiresEarly()
    ensures exists s: State ::
              && Reachable(s)
              && |s.dels| == 2 && s.dels[1].due == SIX_SECONDS && s.now == ONE_SECOND
              && s.log == [STARTED_0, STOPPED_0, Event(Started, 1, 1), Event(CalledBack, 1, 1)]
  {
    StaleNextIsReachable();
    var s1 := Step(StaleNext(), MsgStep);
    Reaches(StaleNext(), MsgStep);
    var s2 := Step(s1, MsgStep);
    Reaches(s1, MsgStep);
    assert s2.msg == Firing(SwTimers, ONE_SECOND, 1);
    var s3 := Step(s2, MsgStep);
    Reaches(s2, MsgStep);
    var s4 := Step(s3, MsgStep);
    Reaches(s3, MsgStep);
    assert s4.log == [STARTED_0, STOPPED_0, Event(Started, 1, 1), Event(CalledBack, 1, 1)];
  }

  // ---------- A timer that is due and not woken for ----------

  const LATE_IN_SECOND := Timespec(10, 900_000_000)
  const EARLY_IN_SECOND := Timespec(10, 100_000_000)
  const BETWEEN: Clock := Timespec(10, 500_000_000)

  /** One timer, due late in a second, and armed. */
  lemma ArmedLateIsReachable() returns (s: State)
    ensures Reachable(s)
    ensures s == State(ONE_SECOND, [Delegate(0, SwTimers, LATE_IN_SECOND, true)], map[0 := 0],
                       Container(Single(Rankable(0, -10)), Some(LATE_IN_SECOND), true), EMPTY,
                       [], [MsgPush(SwTimers, 0)], Idle, Waiting, [], [STARTED_0],
                       Locks(map[0 := Lock(2, 0)], {}, {}))
  {
    var s0 := Init(ONE_SECOND);
    assert After(ONE_SECOND, []) == s0;
    assert DueTime(ONE_SECOND, 9900) == LATE_IN_SECOND;
    var s1 := Step(s0, Start(0, SwTimers, 9900));
    Reaches(s0, Start(0, SwTimers, 9900));
    var s2 := Step(s1, MsgStep);
    Reaches(s1, MsgStep);
    assert s2.msg == AddPoll(SwTimers, LATE_IN_SECOND, None);
    var s3 := Step(s2, MsgStep);
    Reaches(s2, MsgStep);
    Reaches(s3, MsgStep);
    s := Step(s3, MsgStep);
  }

  /** A timer due earlier in the same second is started, and its time comes: the service rests, the
      timer is running and overdue, and the descriptor is still armed for the other one. */
  lemma OverdueTimerIsNotWokenFor()
    ensures exists s: State ::
              && Reachable(s) && Quiescent(s)
              && |s.dels| == 2 && s.dels[1].live && InHeap(s, 1) == 1
              && s.dels[1].due == EARLY_IN_SECOND && s.now == BETWEEN
              && s.sw.armed == Some(LATE_IN_SECOND) && !Readable(s, SwTimers)
  {
    var s := ArmedLateIsReachable();
    assert DueTime(ONE_SECOND, 9100) == EARLY_IN_SECOND;
    var s1 := Step(s, Start(1, SwTimers, 9100));
    Reaches(s, Start(1, SwTimers, 9100));
    var s2 := Step(s1, MsgStep);
    Reaches(s1, MsgStep);
    var a, b := Rankable(0, -10), Rankable(1, -10);
    assert s2.sw.heap == Node(2, a, Single(b), Nil) && s2.msg.Idle?;
    Reaches(s2, Tick(BETWEEN));
    assert Occurrences(Single(b), b) == 1;
  }

  // ---------- A timer that is destroyed while the expire loop stops it ----------

  /** The client destroys the timer between the expire loop's reading of the client and its stop. */
  lemma DestroyedTimerIsStopped()
    ensures exists s: State :: Reachable(s) && s.msg.Stopping? && s.msg.client in s.locks.ended
  {
    PoppedIsReachable();
    var s1 := Step(Popped(), Destroy(0));
    Reaches(Popped(), Destroy(0));
    var s2 := Step(s1, Destroy(0));
    Reaches(s1, Destroy(0));
    assert s2.msg.client in s2.locks.ended;
  }
}
