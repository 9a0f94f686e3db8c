/** A run in which nobody ever stops a timer, and one still fires ninety seconds early.

  A timer's time comes while the message thread is about to arm the descriptor for an earlier one. The
  poll thread wakes for both, so two expire messages are queued; the first drains what is due, and the
  second finds a heap whose top is not. */
module LocTimerTwoExpiries {
  import opened Options
  import opened LocTimerClock
  import opened LocHeapTree
  import opened LocTimerProtocol
  import opened LocTimerTheorems

  const START: Clock := Timespec(1, 0)
  const EARLY: Clock := Timespec(5, 0)
  const LATE: Clock := Timespec(10, 0)
  const FAR_OFF: Clock := Timespec(100, 0)

  predicate StopsNobody(ls: seq<Label>) {
    forall i | 0 <= i < |ls| :: !ls[i].Stop? && !ls[i].Destroy?
  }

  ghost predicate Reachable(s: State) {
    exists ls :: StopsNobody(ls) && After(START, ls) == s
  }

  lemma Goes(s: State, l: Label, t: State)
    requires Reachable(s) && !l.Stop? && !l.Destroy? && Step(s, l) == t
    ensures Reachable(t)
  {
    var ls :| StopsNobody(ls) && After(START, ls) == s;
    RunOneMore(Init(START), ls, l);
    assert StopsNobody(ls + [l]) && After(START, ls + [l]) == t;
  }

  const A := Rankable(0, -10)
  const B := Rankable(1, -5)
  const C := Rankable(2, -100)
  const DEL_A := Delegate(0, SwTimers, LATE, true)
  const DEL_B := Delegate(1, SwTimers, EARLY, true)
  const DEL_C := Delegate(2, SwTimers, FAR_OFF, true)
  const EMPTY := Container(Nil, None, false)
  const STARTED: seq<Event> := [Event(Started, 0, 0), Event(Started, 1, 1), Event(Started, 2, 2)]

  /** A is armed, and the two others are started. */
  function ThreeStarted(): State {
    State(START, [DEL_A, DEL_B, DEL_C], map[0 := 0, 1 := 1, 2 := 2],
          Container(Single(A), Some(LATE), true), EMPTY,
          [MsgPush(SwTimers, 1), MsgPush(SwTimers, 2)], [MsgPush(SwTimers, 0)], Idle, Waiting, [], STARTED,
          Locks(map[0 := Lock(2, 0), 1 := Lock(2, 0), 2 := Lock(2, 0)], {}, {}))
  }

  lemma ArmedIsReachable() returns (s: State)
    ensures Reachable(s)
    ensures s == State(START, [DEL_A], map[0 := 0], Container(Single(A), Some(LATE), true), EMPTY,
                       [], [MsgPush(SwTimers, 0)], Idle, Waiting, [], [Event(Started, 0, 0)],
                       Locks(map[0 := Lock(2, 0)], {}, {}))
  {
    var s0 := Init(START);
    assert StopsNobody([]) && After(START, []) == s0;
    assert DueTime(START, 9000) == LATE;
    var s1 := Step(s0, Start(0, SwTimers, 9000));
    Goes(s0, Start(0, SwTimers, 9000), s1);
    var s2 := Step(s1, MsgStep);
    Goes(s1, MsgStep, s2);
    assert s2.msg == AddPoll(SwTimers, LATE, None);
    var s3 := Step(s2, MsgStep);
    Goes(s2, MsgStep, s3);
    s := Step(s3, MsgStep);
    Goes(s3, MsgStep, s);
  }

  lemma ThreeStartedIsReachable()
    ensures Reachable(ThreeStarted())
  {
    var s := ArmedIsReachable();
    assert DueTime(START, 4000) == EARLY && DueTime(START, 99000) == FAR_OFF;
    var s1 := Step(s, Start(1, SwTimers, 4000));
    Goes(s, Start(1, SwTimers, 4000), s1);
    var s2 := Step(s1, Start(2, SwTimers, 99000));
    Goes(s1, Start(2, SwTimers, 99000), s2);
    assert s2 == ThreeStarted();
  }

  /** The message thread is about to arm the descriptor for B, and A's time has come. */
  function Delayed(): State {
    ThreeStarted().(
      now := LATE,
      sw := Container(Node(2, B, Single(A), Nil), Some(LATE), true),
      queue := [MsgPush(SwTimers, 2)], taken := [MsgPush(SwTimers, 0), MsgPush(SwTimers, 1)],
      msg := AddPoll(SwTimers, EARLY, None))
  }

  lemma DelayedIsReachable()
    ensures Reachable(Delayed())
  {
    ThreeStartedIsReachable();
    var s1 := Step(ThreeStarted(), MsgStep);
    Goes(ThreeStarted(), MsgStep, s1);
    assert s1.sw.heap == Node(2, B, Single(A), Nil);
    Goes(s1, Tick(LATE), Delayed());
  }

  /** The poll thread has woken for A, and then for B. */
  function TwoExpiries(): State {
    Delayed().(
      sw := Container(Node(2, B, Single(A), Nil), None, false),
      queue := [MsgPush(SwTimers, 2), MsgExpire(SwTimers), MsgExpire(SwTimers)], msg := Idle)
  }

  /** The poll thread's four steps. */
  lemma Wakes(s: State)
    requires Reachable(s) && s.poll.Waiting? && Readable(s, SwTimers)
    ensures Reachable(s.(sw := s.sw.(armed := None, polled := false), queue := s.queue + [MsgExpire(SwTimers)]))
  {
    var s1 := s.(poll := Handling(ToDisarm, SwTimers, None));
    Goes(s, PollWake(SwTimers, false), s1);
    var s2 := s1.(sw := s.sw.(armed := None), poll := Handling(ToUnpoll, SwTimers, None));
    Goes(s1, PollStep, s2);
    var s3 := s2.(sw := s.sw.(armed := None, polled := false), poll := Handling(ToSend, SwTimers, None));
    Goes(s2, PollStep, s3);
    Goes(s3, PollStep, s3.(queue := s.queue + [MsgExpire(SwTimers)], poll := Waiting));
    assert s3.(queue := s.queue + [MsgExpire(SwTimers)], poll := Waiting)
        == s.(sw := s.sw.(armed := None, polled := false), queue := s.queue + [MsgExpire(SwTimers)]);
  }

  lemma TwoExpiriesIsReachable()
    ensures Reachable(TwoExpiries())
  {
    DelayedIsReachable();
    Wakes(Delayed());
    var s1 := Delayed().(sw := Container(Node(2, B, Single(A), Nil), None, false),
                         queue := [MsgPush(SwTimers, 2)] + [MsgExpire(SwTimers)]);
    var s2 := s1.(sw := s1.sw.(polled := true), msg := SetTime(SwTimers, EARLY, None));
    Goes(s1, MsgStep, s2);
    var s3 := s2.(sw := s2.sw.(armed := Some(EARLY)), msg := Idle);
    Goes(s2, MsgStep, s3);
    Wakes(s3);
    assert s3.queue + [MsgExpire(SwTimers)] == TwoExpiries().queue;
    assert s3.(sw := s3.sw.(armed := None, polled := false), queue := s3.queue + [MsgExpire(SwTimers)])
        == TwoExpiries();
  }

  /** C is in the heap, and the first expire message is being processed. */
  function Expiring(): State {
    TwoExpiries().(
      sw := Container(Node(3, B, Single(A), Single(C)), None, false),
      queue := [MsgExpire(SwTimers)],
      taken := [MsgPush(SwTimers, 0), MsgPush(SwTimers, 1), MsgPush(SwTimers, 2), MsgExpire(SwTimers)],
      msg := Popping(SwTimers, LATE, true))
  }

  lemma ExpiringIsReachable()
    ensures Reachable(Expiring())
  {
    TwoExpiriesIsReachable();
    var s1 := Step(TwoExpiries(), MsgStep);
    Goes(TwoExpiries(), MsgStep, s1);
    assert s1.sw.heap == Node(3, B, Single(A), Single(C)) && s1.msg.Idle?;
    Goes(s1, MsgStep, Step(s1, MsgStep));
    assert Step(s1, MsgStep) == Expiring();
  }

  /** Popping a live delegate, reading its client and stopping it. */
  lemma CallsBack(s: State, first: bool)
    requires Reachable(s) && s.msg == Popping(SwTimers, LATE, first) && s.sw.heap.Node?
    requires first || !OutRanks(RankOf(0, LATE), s.sw.heap.data)
    requires var d := s.sw.heap.data.id;
      && d < |s.dels| && s.dels[d].live && s.dels[d].client in s.running && s.running[s.dels[d].client] == d
    ensures var d := s.sw.heap.data.id; var c := s.dels[d].client;
      Reachable(StepStop(s, c, CalledBack).(sw := s.sw.(heap := Pop(s.sw.heap)), msg := Popping(SwTimers, LATE, false)))
  {
    var d := s.sw.heap.data.id;
    var c := s.dels[d].client;
    var s1 := s.(sw := s.sw.(heap := Pop(s.sw.heap)), msg := Firing(SwTimers, LATE, d));
    Goes(s, MsgStep, s1);
    var s2 := s1.(msg := Stopping(SwTimers, LATE, d, c));
    Goes(s1, MsgStep, s2);
    Goes(s2, MsgStep, StepMsg(s2));
    assert StepMsg(s2)
        == StepStop(s, c, CalledBack).(sw := s.sw.(heap := Pop(s.sw.heap)), msg := Popping(SwTimers, LATE, false));
  }

  /** What was due has been called back; C alone is left. */
  function Drained(): State {
    Expiring().(
      dels := [DEL_A.(live := false), DEL_B.(live := false), DEL_C],
      running := map[2 := 2],
      sw := Container(Single(C), None, false),
      queue := [MsgExpire(SwTimers), MsgRemove(SwTimers, 1), MsgRemove(SwTimers, 0)],
      msg := Popping(SwTimers, LATE, false),
      log := STARTED + [Event(CalledBack, 1, 1), Event(CalledBack, 0, 0)])
  }

  lemma DrainedIsReachable()
    ensures Reachable(Drained())
  {
    ExpiringIsReachable();
    CallsBack(Expiring(), true);
    assert Pop(Expiring().sw.heap) == Node(2, A, Nil, Single(C));
    var s1 := Expiring().(
      dels := [DEL_A, DEL_B.(live := false), DEL_C], running := map[0 := 0, 2 := 2],
      sw := Container(Node(2, A, Nil, Single(C)), None, false),
      queue := [MsgExpire(SwTimers), MsgRemove(SwTimers, 1)], msg := Popping(SwTimers, LATE, false),
      log := STARTED + [Event(CalledBack, 1, 1)]);
    assert s1 == StepStop(Expiring(), 1, CalledBack).(sw := s1.sw, msg := s1.msg);
    CallsBack(s1, false);
    assert Pop(s1.sw.heap) == Single(C);
    assert Drained() == StepStop(s1, 0, CalledBack).(sw := Drained().sw, msg := s1.msg);
  }

  /** The second expire message is about to pop. */
  function SecondExpiry(): State {
    Drained().(
      sw := Container(Single(C), Some(FAR_OFF), true),
      queue := [MsgRemove(SwTimers, 1), MsgRemove(SwTimers, 0)],
      taken := Drained().taken + [MsgExpire(SwTimers)],
      msg := Popping(SwTimers, LATE, true))
  }

  lemma SecondExpiryIsReachable()
    ensures Reachable(SecondExpiry())
  {
    DrainedIsReachable();
    var s1 := Drained().(msg := AddPoll(SwTimers, FAR_OFF, None));
    Goes(Drained(), MsgStep, s1);
    var s2 := s1.(sw := s1.sw.(polled := true), msg := SetTime(SwTimers, FAR_OFF, None));
    Goes(s1, MsgStep, s2);
    var s3 := s2.(sw := s2.sw.(armed := Some(FAR_OFF)), msg := Idle);
    Goes(s2, MsgStep, s3);
    Goes(s3, MsgStep, StepMsg(s3));
    assert s3.queue[1..] == SecondExpiry().queue;
    assert StepMsg(s3) == SecondExpiry();
  }

  /** Nobody stopped anything, and C, due at 100 seconds, is called back at 10 seconds. */
  lemma TwoExpiriesFireEarly()
    ensures exists ls: seq<Label> ::
              && StopsNobody(ls)
              && var s := After(START, ls);
                 && |s.dels| == 3 && s.dels[2].due == FAR_OFF && s.now == LATE
                 && Event(CalledBack, 2, 2) in s.log
  {
    SecondExpiryIsReachable();
    CallsBack(SecondExpiry(), true);
    var s := StepStop(SecondExpiry(), 2, CalledBack).(
      sw := SecondExpiry().sw.(heap := Pop(Single(C))), msg := Popping(SwTimers, LATE, false));
    var ls :| StopsNobody(ls) && After(START, ls) == s;
    assert s.log[|s.log| - 1] == Event(CalledBack, 2, 2);
  }
}
