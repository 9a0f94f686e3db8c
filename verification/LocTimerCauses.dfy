/** Why a timer may be called back before the second it is due in: over every interleaving there are two
    causes and no third. */
module LocTimerCauses {
  import opened Options
  import opened LocTimerClock
  import opened LocHeapTree
  import opened LocTimerProtocol
  import opened LocTimerInvariant
  import opened LocTimerTheorems
  import P = LocTimerProofs

  /** Step `i` of the run pops `d` while handling an expire message that read the clock as `at`; `first`
      says whether it is that message's first pop. */
  ghost predicate PopsAt(now: Clock, ls: seq<Label>, i: nat, k: Kind, at: Timespec, first: bool, d: nat)
    requires Positive(now)
  {
    && i < |ls| && ls[i].MsgStep?
    && var s := After(now, ls[..i]);
       s.msg == Popping(k, at, first) && StepMsg(s).msg == Firing(k, at, d)
  }

  function MsgStepsOf(ls: seq<Label>): nat {
    if ls == [] then 0 else MsgStepsOf(ls[..|ls| - 1]) + if ls[|ls| - 1].MsgStep? then 1 else 0
  }

  /** `d` was popped, as the first of its message or later, `n` steps of the message thread ago. */
  ghost predicate WasPopped(now: Clock, ls: seq<Label>, k: Kind, at: Timespec, first: bool, d: nat, n: nat)
    requires Positive(now)
  {
    exists i: nat | i < |ls| :: PopsAt(now, ls, i, k, at, first, d) && MsgStepsOf(ls[i + 1..]) == n
  }

  /** What was popped stays popped; only the message thread's own steps count. */
  lemma PoppedBefore(now: Clock, ls: seq<Label>, k: Kind, at: Timespec, first: bool, d: nat, n: nat)
    requires Positive(now) && ls != [] && WasPopped(now, ls[..|ls| - 1], k, at, first, d, n)
    ensures WasPopped(now, ls, k, at, first, d, if ls[|ls| - 1].MsgStep? then n + 1 else n)
  {
    var m := |ls| - 1;
    var front := ls[..m];
    var i: nat :| i < |front| && PopsAt(now, front, i, k, at, first, d) && MsgStepsOf(front[i + 1..]) == n;
    Slices(ls, i);
    OneMoreStep(front[i + 1..], ls[m]);
    assert PopsAt(now, ls, i, k, at, first, d);
  }

  lemma Slices(ls: seq<Label>, i: nat)
    requires i + 1 < |ls|
    ensures var m := |ls| - 1; ls[..m][..i] == ls[..i] && ls[i + 1..] == ls[..m][i + 1..] + [ls[m]]
  {
  }

  lemma OneMoreStep(ls: seq<Label>, l: Label)
    ensures MsgStepsOf(ls + [l]) == MsgStepsOf(ls) + if l.MsgStep? then 1 else 0
  {
    assert (ls + [l])[..|ls|] == ls;
  }

  predicate Handles(pc: MsgPc) {
    pc.Firing? || pc.Stopping?
  }

  lemma RearmHandlesNothing(s: State, k: Kind, prior: Option<Rankable>, del: Option<nat>)
    ensures !Handles(Rearm(s, k, prior, del).msg)
  {
  }

  lemma TakeHandlesNothing(s: State)
    requires !Handles(s.msg)
    ensures !Handles(TakeMsg(s).msg)
  {
    if s.queue != [] {
      var t := s.(queue := s.queue[1..], taken := s.taken + [s.queue[0]]);
      match s.queue[0]
      case MsgPush(k, d) =>
        if d < |s.dels| {
          RearmHandlesNothing(Put(t, k, Get(t, k).(heap := Push(Get(t, k).heap, Ranked(t, d)))), k, TopOf(Get(t, k).heap), None);
        }
      case MsgRemove(k, d) =>
        if d < |s.dels| {
          RearmHandlesNothing(Put(t, k, Get(t, k).(heap := RemoveFrom(Get(t, k).heap, Ranked(t, d)).tree)), k, None, Some(d));
        }
      case MsgExpire(k) =>
    }
  }

  lemma PopHandlesOne(s: State, k: Kind, at: Timespec, first: bool)
    ensures var t := ProcPop(s, k, at, first); Handles(t.msg) ==> t.msg.Firing? && t.msg.k == k && t.msg.at == at
  {
    RearmHandlesNothing(s, k, None, None);
  }

  lemma FiringComesFromPopping(s: State)
    requires StepMsg(s).msg.Firing?
    ensures s.msg.Popping? && s.msg.k == StepMsg(s).msg.k && s.msg.at == StepMsg(s).msg.at
  {
    match s.msg
    case Idle => TakeHandlesNothing(s);
    case Popping(k, at, first) => PopHandlesOne(s, k, at, first);
    case _ =>
  }

  lemma StoppingComesFromFiring(s: State)
    requires StepMsg(s).msg.Stopping?
    ensures var t := StepMsg(s); s.msg == Firing(t.msg.k, t.msg.at, t.msg.d)
  {
    match s.msg
    case Idle => TakeHandlesNothing(s);
    case Popping(k, at, first) => PopHandlesOne(s, k, at, first);
    case _ =>
  }

  lemma {:induction false} FiringWasPopped(now: Clock, ls: seq<Label>)
    requires Positive(now) && After(now, ls).msg.Firing?
    ensures var msg := After(now, ls).msg;
      exists first: bool :: WasPopped(now, ls, msg.k, msg.at, first, msg.d, 0)
  {
    var m := |ls| - 1;
    var s := After(now, ls[..m]);
    AfterOneMore(now, ls);
    if ls[m].MsgStep? {
      FiringComesFromPopping(s);
      var msg := StepMsg(s).msg;
      assert PopsAt(now, ls, m, msg.k, msg.at, s.msg.first, msg.d) && ls[m + 1..] == [];
      assert WasPopped(now, ls, msg.k, msg.at, s.msg.first, msg.d, 0);
    } else {
      OtherStepKeepsPc(s, ls[m]);
      FiringWasPopped(now, ls[..m]);
      var first: bool :| WasPopped(now, ls[..m], s.msg.k, s.msg.at, first, s.msg.d, 0);
      PoppedBefore(now, ls, s.msg.k, s.msg.at, first, s.msg.d, 0);
    }
  }

  lemma {:induction false} StoppingWasPopped(now: Clock, ls: seq<Label>)
    requires Positive(now) && After(now, ls).msg.Stopping?
    ensures var msg := After(now, ls).msg;
      exists first: bool :: WasPopped(now, ls, msg.k, msg.at, first, msg.d, 1)
  {
    var m := |ls| - 1;
    var s := After(now, ls[..m]);
    AfterOneMore(now, ls);
    if ls[m].MsgStep? {
      StoppingComesFromFiring(s);
      FiringWasPopped(now, ls[..m]);
      var first: bool :| WasPopped(now, ls[..m], s.msg.k, s.msg.at, first, s.msg.d, 0);
      PoppedBefore(now, ls, s.msg.k, s.msg.at, first, s.msg.d, 0);
    } else {
      OtherStepKeepsPc(s, ls[m]);
      StoppingWasPopped(now, ls[..m]);
      var first: bool :| WasPopped(now, ls[..m], s.msg.k, s.msg.at, first, s.msg.d, 1);
      PoppedBefore(now, ls, s.msg.k, s.msg.at, first, s.msg.d, 1);
    }
  }

  /** Every pop but a message's first is of a timer due in the clock's second or an earlier one. */
  lemma OnlyFirstPopIsEarly(s: State, d: nat)
    requires Inv(s) && s.msg.Popping? && StepMsg(s).msg == Firing(s.msg.k, s.msg.at, d)
    ensures d < |s.dels| && (s.dels[d].due.sec > s.msg.at.sec ==> s.msg.first)
  {
    var heap := Get(s, s.msg.k).heap;
    if heap.Nil? {
      P.RearmIsPc(s, s.msg.k, None, None);
    } else {
      assert Occurrences(heap, heap.data) > 0;
    }
  }

  lemma EarlyWasFirst(now: Clock, ls: seq<Label>, k: Kind, at: Timespec, first: bool, d: nat, n: nat)
    requires Positive(now) && WasPopped(now, ls, k, at, first, d, n)
    ensures var s := After(now, ls);
      d < |s.dels| && (s.dels[d].due.sec > at.sec ==> first)
  {
    var i: nat :| i < |ls| && PopsAt(now, ls, i, k, at, first, d) && MsgStepsOf(ls[i + 1..]) == n;
    AlwaysOk(now, ls[..i]);
    OnlyFirstPopIsEarly(After(now, ls[..i]), d);
    PrefixKeepsTimers(now, ls, i);
  }

  /** A callback is logged only by the expire loop's stop, for the delegate its client then runs. */
  lemma CallbackComesFromStopping(s: State, l: Label, c: nat, e: nat)
    requires Base(s) && Step(s, l).log == s.log + [Event(CalledBack, c, e)]
    ensures l.MsgStep? && s.msg.Stopping? && s.msg.client == c && c in s.running && s.running[c] == e
  {
    assert Step(s, l).log[|s.log|] == Event(CalledBack, c, e);
    if l.MsgStep? && !(s.msg.Stopping? && s.msg.client in s.running) { MsgStepKeepsHistory(s); }
  }

  /** Over every interleaving, if a step calls back for a delegate `e` due in a later second than the
      expire message read: either the loop popped another delegate of that client, which meanwhile runs
      `e`, or `e` itself was popped as the first of that very message, unchecked. */
  lemma EarlyCallbackHasOneOfTwoCauses(now: Clock, ls: seq<Label>, l: Label, c: nat, e: nat)
    requires Positive(now)
    requires Step(After(now, ls), l).log == After(now, ls).log + [Event(CalledBack, c, e)]
    ensures var s := After(now, ls);
      && s.msg.Stopping? && e < |s.dels| && s.msg.d < |s.dels| && s.dels[s.msg.d].client == c == s.dels[e].client
      && (s.dels[e].due.sec > s.msg.at.sec ==>
            s.msg.d != e || WasPopped(now, ls, s.msg.k, s.msg.at, true, e, 1))
  {
    AlwaysOk(now, ls);
    var s := After(now, ls);
    CallbackComesFromStopping(s, l, c, e);
    StoppingWasPopped(now, ls);
    var first: bool :| WasPopped(now, ls, s.msg.k, s.msg.at, first, s.msg.d, 1);
    EarlyWasFirst(now, ls, s.msg.k, s.msg.at, first, s.msg.d, 1);
  }
}
