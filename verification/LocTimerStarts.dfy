/** What a client asks for and what it gets: each timer is the one that some start asked for, and each
    stop ends the timer that its client runs. Told over labels and states. */
module LocTimerStarts {
  import opened Options
  import opened LocTimerClock
  import opened LocHeapTree
  import opened LocTimerProtocol
  import opened LocTimerInvariant
  import opened LocTimerTheorems
  import opened LocTimerCauses
  import P = LocTimerProofs
  import L = LocSharedLocks

  /** A client that runs no timer and is not being destroyed. */
  predicate Free(s: State, c: nat) {
    c !in s.running && c !in s.locks.ending && c !in s.locks.ended
  }

  /** A timer of the client and the kind asked for, due exactly the milliseconds asked for later. */
  predicate AsAsked(s: State, l: Label, d: Delegate)
    requires l.Start?
  {
    && d.client == l.client && d.kind == l.kind
    && Normal(d.due) && Nanos(d.due) == Nanos(s.now) + l.ms * 1_000_000
  }

  /** A start by a free client makes one timer, running and live, and sends its push message; any other
      start changes nothing. */
  lemma StartMakesATimer(s: State, l: Label)
    requires l.Start?
    ensures var t := Step(s, l); var n := |s.dels|;
      if !Free(s, l.client) then t == s
      else
        && |t.dels| == n + 1 && t.dels[..n] == s.dels && AsAsked(s, l, t.dels[n]) && t.dels[n].live
        && t.running == s.running[l.client := n]
        && t.queue == s.queue + [MsgPush(l.kind, n)]
        && t.log == s.log + [Event(Started, l.client, n)]
        && t.sw == s.sw && t.hw == s.hw && t.msg == s.msg && t.poll == s.poll && t.now == s.now
  {
  }

  /** Step `i` of the run is a start by a free client, and makes timer `d`. */
  ghost predicate StartedBy(now: Clock, ls: seq<Label>, i: nat, d: nat)
    requires Positive(now)
  {
    && i < |ls| && ls[i].Start?
    && var s := After(now, ls[..i]);
       Free(s, ls[i].client) && |s.dels| == d
  }

  ghost predicate MadeBy(now: Clock, ls: seq<Label>, i: nat, d: nat, t: Delegate)
    requires Positive(now)
  {
    StartedBy(now, ls, i, d) && AsAsked(After(now, ls[..i]), ls[i], t)
  }

  lemma MadeByPrefix(now: Clock, ls: seq<Label>, i: nat, d: nat, t: Delegate, t': Delegate)
    requires Positive(now) && ls != [] && MadeBy(now, ls[..|ls| - 1], i, d, t)
    requires t'.(live := t.live) == t
    ensures MadeBy(now, ls, i, d, t')
  {
    assert ls[..|ls| - 1][..i] == ls[..i];
  }

  lemma {:induction false} SomeStartMadeIt(now: Clock, ls: seq<Label>, d: nat)
    requires Positive(now) && d < |After(now, ls).dels|
    ensures exists i: nat :: MadeBy(now, ls, i, d, After(now, ls).dels[d])
  {
    var m := |ls| - 1;
    var s := After(now, ls[..m]);
    var t := After(now, ls);
    AfterOneMore(now, ls);
    AlwaysOk(now, ls[..m]);
    StepKeepsTimers(s, ls[m]);
    if d < |s.dels| {
      SomeStartMadeIt(now, ls[..m], d);
      var i: nat :| MadeBy(now, ls[..m], i, d, s.dels[d]);
      MadeByPrefix(now, ls, i, d, s.dels[d], t.dels[d]);
    } else {
      StartMakesATimer(s, ls[m]);
      assert MadeBy(now, ls, m, d, t.dels[d]);
    }
  }

  /** A start makes a timer that was not there, and that is there from then on. */
  lemma OnlyOneStartMadeIt(now: Clock, ls: seq<Label>, i: nat, j: nat, d: nat)
    requires Positive(now) && StartedBy(now, ls, i, d) && StartedBy(now, ls, j, d)
    ensures i == j && d < |After(now, ls).dels|
  {
    Grows(now, ls, i, d);
    Grows(now, ls, j, d);
    if i < j {
      LaterHasMore(now, ls, i, j, d);
    } else if j < i {
      LaterHasMore(now, ls, j, i, d);
    }
  }

  lemma Grows(now: Clock, ls: seq<Label>, i: nat, d: nat)
    requires Positive(now) && StartedBy(now, ls, i, d)
    ensures |After(now, ls[..i + 1]).dels| == d + 1 && d < |After(now, ls).dels|
  {
    AfterOneMore(now, ls[..i + 1]);
    assert ls[..i + 1][..i] == ls[..i];
    StartMakesATimer(After(now, ls[..i]), ls[i]);
    PrefixKeepsTimers(now, ls, i + 1);
  }

  lemma LaterHasMore(now: Clock, ls: seq<Label>, i: nat, j: nat, d: nat)
    requires Positive(now) && StartedBy(now, ls, i, d) && i < j < |ls|
    ensures |After(now, ls[..j]).dels| > d
  {
    Grows(now, ls, i, d);
    assert ls[..j][..i + 1] == ls[..i + 1];
    PrefixKeepsTimers(now, ls[..j], i + 1);
  }

  /** No heap but the one of its kind ever holds timer `d`, and no message names it with another kind. */
  ghost predicate KeptTo(s: State, d: nat, k: Kind) {
    && (forall k', x: Rankable | Occurrences(Get(s, k').heap, x) > 0 && x.id == d :: k' == k)
    && (forall i | 0 <= i < |Sent(s)| && !Sent(s)[i].MsgExpire? && Sent(s)[i].timer == d :: Sent(s)[i].kind == k)
  }

  /** Over every run each timer was made by exactly one start, taken by a free client. It has that
      client, the kind asked for, and is due exactly the delay asked for after the clock of that step;
      only the heap of that kind ever holds it, and its messages name that kind. */
  lemma EachTimerIsAsAsked(now: Clock, ls: seq<Label>, d: nat)
    requires Positive(now) && d < |After(now, ls).dels|
    ensures exists i: nat ::
      && StartedBy(now, ls, i, d)
      && (forall j: nat | StartedBy(now, ls, j, d) :: j == i)
      && AsAsked(After(now, ls[..i]), ls[i], After(now, ls).dels[d])
      && KeptTo(After(now, ls), d, ls[i].kind)
  {
    SomeStartMadeIt(now, ls, d);
    var s := After(now, ls);
    var i: nat :| MadeBy(now, ls, i, d, s.dels[d]);
    forall j: nat | StartedBy(now, ls, j, d) ensures j == i { OnlyOneStartMadeIt(now, ls, i, j, d); }
    AlwaysOk(now, ls);
    KindIsKept(s, d);
  }

  lemma KindIsKept(s: State, d: nat)
    requires AllOk(s) && d < |s.dels|
    ensures KeptTo(s, d, s.dels[d].kind)
  {
    assert HeapOk(s, SwTimers) && HeapOk(s, HwTimers);
    forall i | 0 <= i < |Sent(s)| && !Sent(s)[i].MsgExpire? && Sent(s)[i].timer == d
      ensures Sent(s)[i].kind == s.dels[d].kind
    {
      assert MsgOk(s, Sent(s)[i]);
    }
  }

  /** And every start by a free client makes a timer that is there ever after. */
  lemma EveryStartMakesItsTimer(now: Clock, ls: seq<Label>, i: nat)
    requires Positive(now) && i < |ls| && ls[i].Start? && Free(After(now, ls[..i]), ls[i].client)
    ensures var d := |After(now, ls[..i]).dels|; var s := After(now, ls);
      StartedBy(now, ls, i, d) && d < |s.dels| && AsAsked(After(now, ls[..i]), ls[i], s.dels[d])
  {
    var d := |After(now, ls[..i]).dels|;
    Grows(now, ls, i, d);
    AfterOneMore(now, ls[..i + 1]);
    assert ls[..i + 1][..i] == ls[..i];
    StartMakesATimer(After(now, ls[..i]), ls[i]);
    PrefixKeepsTimers(now, ls, i + 1);
  }

  // ---------- Stops ----------

  /** `t` is `s` after the timer that `c` runs, if any, was stopped and its remove message sent. */
  ghost predicate Stops(s: State, t: State, c: nat) {
    if c !in s.running then t.dels == s.dels && t.running == s.running && t.queue == s.queue && t.log == s.log
    else
      var d := s.running[c];
      && d < |s.dels| && |t.dels| == |s.dels|
      && !t.dels[d].live && (forall e | 0 <= e < |s.dels| && e != d :: t.dels[e] == s.dels[e])
      && c !in t.running && (forall b: nat | b != c :: b in t.running <==> b in s.running)
      && (forall b <- t.running :: t.running[b] == s.running[b])
      && t.queue == s.queue + [MsgRemove(s.dels[d].kind, d)]
      && t.log == s.log + [Event(Stopped, c, d)]
  }

  /** A stop, or the first step of a destructor, ends the timer its client runs, and no other; the
      second step of a destructor ends none, and after it, as after a failed stop, nothing is queued. */
  lemma StopEndsTheClientsTimer(now: Clock, ls: seq<Label>, c: nat)
    requires Positive(now)
    ensures var s := After(now, ls);
      && Stops(s, Step(s, Stop(c)), c) && Step(s, Stop(c)).locks == s.locks
      && Stops(s, Step(s, Destroy(c)), c)
      && !Free(Step(s, Destroy(c)), c)
  {
    AlwaysOk(now, ls);
    var s := After(now, ls);
    if c in s.locks.ending || c in s.locks.ended { DestroyedRunsNothing(now, ls, c); }
  }

  lemma DestroyedRunsNothing(now: Clock, ls: seq<Label>, c: nat)
    requires Positive(now) && (c in After(now, ls).locks.ending || c in After(now, ls).locks.ended)
    ensures c !in After(now, ls).running
  {
    L.AlwaysLocked(now, ls, c);
  }

  // ---------- Early callbacks, against what was asked for ----------

  /** Over every run: if a step calls back client `c` for timer `e`, some start of `c` made `e`; and if
      the delay asked for ends in a later second than the expire message read, then either the loop
      popped another timer of that client, or `e` was the unchecked first pop of that message. */
  lemma EarlyCallbackOfARequest(now: Clock, ls: seq<Label>, l: Label, c: nat, e: nat)
    requires Positive(now)
    requires Step(After(now, ls), l).log == After(now, ls).log + [Event(CalledBack, c, e)]
    ensures var s := After(now, ls); s.msg.Stopping?
    ensures var s := After(now, ls); exists i: nat ::
      && StartedBy(now, ls, i, e) && ls[i].client == c
      && ((Nanos(After(now, ls[..i]).now) + ls[i].ms * 1_000_000) / 1_000_000_000 > s.msg.at.sec ==>
            s.msg.d != e || WasPopped(now, ls, s.msg.k, s.msg.at, true, e, 1))
  {
    EarlyCallbackHasOneOfTwoCauses(now, ls, l, c, e);
    var s := After(now, ls);
    EachTimerIsAsAsked(now, ls, e);
    var i: nat :| StartedBy(now, ls, i, e) && AsAsked(After(now, ls[..i]), ls[i], s.dels[e]);
    SecondOf(s.dels[e].due);
  }

  lemma SecondOf(t: Timespec)
    requires Normal(t)
    ensures Nanos(t) / 1_000_000_000 == t.sec
  {
  }
}
