/** The delegate shared by a client thread and the thread it spawned, under every interleaving.

  One step is one read or write of the delegate, or one call of the runnable. The delegate's
  constructor has run; `spawned` says whether a thread came of it.
  */
module LocThreads {
  import opened Options

  datatype Delegate = Delegate(runnable: bool, joinable: bool, refs: int, frees: nat)

  /** Inside `destroy`: the unlocked look at the count, the locked decrement, the delete. */
  datatype Stage = Reading | Locked | Deleting | Done

  datatype Parent =
    | Checking                 // in create(), about to look whether the thread runs
    | Holding                  // start() returned true
    | Clearing                 // in stop(), about to clear mRunnable
    | AboutToJoin              // in stop(), about to look at mJoinable
    | Joining
    | Releasing(stage: Stage)

  datatype Child =
    | Born                     // about to read mRunnable
    | BeforePrerun | InPrerun
    | BeforeRun | InRun
    | BeforePostrun | InPostrun
    | Clears                   // about to clear mRunnable
    | DeletesRunnable
    | Releases(stage: Stage)

  datatype Call = Prerun | RunOnce | Postrun

  /** `entry` is what the spawned thread's first read of mRunnable saw and `verdict` what create()
      decided; `joinable` is mJoinable as first set. */
  datatype History = History(
    spawned: bool, joinable: bool, entry: Option<bool>, verdict: Option<bool>, deletions: nat, calls: seq<Call>)

  datatype State = State(d: Delegate, parent: Parent, child: Child, h: History)

  function Init(spawned: bool, joinable: bool): State {
    State(if spawned then Delegate(true, joinable, 2, 0) else Delegate(false, false, 1, 0),
          Checking,
          if spawned then Born else Releases(Done),
          History(spawned, joinable, None, None, 0, []))
  }

  // ---------- Steps ----------

  function Destroy(d: Delegate, stage: Stage): Delegate {
    match stage
    case Locked => d.(refs := d.refs - 1)
    case Deleting => d.(frees := d.frees + 1)
    case _ => d
  }

  function After(d: Delegate, stage: Stage): Stage {
    match stage
    case Reading => if d.refs > 0 then Locked else Done
    case Locked => if d.refs == 1 then Deleting else Done
    case _ => Done
  }

  /** A step of the parent, where `stop` is the client's choice between stop() and letting go; or a
      step of the spawned thread, where `again` is what run() returns. */
  datatype Label = ParentStep(stop: bool) | ChildStep(again: bool)

  predicate ParentDone(s: State) {
    s.parent == Releasing(Done)
  }

  predicate ChildDone(s: State) {
    s.child == Releases(Done)
  }

  predicate Enabled(s: State, l: Label) {
    if l.ParentStep? then !ParentDone(s) && (s.parent.Joining? ==> ChildDone(s)) else !ChildDone(s)
  }

  function StepParent(s: State, stop: bool): State {
    match s.parent
    case Checking =>
      s.(parent := if s.d.runnable then Holding else Releasing(Reading),
         h := s.h.(verdict := Some(s.d.runnable)))
    case Holding => s.(parent := if stop || s.d.joinable then Clearing else Releasing(Reading))
    case Clearing => s.(d := s.d.(runnable := false), parent := AboutToJoin)
    case AboutToJoin =>
      s.(d := s.d.(joinable := false), parent := if s.d.joinable then Joining else Releasing(Reading))
    case Joining => s.(parent := Releasing(Reading))
    case Releasing(stage) => s.(d := Destroy(s.d, stage), parent := Releasing(After(s.d, stage)))
  }

  function Called(h: History, call: Call): History {
    h.(calls := h.calls + [call])
  }

  function StepChild(s: State, again: bool): State {
    match s.child
    case Born =>
      s.(child := if s.d.runnable then BeforePrerun else Releases(Reading),
         h := s.h.(entry := Some(s.d.runnable)))
    case BeforePrerun => s.(child := if s.d.runnable then InPrerun else BeforeRun)
    case InPrerun => s.(child := BeforeRun, h := Called(s.h, Prerun))
    case BeforeRun => s.(child := if s.d.runnable then InRun else BeforePostrun)
    case InRun => s.(child := if again then BeforeRun else BeforePostrun, h := Called(s.h, RunOnce))
    case BeforePostrun => s.(child := if s.d.runnable then InPostrun else Clears)
    case InPostrun => s.(child := Clears, h := Called(s.h, Postrun))
    case Clears => s.(d := s.d.(runnable := false), child := DeletesRunnable)
    case DeletesRunnable => s.(child := Releases(Reading), h := s.h.(deletions := s.h.deletions + 1))
    case Releases(stage) => s.(d := Destroy(s.d, stage), child := Releases(After(s.d, stage)))
  }

  function Next(s: State, l: Label): State
    requires Enabled(s, l)
  {
    match l
    case ParentStep(stop) => StepParent(s, stop)
    case ChildStep(again) => StepChild(s, again)
  }

  predicate CanRun(s: State, ls: seq<Label>)
    decreases |ls|
  {
    ls != [] ==> Enabled(s, ls[0]) && CanRun(Next(s, ls[0]), ls[1..])
  }

  function Run(s: State, ls: seq<Label>): State
    requires CanRun(s, ls)
    decreases |ls|
  {
    if ls == [] then s else Run(Next(s, ls[0]), ls[1..])
  }

  // ---------- Invariant ----------

  function One(b: bool): int {
    if b then 1 else 0
  }

  predicate Holds(stage: Stage) {
    stage.Reading? || stage.Locked?
  }

  predicate ParentHolds(s: State) {
    s.parent.Releasing? ==> Holds(s.parent.stage)
  }

  predicate ChildHolds(s: State) {
    s.child.Releases? ==> Holds(s.child.stage)
  }

  /** The count is the number of threads still holding on, and the last one to let go deletes. */
  predicate CountOk(s: State) {
    && s.d.refs == One(ParentHolds(s)) + One(ChildHolds(s))
    && s.d.frees + One(s.parent == Releasing(Deleting)) + One(s.child == Releases(Deleting))
       == One(s.d.refs == 0)
  }

  /** The spawned thread is somewhere from its first read to the delete of the runnable. */
  predicate UsesRunnable(c: Child) {
    !c.Born? && !c.Releases?
  }

  predicate RunnableOk(s: State) {
    && (s.child.Born? ==> s.h.entry == None && s.h.spawned)
    && (UsesRunnable(s.child) ==> s.h.entry == Some(true) && s.h.spawned)
    && (s.child.Releases? ==> (s.h.spawned <==> s.h.entry != None))
    && (!s.h.spawned ==> ChildDone(s) && !s.d.runnable)
    && s.h.deletions == One(s.h.entry == Some(true) && s.child.Releases?)
  }

  /** The spawned thread itself cleared mRunnable. */
  predicate RanOut(s: State) {
    s.h.entry == Some(true) && (s.child.DeletesRunnable? || s.child.Releases?)
  }

  predicate ParentOk(s: State) {
    && (s.parent.Checking? <==> s.h.verdict == None)
    && (!s.parent.Checking? && !s.parent.Releasing? ==> s.h.verdict == Some(true))
    && (s.h.verdict == Some(true) ==> s.h.spawned)
    && (s.h.spawned && (s.parent.Checking? || s.parent.Holding? || s.parent.Clearing?) && !s.d.runnable ==> RanOut(s))
    && (s.h.spawned && s.h.verdict == Some(false) ==> RanOut(s))
  }

  predicate JoinOk(s: State) {
    && ((s.parent.Holding? || s.parent.Clearing? || s.parent.AboutToJoin?) ==> s.d.joinable == s.h.joinable)
    && (s.parent.Checking? && s.h.spawned ==> s.d.joinable == s.h.joinable)
    && (s.h.verdict == Some(true) && s.h.joinable && s.parent.Releasing? ==> ChildDone(s))
  }

  predicate Inv(s: State) {
    CountOk(s) && RunnableOk(s) && ParentOk(s) && JoinOk(s)
  }

  lemma ParentStepKeepsInv(s: State, stop: bool)
    requires Inv(s) && Enabled(s, ParentStep(stop))
    ensures Inv(StepParent(s, stop))
  {
  }

  lemma ChildReleaseKeepsInv(s: State, again: bool)
    requires Inv(s) && s.child.Releases? && !ChildDone(s)
    ensures Inv(StepChild(s, again))
  {
  }

  lemma ChildUseKeepsInv(s: State, again: bool)
    requires Inv(s) && !s.child.Releases?
    ensures Inv(StepChild(s, again))
  {
  }

  lemma ChildStepKeepsInv(s: State, again: bool)
    requires Inv(s) && Enabled(s, ChildStep(again))
    ensures Inv(StepChild(s, again))
  {
    if s.child.Releases? { ChildReleaseKeepsInv(s, again); } else { ChildUseKeepsInv(s, again); }
  }

  lemma StepKeepsInv(s: State, l: Label)
    requires Inv(s) && Enabled(s, l)
    ensures Inv(Next(s, l))
    ensures Next(s, l).h.spawned == s.h.spawned && Next(s, l).h.joinable == s.h.joinable
  {
    match l
    case ParentStep(stop) => ParentStepKeepsInv(s, stop);
    case ChildStep(again) => ChildStepKeepsInv(s, again);
  }

  lemma {:induction false} RunKeepsInv(s: State, ls: seq<Label>)
    requires Inv(s) && CanRun(s, ls)
    ensures Inv(Run(s, ls))
    ensures Run(s, ls).h.spawned == s.h.spawned && Run(s, ls).h.joinable == s.h.joinable
    decreases |ls|
  {
    if ls != [] {
      StepKeepsInv(s, ls[0]);
      RunKeepsInv(Next(s, ls[0]), ls[1..]);
    }
  }

  // ---------- Theorems ----------

  predicate Finished(s: State) {
    ParentDone(s) && ChildDone(s)
  }

  /** Under every interleaving the delegate is freed only after both threads let go, exactly once by
      the time both are done, and neither ever takes a step on it after that. */
  lemma FreedExactlyOnce(spawned: bool, joinable: bool, ls: seq<Label>)
    requires CanRun(Init(spawned, joinable), ls)
    ensures var s := Run(Init(spawned, joinable), ls);
      && s.d.frees == One(Finished(s))
      && (forall l | Enabled(s, l) :: s.d.frees == 0)
  {
    RunKeepsInv(Init(spawned, joinable), ls);
  }

  /** Under every interleaving the runnable is deleted at most once, never while it may still be
      called, and once the spawned thread is over it was deleted if and only if that thread's first
      read still saw it. */
  lemma RunnableDeletedIffSeen(spawned: bool, joinable: bool, ls: seq<Label>)
    requires CanRun(Init(spawned, joinable), ls)
    ensures var s := Run(Init(spawned, joinable), ls);
      && s.h.deletions <= 1
      && (UsesRunnable(s.child) ==> s.h.deletions == 0)
      && (ChildDone(s) ==> (s.h.deletions == 1 <==> s.h.entry == Some(true)))
  {
    RunKeepsInv(Init(spawned, joinable), ls);
  }

  // ---------- Who deletes the runnable ----------

  /** Somewhere along the schedule the client's stop() clears mRunnable before the spawned thread has
      read it. */
  predicate ClearsUnread(s: State, ls: seq<Label>)
    requires CanRun(s, ls)
    decreases |ls|
  {
    ls != [] &&
      ((ls[0].ParentStep? && s.parent.Clearing? && s.child.Born?) || ClearsUnread(Next(s, ls[0]), ls[1..]))
  }

  /** Somewhere along the schedule create() looks only after the spawned thread has cleared mRunnable
      on its way out. */
  predicate ChecksTooLate(s: State, ls: seq<Label>)
    requires CanRun(s, ls)
    decreases |ls|
  {
    ls != [] &&
      ((ls[0].ParentStep? && s.parent.Checking? && (s.child.DeletesRunnable? || s.child.Releases?))
       || ChecksTooLate(Next(s, ls[0]), ls[1..]))
  }

  /** While create() has not looked, only the spawned thread can have cleared mRunnable, on its way
      out; and until the thread has read it, only the parent can have. */
  predicate ClearedBy(s: State) {
    && (s.parent.Checking? ==> (!s.d.runnable <==> s.child.DeletesRunnable? || s.child.Releases?))
    && (s.parent.Holding? || s.parent.Clearing? ==> (s.child.Born? ==> s.d.runnable))
  }

  lemma StepKeepsClearedBy(s: State, l: Label)
    requires Inv(s) && ClearedBy(s) && s.h.spawned && Enabled(s, l)
    ensures ClearedBy(Next(s, l))
  {
    match l
    case ParentStep(stop) =>
    case ChildStep(again) =>
  }

  lemma {:induction false} EntryStays(s: State, ls: seq<Label>)
    requires CanRun(s, ls) && !s.child.Born?
    ensures Run(s, ls).h.entry == s.h.entry && !ClearsUnread(s, ls)
    decreases |ls|
  {
    if ls != [] { EntryStays(Next(s, ls[0]), ls[1..]); }
  }

  /** A cleared mRunnable is what the thread's first read sees, and only one parent step clears it. */
  lemma {:induction false} UnreadStaysUnread(s: State, ls: seq<Label>)
    requires CanRun(s, ls) && s.child.Born? && !s.d.runnable && ChildDone(Run(s, ls))
    ensures Run(s, ls).h.entry == Some(false)
    decreases |ls|
  {
    var t := Next(s, ls[0]);
    if t.child.Born? { UnreadStaysUnread(t, ls[1..]); } else { EntryStays(t, ls[1..]); }
  }

  lemma {:induction false} UnreadIff(s: State, ls: seq<Label>)
    requires CanRun(s, ls) && s.child.Born? && s.d.runnable && ChildDone(Run(s, ls))
    ensures Run(s, ls).h.entry == Some(!ClearsUnread(s, ls))
    decreases |ls|
  {
    var t := Next(s, ls[0]);
    if !t.child.Born? {
      EntryStays(t, ls[1..]);
    } else if t.d.runnable {
      UnreadIff(t, ls[1..]);
    } else {
      UnreadStaysUnread(t, ls[1..]);
    }
  }

  lemma {:induction false} VerdictStays(s: State, ls: seq<Label>)
    requires CanRun(s, ls) && !s.parent.Checking?
    ensures Run(s, ls).h.verdict == s.h.verdict && !ChecksTooLate(s, ls)
    decreases |ls|
  {
    if ls != [] { VerdictStays(Next(s, ls[0]), ls[1..]); }
  }

  lemma {:induction false} VerdictIff(s: State, ls: seq<Label>)
    requires CanRun(s, ls) && Inv(s) && ClearedBy(s) && s.h.spawned && s.parent.Checking?
    requires ParentDone(Run(s, ls))
    ensures Run(s, ls).h.verdict == Some(!ChecksTooLate(s, ls))
    decreases |ls|
  {
    var t := Next(s, ls[0]);
    StepKeepsInv(s, ls[0]);
    StepKeepsClearedBy(s, ls[0]);
    if t.parent.Checking? { VerdictIff(t, ls[1..]); } else { VerdictStays(t, ls[1..]); }
  }

  /** The header's promise: the runnable is deleted if `start` returns true, and is the client's to
      delete if not. A schedule keeps it if and only if stop() does not clear mRunnable before the
      spawned thread has read it, and create() does not look after that thread has cleared it. */
  lemma OwnershipKeptIff(joinable: bool, ls: seq<Label>)
    requires CanRun(Init(true, joinable), ls) && Finished(Run(Init(true, joinable), ls))
    ensures var s0 := Init(true, joinable); var s := Run(s0, ls);
      (s.h.deletions == 1 <==> s.h.verdict == Some(true)) <==>
        !ClearsUnread(s0, ls) && !ChecksTooLate(s0, ls)
  {
    var s0 := Init(true, joinable);
    UnreadIff(s0, ls);
    VerdictIff(s0, ls);
    RunKeepsInv(s0, ls);
  }

  /** A step a careful client takes or lets happen: run() returns true until start() has returned, and
      nothing is stopped before a first callback has returned. */
  predicate Careful(s: State, l: Label) {
    match l
    case ParentStep(stop) => s.parent.Holding? && (stop || s.d.joinable) ==> s.h.calls != []
    case ChildStep(again) => s.child.InRun? && s.parent.Checking? ==> again
  }

  predicate AllCareful(s: State, ls: seq<Label>)
    requires CanRun(s, ls)
    decreases |ls|
  {
    ls != [] ==> Careful(s, ls[0]) && AllCareful(Next(s, ls[0]), ls[1..])
  }

  /** What carefulness keeps. */
  predicate Tame(s: State) {
    && (s.parent.Checking? ==>
          s.d.runnable && (s.child.Born? || s.child.BeforePrerun? || s.child.InPrerun?
                           || s.child.BeforeRun? || s.child.InRun?))
    && (s.child.Born? ==> s.h.calls == [] && !s.parent.Clearing?)
  }

  lemma CarefulKeepsTame(s: State, l: Label)
    requires Tame(s) && Enabled(s, l) && Careful(s, l)
    ensures Tame(Next(s, l))
  {
    match l
    case ParentStep(stop) =>
    case ChildStep(again) =>
  }

  lemma {:induction false} TameRuns(s: State, ls: seq<Label>)
    requires Tame(s) && CanRun(s, ls) && AllCareful(s, ls)
    ensures !ClearsUnread(s, ls) && !ChecksTooLate(s, ls)
    decreases |ls|
  {
    if ls != [] {
      CarefulKeepsTame(s, ls[0]);
      TameRuns(Next(s, ls[0]), ls[1..]);
    }
  }

  /** A careful client always gets what the header promises. */
  lemma CarefulClientKeepsOwnership(joinable: bool, ls: seq<Label>)
    requires CanRun(Init(true, joinable), ls) && AllCareful(Init(true, joinable), ls)
    requires Finished(Run(Init(true, joinable), ls))
    ensures var s := Run(Init(true, joinable), ls); s.h.deletions == 1 && s.h.verdict == Some(true)
  {
    var s0 := Init(true, joinable);
    TameRuns(s0, ls);
    UnreadIff(s0, ls);
    VerdictIff(s0, ls);
    RunnableDeletedIffSeen(true, joinable, ls);
  }

  // ---------- Concrete runs ----------

  lemma Prepend(s: State, l: Label, ls: seq<Label>)
    requires Enabled(s, l) && CanRun(Next(s, l), ls)
    ensures CanRun(s, [l] + ls) && Run(s, [l] + ls) == Run(Next(s, l), ls)
  {
    assert ([l] + ls)[1..] == ls;
  }

  ghost predicate CanReach(s: State, t: State) {
    exists ls: seq<Label> :: CanRun(s, ls) && Run(s, ls) == t
  }

  lemma ReachBack(s: State, l: Label, t: State)
    requires Enabled(s, l) && CanReach(Next(s, l), t)
    ensures CanReach(s, t)
  {
    var ls: seq<Label> :| CanRun(Next(s, l), ls) && Run(Next(s, l), ls) == t;
    Prepend(s, l, ls);
  }

  lemma ReachFurther(s: State, t: State, u: State)
    requires CanReach(s, t) && CanReach(t, u)
    ensures CanReach(s, u)
  {
    var ls: seq<Label> :| CanRun(s, ls) && Run(s, ls) == t;
    ReachAlong(s, ls, u);
  }

  lemma {:induction false} ReachAlong(s: State, ls: seq<Label>, u: State)
    requires CanRun(s, ls) && CanReach(Run(s, ls), u)
    ensures CanReach(s, u)
    decreases |ls|
  {
    if ls != [] {
      ReachAlong(Next(s, ls[0]), ls[1..], u);
      ReachBack(s, ls[0], u);
    }
  }

  lemma ReachNext(s: State, l: Label, t: State)
    requires Enabled(s, l) && Next(s, l) == t
    ensures CanReach(s, t)
  {
    assert CanRun(t, []) && Run(t, []) == t;
    ReachBack(s, l, t);
  }

  /** The spawned thread, alone, up to its first call of run(). */
  lemma ChildGetsGoing(s: State)
    requires s.child.Born? && s.d.runnable
    ensures CanReach(s, s.(child := InRun, h := Called(s.h.(entry := Some(true)), Prerun)))
  {
    var c := ChildStep(false);
    var s1 := s.(child := BeforePrerun, h := s.h.(entry := Some(true)));
    var s2 := s1.(child := InPrerun);
    var s3 := s1.(child := BeforeRun, h := Called(s1.h, Prerun));
    var s4 := s3.(child := InRun);
    ReachNext(s3, c, s4);
    ReachBack(s2, c, s4);
    ReachBack(s1, c, s4);
    ReachBack(s, c, s4);
  }

  /** And from there, if run() returns false, until it is about to let the delegate go. */
  lemma ChildWindsUp(s: State)
    requires s.child.InRun? && s.d.runnable
    ensures CanReach(s, s.(d := s.d.(runnable := false), child := Releases(Reading),
                           h := s.h.(deletions := s.h.deletions + 1, calls := s.h.calls + [RunOnce] + [Postrun])))
  {
    var c := ChildStep(false);
    var s1 := s.(child := BeforePostrun, h := Called(s.h, RunOnce));
    var s2 := s1.(child := InPostrun);
    var s3 := s1.(child := Clears, h := Called(s1.h, Postrun));
    var s4 := s3.(d := s.d.(runnable := false), child := DeletesRunnable);
    var s5 := s4.(child := Releases(Reading), h := s4.h.(deletions := s4.h.deletions + 1));
    ReachNext(s4, c, s5);
    ReachBack(s3, c, s5);
    ReachBack(s2, c, s5);
    ReachBack(s1, c, s5);
    ReachBack(s, c, s5);
  }

  lemma ChildLetsGo(s: State)
    requires s.child == Releases(Reading) && s.d.refs == 2
    ensures CanReach(s, s.(d := s.d.(refs := 1), child := Releases(Done)))
  {
    var c := ChildStep(false);
    var s1 := s.(child := Releases(Locked));
    var s2 := s.(d := s.d.(refs := 1), child := Releases(Done));
    ReachNext(s1, c, s2);
    ReachBack(s, c, s2);
  }

  lemma ParentLetsGo(s: State)
    requires s.parent == Releasing(Reading) && s.d.refs == 1
    ensures CanReach(s, s.(d := s.d.(refs := 0, frees := s.d.frees + 1), parent := Releasing(Done)))
  {
    var p := ParentStep(true);
    var s1 := s.(parent := Releasing(Locked));
    var s2 := s.(d := s.d.(refs := 0), parent := Releasing(Deleting));
    var s3 := s.(d := s.d.(refs := 0, frees := s.d.frees + 1), parent := Releasing(Done));
    ReachNext(s2, p, s3);
    ReachBack(s1, p, s3);
    ReachBack(s, p, s3);
  }

  /** A thread that is done before create() looks: `start` returns false, yet the runnable has run
      and is already deleted. */
  lemma FastThreadLooksFailed(joinable: bool)
    ensures exists t :: (
      && CanReach(Init(true, joinable), t) && Finished(t)
      && t.h.verdict == Some(false) && t.h.deletions == 1 && RunOnce in t.h.calls)
  {
    var s0 := Init(true, joinable);
    var h := History(true, joinable, Some(true), None, 0, [] + [Prerun]);
    var s1 := s0.(child := InRun, h := h);
    ChildGetsGoing(s0);
    var h2 := h.(deletions := 1, calls := h.calls + [RunOnce] + [Postrun]);
    var s2 := State(Delegate(false, joinable, 2, 0), Checking, Releases(Reading), h2);
    ChildWindsUp(s1);
    var s3 := State(Delegate(false, joinable, 1, 0), Checking, Releases(Done), h2);
    ChildLetsGo(s2);
    var s4 := s3.(parent := Releasing(Reading), h := h2.(verdict := Some(false)));
    ReachNext(s3, ParentStep(true), s4);
    var s5 := s4.(d := Delegate(false, joinable, 0, 1), parent := Releasing(Done));
    ParentLetsGo(s4);
    ReachFurther(s3, s4, s5);
    ReachFurther(s2, s3, s5);
    ReachFurther(s1, s2, s5);
    ReachFurther(s0, s1, s5);
    assert h2.calls[1] == RunOnce;
  }

  /** A client that stops before the spawned thread first reads mRunnable: `start` returned true, yet
      nobody deletes the runnable. */
  lemma EarlyStopLeaksRunnable()
    ensures exists t :: (
      && CanReach(Init(true, true), t) && Finished(t)
      && t.h.verdict == Some(true) && t.h.deletions == 0)
  {
    var c, p := ChildStep(false), ParentStep(true);
    var h := History(true, true, None, Some(true), 0, []);
    var s0 := Init(true, true);
    var s1 := s0.(parent := Holding, h := h);
    var s2 := s1.(parent := Clearing);
    var s3 := s1.(d := Delegate(false, true, 2, 0), parent := AboutToJoin);
    var h' := h.(entry := Some(false));
    var s4 := s3.(child := Releases(Reading), h := h');
    ReachNext(s3, c, s4);
    ReachBack(s2, p, s4);
    ReachBack(s1, p, s4);
    ReachBack(s0, p, s4);
    var s5 := State(Delegate(false, true, 1, 0), AboutToJoin, Releases(Done), h');
    ChildLetsGo(s4);
    var s6 := State(Delegate(false, false, 1, 0), Joining, Releases(Done), h');
    var s7 := s6.(parent := Releasing(Reading));
    ReachNext(s6, p, s7);
    ReachBack(s5, p, s7);
    var s8 := State(Delegate(false, false, 0, 1), Releasing(Done), Releases(Done), h');
    ParentLetsGo(s7);
    ReachFurther(s5, s7, s8);
    ReachFurther(s4, s5, s8);
    ReachFurther(s0, s4, s8);
  }

  /** Once mRunnable is cleared it stays so, and at most the call already under way is made. */
  lemma {:induction false} ClearedMeansOneMoreCall(s: State, ls: seq<Label>)
    requires !s.d.runnable && CanRun(s, ls)
    ensures var t := Run(s, ls);
      && !t.d.runnable && s.h.calls <= t.h.calls
      && |t.h.calls| + One(InCall(t.child)) <= |s.h.calls| + One(InCall(s.child))
    decreases |ls|
  {
    if ls != [] {
      var t := Next(s, ls[0]);
      ClearedStep(s, ls[0]);
      ClearedMeansOneMoreCall(t, ls[1..]);
    }
  }

  lemma ClearedStep(s: State, l: Label)
    requires !s.d.runnable && Enabled(s, l)
    ensures var t := Next(s, l);
      && !t.d.runnable && s.h.calls <= t.h.calls
      && |t.h.calls| + One(InCall(t.child)) <= |s.h.calls| + One(InCall(s.child))
      && Rank(t) < Rank(s)
  {
  }

  predicate InCall(c: Child) {
    c.InPrerun? || c.InRun? || c.InPostrun?
  }

  /** Once stop, or letting go, is over for a joinable thread that was started, the spawned thread is
      over too, and nothing at all can follow. */
  lemma JoinedMeansSilent(ls: seq<Label>, l: Label)
    requires CanRun(Init(true, true), ls)
    requires var s := Run(Init(true, true), ls); ParentDone(s) && s.h.verdict == Some(true)
    ensures var s := Run(Init(true, true), ls); ChildDone(s) && !Enabled(s, l)
  {
    RunKeepsInv(Init(true, true), ls);
  }

  // ---------- Stopping, and letting go ----------

  /** Somewhere along the schedule the client chooses to stop the thread. */
  predicate StopChosen(s: State, ls: seq<Label>)
    requires CanRun(s, ls)
    decreases |ls|
  {
    ls != [] && ((s.parent.Holding? && ls[0] == ParentStep(true)) || StopChosen(Next(s, ls[0]), ls[1..]))
  }

  /** Inside stop(), or past it: the next step clears mRunnable, or it is cleared. */
  predicate ClearingOrCleared(s: State) {
    s.parent.Clearing? || !s.d.runnable
  }

  lemma {:induction false} ClearingEndsCleared(s: State, ls: seq<Label>)
    requires CanRun(s, ls) && ClearingOrCleared(s)
    ensures ClearingOrCleared(Run(s, ls))
    decreases |ls|
  {
    if ls != [] { ClearingEndsCleared(Next(s, ls[0]), ls[1..]); }
  }

  /** Once the client has chosen to stop, joinable or not, mRunnable is cleared by the time the parent is
      done. */
  lemma {:induction false} StopAlwaysClears(s: State, ls: seq<Label>)
    requires CanRun(s, ls) && StopChosen(s, ls) && ParentDone(Run(s, ls))
    ensures !Run(s, ls).d.runnable
    decreases |ls|
  {
    var t := Next(s, ls[0]);
    if s.parent.Holding? && ls[0] == ParentStep(true) {
      ClearingEndsCleared(t, ls[1..]);
    } else {
      StopAlwaysClears(t, ls[1..]);
    }
  }

  /** The parent clears mRunnable somewhere along the schedule. */
  predicate ParentClears(s: State, ls: seq<Label>)
    requires CanRun(s, ls)
    decreases |ls|
  {
    ls != [] && ((s.parent.Clearing? && ls[0].ParentStep?) || ParentClears(Next(s, ls[0]), ls[1..]))
  }

  /** A client that lets go of a detached thread does not stop it. */
  lemma {:induction false} LettingGoClearsNothing(s: State, ls: seq<Label>)
    requires CanRun(s, ls) && s.parent.Releasing?
    ensures !ParentClears(s, ls) && Run(s, ls).parent.Releasing?
    decreases |ls|
  {
    if ls != [] { LettingGoClearsNothing(Next(s, ls[0]), ls[1..]); }
  }

  // ---------- What is called ----------

  function Runs(n: nat): seq<Call> {
    seq(n, _ => RunOnce)
  }

  /** The calls a thread has made by the time it stands where it does, if nobody clears mRunnable, with
      `n` calls of run(). */
  predicate CallsSoFar(s: State, n: nat) {
    match s.child
    case Born => n == 0 && s.h.calls == []
    case BeforePrerun => n == 0 && s.h.calls == []
    case InPrerun => n == 0 && s.h.calls == []
    case BeforeRun => s.h.calls == [Prerun] + Runs(n)
    case InRun => s.h.calls == [Prerun] + Runs(n)
    case BeforePostrun => n > 0 && s.h.calls == [Prerun] + Runs(n)
    case InPostrun => n > 0 && s.h.calls == [Prerun] + Runs(n)
    case _ => n > 0 && s.h.calls == [Prerun] + Runs(n) + [Postrun]
  }

  /** What run() returned along the schedule, in order. */
  function Answers(s: State, ls: seq<Label>): seq<bool>
    requires CanRun(s, ls)
    decreases |ls|
  {
    if ls == [] then []
    else (if s.child.InRun? && ls[0].ChildStep? then [ls[0].again] else []) + Answers(Next(s, ls[0]), ls[1..])
  }

  lemma RunsOneMore(n: nat)
    ensures Runs(n) + [RunOnce] == Runs(n + 1)
  {
  }

  lemma StepCalls(s: State, l: Label, n: nat)
    requires Enabled(s, l) && Undisturbed(s) && CallsSoFar(s, n) && !(s.parent.Clearing? && l.ParentStep?)
    ensures Undisturbed(Next(s, l))
    ensures CallsSoFar(Next(s, l), if s.child.InRun? && l.ChildStep? then n + 1 else n)
  {
    RunsOneMore(n);
  }

  /** Nobody but the thread itself has cleared mRunnable. */
  predicate Undisturbed(s: State) {
    s.d.runnable <==> !(s.child.DeletesRunnable? || s.child.Releases?)
  }

  lemma {:induction false} UndisturbedCalls(s: State, ls: seq<Label>, n: nat)
    requires CanRun(s, ls) && Undisturbed(s) && CallsSoFar(s, n) && !ParentClears(s, ls)
    ensures CallsSoFar(Run(s, ls), n + |Answers(s, ls)|)
    decreases |ls|
  {
    if ls != [] {
      StepCalls(s, ls[0], n);
      UndisturbedCalls(Next(s, ls[0]), ls[1..], if s.child.InRun? && ls[0].ChildStep? then n + 1 else n);
    }
  }

  predicate AllTrue(bs: seq<bool>) {
    forall i | 0 <= i < |bs| :: bs[i]
  }

  predicate StillRunning(c: Child) {
    c.Born? || c.BeforePrerun? || c.InPrerun? || c.BeforeRun? || c.InRun?
  }

  lemma {:induction false} NoMoreAnswers(s: State, ls: seq<Label>)
    requires CanRun(s, ls) && !StillRunning(s.child)
    ensures Answers(s, ls) == []
    decreases |ls|
  {
    if ls != [] { NoMoreAnswers(Next(s, ls[0]), ls[1..]); }
  }

  lemma {:induction false} AnswersUntilFalse(s: State, ls: seq<Label>)
    requires CanRun(s, ls) && Undisturbed(s) && !ParentClears(s, ls) && StillRunning(s.child)
    ensures var bs := Answers(s, ls);
      if StillRunning(Run(s, ls).child) then AllTrue(bs)
      else bs != [] && AllTrue(bs[..|bs| - 1]) && !bs[|bs| - 1]
    decreases |ls|
  {
    if ls != [] {
      var t := Next(s, ls[0]);
      if StillRunning(t.child) {
        AnswersUntilFalse(t, ls[1..]);
      } else {
        NoMoreAnswers(t, ls[1..]);
        OverStaysOver(t, ls[1..]);
      }
    }
  }

  lemma {:induction false} OverStaysOver(s: State, ls: seq<Label>)
    requires CanRun(s, ls) && !StillRunning(s.child)
    ensures !StillRunning(Run(s, ls).child)
    decreases |ls|
  {
    if ls != [] { OverStaysOver(Next(s, ls[0]), ls[1..]); }
  }

  /** A thread that nobody stops calls prerun once, then run until it first returns false, then postrun
      once, and is then over. */
  lemma UnstoppedThreadMakesAllCalls(joinable: bool, ls: seq<Label>)
    requires CanRun(Init(true, joinable), ls) && !ParentClears(Init(true, joinable), ls)
    requires ChildDone(Run(Init(true, joinable), ls))
    ensures var s0 := Init(true, joinable); var bs := Answers(s0, ls);
      && bs != [] && AllTrue(bs[..|bs| - 1]) && !bs[|bs| - 1]
      && Run(s0, ls).h.calls == [Prerun] + Runs(|bs|) + [Postrun]
  {
    var s0 := Init(true, joinable);
    UndisturbedCalls(s0, ls, 0);
    AnswersUntilFalse(s0, ls);
  }

  /** A delegate that got no thread: `start` returns false, nothing is called, and the runnable is left
      to the client. */
  lemma NoThreadMeansFailure(joinable: bool, ls: seq<Label>)
    requires CanRun(Init(false, joinable), ls) && ParentDone(Run(Init(false, joinable), ls))
    ensures var s := Run(Init(false, joinable), ls);
      s.h.verdict == Some(false) && s.h.deletions == 0 && s.h.calls == [] && s.d.frees == 1
  {
    var s0 := Init(false, joinable);
    RunKeepsInv(s0, ls);
    NoThreadCallsNothing(s0, ls);
    var s := Run(s0, ls);
    assert s.h.verdict.Some? && !s.h.verdict.value by { assert ParentOk(s) && !s.h.spawned; }
  }

  lemma {:induction false} NoThreadCallsNothing(s: State, ls: seq<Label>)
    requires CanRun(s, ls) && ChildDone(s)
    ensures ChildDone(Run(s, ls)) && Run(s, ls).h.calls == s.h.calls
    decreases |ls|
  {
    if ls != [] { NoThreadCallsNothing(Next(s, ls[0]), ls[1..]); }
  }

  // ---------- Termination ----------

  function StageRank(stage: Stage): nat {
    match stage
    case Reading => 3
    case Locked => 2
    case Deleting => 1
    case Done => 0
  }

  function ParentRank(p: Parent): nat {
    match p
    case Checking => 8
    case Holding => 7
    case Clearing => 6
    case AboutToJoin => 5
    case Joining => 4
    case Releasing(stage) => StageRank(stage)
  }

  function ChildRank(c: Child): nat {
    match c
    case Born => 12
    case BeforePrerun => 11
    case InPrerun => 10
    case InRun => 9
    case BeforeRun => 8
    case BeforePostrun => 7
    case InPostrun => 6
    case Clears => 5
    case DeletesRunnable => 4
    case Releases(stage) => StageRank(stage)
  }

  function Rank(s: State): nat {
    ParentRank(s.parent) + ChildRank(s.child)
  }

  /** Once mRunnable is cleared, every schedule is over within twenty steps, whatever run() returns,
      and as long as a thread is not done somebody can move: a stop always returns. */
  lemma {:induction false} ClearedMeansItEnds(s: State, ls: seq<Label>)
    requires !s.d.runnable && CanRun(s, ls)
    ensures |ls| + Rank(Run(s, ls)) <= Rank(s) <= 20
    ensures Finished(Run(s, ls)) || exists l :: Enabled(Run(s, ls), l)
    decreases |ls|
  {
    if ls != [] {
      ClearedStep(s, ls[0]);
      ClearedMeansItEnds(Next(s, ls[0]), ls[1..]);
    } else {
      assert Finished(s) || Enabled(s, ParentStep(true)) || Enabled(s, ChildStep(true));
    }
  }
}
