/** What subscribers and the servicer are told, counted over every run. */
module AgpsAccounting {
  import opened AgpsModel
  import opened AgpsTheorems

  // ---------- The servicer's side of the conversation ----------

  /** The connection as the servicer sees it, from the requests it gets and the events it reports. */
  datatype Conn = Closed | Asked | Held

  function Follow(c: Conn, e: Entry): Conn {
    match e
    case Sent(Request) => Asked
    case Sent(Release) => Closed
    case Heard(Granted) => if c.Asked? then Held else c
    case Heard(Denied) => if c.Asked? then Closed else c
    case Heard(Released) => if c.Held? then Closed else c
    case _ => c
  }

  function Trace(c: Conn, log: seq<Entry>): Conn {
    if log == [] then c else Follow(Trace(c, log[..|log| - 1]), log[|log| - 1])
  }

  /** A request goes out only while nothing is asked for or held, a release only while something is,
      and the guard lets every one of them through. */
  predicate Fitting(c: Conn, e: Entry) {
    match e
    case Sent(Request) => c.Closed?
    case Sent(Release) => !c.Closed?
    case Swallowed(_) => false
    case _ => true
  }

  predicate AllFitting(log: seq<Entry>) {
    log != [] ==>
      AllFitting(log[..|log| - 1]) && Fitting(Trace(Closed, log[..|log| - 1]), log[|log| - 1])
  }

  lemma {:induction false} EachFits(log: seq<Entry>, i: nat)
    requires AllFitting(log) && i < |log|
    ensures Fitting(Trace(Closed, log[..i]), log[i])
  {
    var n := |log| - 1;
    if i < n {
      EachFits(log[..n], i);
      assert log[..n][..i] == log[..i];
    }
  }

  function ConnOf(phase: Phase): Conn {
    match phase
    case ReleasedState => Closed
    case ReleasingState => Closed
    case PendingState => Asked
    case AcquiredState => Held
  }

  predicate Conversing(m: Agps) {
    Trace(Closed, m.log) == ConnOf(m.phase) && AllFitting(m.log)
  }

  predicate Silent(e: Entry) {
    e.Joined? || e.Note? || e.Told? || e.Dropped?
  }

  lemma LogOne(log: seq<Entry>, e: Entry)
    requires AllFitting(log) && Fitting(Trace(Closed, log), e)
    ensures AllFitting(log + [e]) && Trace(Closed, log + [e]) == Follow(Trace(Closed, log), e)
  {
    assert (log + [e])[..|log|] == log;
  }

  lemma {:induction false} LogSilent(log: seq<Entry>, more: seq<Entry>)
    requires AllFitting(log) && forall e | e in more :: Silent(e)
    ensures AllFitting(log + more) && Trace(Closed, log + more) == Trace(Closed, log)
  {
    if more == [] {
      assert log + more == log;
    } else {
      var n := |more| - 1;
      LogSilent(log, more[..n]);
      assert log + more == log + more[..n] + [more[n]];
      assert more[n] in more;
      LogOne(log + more[..n], more[n]);
    }
  }

  lemma {:induction false} NotesAreSilent(subs: seq<Subscriber>, target: Target, status: Status)
    ensures forall e | e in Notes(subs, target, status) :: Silent(e)
  {
    if subs != [] { NotesAreSilent(subs[1..], target, status); }
  }

  lemma {:induction false} DropsAreSilent(subs: seq<Subscriber>)
    ensures forall e | e in Drops(subs) :: Silent(e)
  {
    if subs != [] { DropsAreSilent(subs[1..]); }
  }

  lemma NotifyTalks(m: Agps, target: Target, status: Status, delete: bool)
    requires AllFitting(m.log)
    ensures var log := NotifyAll(m, target, status, delete).log;
      AllFitting(log) && Trace(Closed, log) == Trace(Closed, m.log)
  {
    NotesAreSilent(m.subs, target, status);
    LogSilent(m.log, Notes(m.subs, target, status));
  }

  lemma LeaveTalks(m: Agps, i: nat)
    requires AllFitting(m.log) && i < |m.subs|
    ensures var log := Leave(m, i).log; AllFitting(log) && Trace(Closed, log) == Trace(Closed, m.log)
  {
    if !m.subs[i].waits { NotifyTalks(m, One(m.subs[i].id), Unsubscribed, true); }
  }

  lemma AddTalks(m: Agps, id: nat, waits: bool)
    requires AllFitting(m.log)
    ensures var log := AddSubscriber(m, id, waits).log;
      AllFitting(log) && Trace(Closed, log) == Trace(Closed, m.log)
  {
    LogOne(m.log, Joined(m.next, id));
  }

  lemma FirstSubscribeTalks(m: Agps, id: nat, waits: bool)
    requires Conversing(m) && ListOk(m) && m.phase.ReleasedState?
    ensures Conversing(OnSubscribe(m, id, waits))
  {
    AddTalks(m, id, waits);
    AddKeepsList(m, id, waits);
    LogOne(AddSubscriber(m, id, waits).log, Sent(Request));
  }

  lemma GrantedSubscribeTalks(m: Agps, id: nat, waits: bool)
    requires Conversing(m) && m.phase.AcquiredState?
    ensures Conversing(OnSubscribe(m, id, waits))
  {
    LogOne(m.log, Told(id, Granted));
    AddTalks(m.(log := m.log + [Told(id, Granted)]), id, waits);
  }

  lemma SubscribeTalks(m: Agps, id: nat, waits: bool)
    requires Conversing(m) && ListOk(m) && !(m.single && m.subs != [])
    ensures Conversing(OnSubscribe(m, id, waits))
  {
    match m.phase
    case ReleasedState => FirstSubscribeTalks(m, id, waits);
    case AcquiredState => GrantedSubscribeTalks(m, id, waits);
    case _ => AddTalks(m, id, waits);
  }

  lemma AllReleased(m: Agps)
    requires AllFitting(m.log) && !Trace(Closed, m.log).Closed? && !Has(m.subs, Active)
    ensures var log := SendRequest(m, Release).log; AllFitting(log) && Trace(Closed, log) == Closed
  {
    LogOne(m.log, Sent(Release));
  }

  lemma UnsubscribeTalks(m: Agps, i: nat)
    requires Conversing(m) && i < |m.subs|
    ensures Conversing(OnUnsubscribe(m, i))
  {
    var m' := Leave(m, i);
    LeaveTalks(m, i);
    assert m'.phase == m.phase;
    if m.phase.ReleasedState? {
      LogOne(m.log, Told(m.subs[i].id, Unsubscribed));
    } else if m.phase.ReleasingState? {
    } else if !Has(m'.subs, Active) {
      AllReleased(m');
    }
  }

  lemma PendingTalks(m: Agps, status: Status)
    requires Conversing(m) && ListOk(m) && m.phase.PendingState? && !status.Unsubscribed?
    ensures Conversing(OnRsrc(m.(log := m.log + [Heard(status)]), status))
  {
    LogOne(m.log, Heard(status));
    var h := m.(log := m.log + [Heard(status)]);
    if status.Granted? {
      NotifyTalks(h, Active, Granted, false);
    } else if status.Denied? {
      NotifyTalks(h, All, Denied, true);
    }
  }

  lemma ReleasingTalks(m: Agps, status: Status)
    requires Conversing(m) && ListOk(m) && m.phase.ReleasingState? && !status.Unsubscribed?
    ensures Conversing(OnRsrc(m.(log := m.log + [Heard(status)]), status))
  {
    LogOne(m.log, Heard(status));
    if !status.Granted? {
      var h := m.(log := m.log + [Heard(status)]);
      NotifyTalks(h, Inactive, status, true);
      LogOne(NotifyAll(h, Inactive, status, true).log, Sent(Request));
    }
  }

  lemma RsrcTalks(m: Agps, status: Status)
    requires Conversing(m) && ListOk(m) && !status.Unsubscribed?
    ensures Conversing(OnRsrc(m.(log := m.log + [Heard(status)]), status))
  {
    match m.phase
    case PendingState => PendingTalks(m, status);
    case ReleasingState => ReleasingTalks(m, status);
    case _ =>
      LogOne(m.log, Heard(status));
      NotifyTalks(m.(log := m.log + [Heard(status)]), All, Released, true);
  }

  lemma StepTalks(m: Agps, e: Event)
    requires Conversing(m) && ListOk(m)
    ensures Conversing(Step(m, e))
  {
    match e
    case Subscribe(id, waits) =>
      if m.single && m.subs != [] { LogOne(m.log, Told(id, Denied)); } else { SubscribeTalks(m, id, waits); }
    case Unsubscribe(id) =>
      var i := First(m.subs, One(id));
      if i < |m.subs| { UnsubscribeTalks(m, i); }
    case Rsrc(status) =>
      if !status.Unsubscribed? { RsrcTalks(m, status); }
    case DropAll =>
      DropsAreSilent(m.subs);
      LogSilent(m.log, Drops(m.subs));
  }

  lemma {:induction false} AlwaysConversing(single: bool, es: seq<Event>)
    ensures Conversing(Run(single, es))
  {
    if es != [] {
      AlwaysConversing(single, es[..|es| - 1]);
      ListAlwaysOk(single, es[..|es| - 1]);
      StepTalks(Run(single, es[..|es| - 1]), es[|es| - 1]);
    }
  }

  /** Over every run, dropAllSubscribers included: the servicer has been asked and has not answered
      exactly in Pending, and has granted exactly in Acquired; no request goes out while another is
      outstanding, no release without one; and the guard never swallows a send. */
  lemma RequestsAlternate(single: bool, es: seq<Event>)
    ensures var m := Run(single, es);
      && Trace(Closed, m.log) == ConnOf(m.phase)
      && (forall i | 0 <= i < |m.log| :: Fitting(Trace(Closed, m.log[..i]), m.log[i]))
  {
    AlwaysConversing(single, es);
    var m := Run(single, es);
    forall i | 0 <= i < |m.log| ensures Fitting(Trace(Closed, m.log[..i]), m.log[i]) {
      EachFits(m.log, i);
    }
  }

  // ---------- Notices ----------

  datatype What = Joining | Ending | Dropping | Granting

  predicate Is(e: Entry, what: What, a: nat) {
    match what
    case Joining => e.Joined? && e.addr == a
    case Ending => e.Note? && e.addr == a && !e.status.Granted?
    case Dropping => e.Dropped? && e.addr == a
    case Granting => e.Note? && e.addr == a && e.status.Granted?
  }

  function Tally(log: seq<Entry>, what: What, a: nat): nat {
    if log == [] then 0
    else Tally(log[..|log| - 1], what, a) + if Is(log[|log| - 1], what, a) then 1 else 0
  }

  /** How many listed subscribers at this address a target concerns. */
  function Listed(subs: seq<Subscriber>, target: Target, a: nat): nat {
    if subs == [] then 0
    else (if subs[0].addr == a && ForMe(subs[0], target) then 1 else 0) + Listed(subs[1..], target, a)
  }

  lemma {:induction false} TallyConcat(x: seq<Entry>, y: seq<Entry>, what: What, a: nat)
    ensures Tally(x + y, what, a) == Tally(x, what, a) + Tally(y, what, a)
  {
    if y == [] {
      assert x + y == x;
    } else {
      assert (x + y)[..|x + y| - 1] == x + y[..|y| - 1];
      TallyConcat(x, y[..|y| - 1], what, a);
    }
  }

  lemma TallyOne(log: seq<Entry>, e: Entry, what: What, a: nat)
    ensures Tally(log + [e], what, a) == Tally(log, what, a) + if Is(e, what, a) then 1 else 0
  {
    assert (log + [e])[..|log|] == log;
  }

  lemma {:induction false} TallyNotes(subs: seq<Subscriber>, target: Target, status: Status, what: What, a: nat)
    ensures Tally(Notes(subs, target, status), what, a)
         == if (what.Ending? && !status.Granted?) || (what.Granting? && status.Granted?)
            then Listed(subs, target, a) else 0
  {
    if subs != [] {
      TallyNotes(subs[1..], target, status, what, a);
      var head := Note(subs[0].addr, status);
      TallyConcat([head], Notes(subs[1..], target, status), what, a);
      TallyOne([], head, what, a);
      assert [] + [head] == [head];
    }
  }

  lemma {:induction false} TallyDrops(subs: seq<Subscriber>, what: What, a: nat)
    ensures Tally(Drops(subs), what, a) == if what.Dropping? then Listed(subs, All, a) else 0
  {
    if subs != [] {
      TallyDrops(subs[1..], what, a);
      var head := Dropped(subs[0].addr);
      TallyConcat([head], Drops(subs[1..]), what, a);
      TallyOne([], head, what, a);
      assert [] + [head] == [head];
    }
  }

  lemma {:induction false} ListedOthers(subs: seq<Subscriber>, target: Target, a: nat)
    ensures Listed(Others(subs, target), All, a) + Listed(subs, target, a) == Listed(subs, All, a)
  {
    if subs != [] { ListedOthers(subs[1..], target, a); }
  }

  lemma {:induction false} ListedAfterUpdate(subs: seq<Subscriber>, i: nat, a: nat)
    requires i < |subs|
    ensures Listed(subs[i := subs[i].(inactive := true)], All, a) == Listed(subs, All, a)
  {
    var subs' := subs[i := subs[i].(inactive := true)];
    if i == 0 {
      assert subs'[1..] == subs[1..];
    } else {
      assert subs'[1..] == subs[1..][i - 1 := subs[1..][i - 1].(inactive := true)];
      ListedAfterUpdate(subs[1..], i - 1, a);
    }
  }

  /** One copy's account: it joins once, and then it is listed, or it has had exactly one terminal
      notice, or it was dropped. */
  predicate Balanced(m: Agps, a: nat) {
    && Tally(m.log, Joining, a) == (if a < m.next then 1 else 0)
    && Tally(m.log, Ending, a) + Tally(m.log, Dropping, a) + Listed(m.subs, All, a) == Tally(m.log, Joining, a)
  }

  lemma Entries(m: Agps, e: Entry, a: nat)
    requires Balanced(m, a) && !e.Joined? && !e.Note? && !e.Dropped?
    ensures Balanced(m.(log := m.log + [e]), a)
  {
    TallyOne(m.log, e, Joining, a);
    TallyOne(m.log, e, Ending, a);
    TallyOne(m.log, e, Dropping, a);
  }

  lemma AddBalances(m: Agps, id: nat, waits: bool, a: nat)
    requires Balanced(m, a)
    ensures Balanced(AddSubscriber(m, id, waits), a)
  {
    var e := Joined(m.next, id);
    TallyOne(m.log, e, Joining, a);
    TallyOne(m.log, e, Ending, a);
    TallyOne(m.log, e, Dropping, a);
  }

  lemma NotifyBalances(m: Agps, target: Target, status: Status, delete: bool, a: nat)
    requires Balanced(m, a) && (delete <==> !status.Granted?)
    ensures Balanced(NotifyAll(m, target, status, delete), a)
  {
    var notes := Notes(m.subs, target, status);
    TallyConcat(m.log, notes, Joining, a);
    TallyConcat(m.log, notes, Ending, a);
    TallyConcat(m.log, notes, Dropping, a);
    TallyNotes(m.subs, target, status, Joining, a);
    TallyNotes(m.subs, target, status, Ending, a);
    TallyNotes(m.subs, target, status, Dropping, a);
    ListedOthers(m.subs, target, a);
  }

  lemma LeaveBalances(m: Agps, i: nat, a: nat)
    requires Balanced(m, a) && i < |m.subs|
    ensures Balanced(Leave(m, i), a)
  {
    if m.subs[i].waits {
      ListedAfterUpdate(m.subs, i, a);
    } else {
      NotifyBalances(m, One(m.subs[i].id), Unsubscribed, true, a);
    }
  }

  lemma SendBalances(m: Agps, action: Action, a: nat)
    requires Balanced(m, a)
    ensures Balanced(SendRequest(m, action), a)
  {
    Entries(m, Sent(action), a);
    Entries(m, Swallowed(action), a);
  }

  lemma {:induction false} SubscribeBalances(m: Agps, id: nat, waits: bool, a: nat)
    requires Balanced(m, a)
    ensures Balanced(OnSubscribe(m, id, waits), a)
  {
    AddBalances(m, id, waits, a);
    SendBalances(AddSubscriber(m, id, waits), Request, a);
    Entries(m, Told(id, Granted), a);
    AddBalances(m.(log := m.log + [Told(id, Granted)]), id, waits, a);
  }

  lemma UnsubscribeBalances(m: Agps, i: nat, a: nat)
    requires Balanced(m, a) && i < |m.subs|
    ensures Balanced(OnUnsubscribe(m, i), a)
  {
    var m' := Leave(m, i);
    LeaveBalances(m, i, a);
    if m.phase.ReleasedState? {
      Entries(m, Told(m.subs[i].id, Unsubscribed), a);
    } else if !m.phase.ReleasingState? {
      SendBalances(m', Release, a);
      var sent := SendRequest(m', Release);
      assert Balanced(sent.(phase := ReleasedState), a) && Balanced(sent.(phase := ReleasingState), a);
    } else {
      assert Balanced(m'.(phase := ReleasedState), a);
    }
  }

  lemma RsrcBalances(m: Agps, status: Status, a: nat)
    requires Balanced(m, a) && !status.Unsubscribed?
    ensures Balanced(OnRsrc(m, status), a)
  {
    match m.phase
    case ReleasedState =>
    case PendingState => NotifyBalances(m, Active, Granted, false, a); NotifyBalances(m, All, Denied, true, a);
    case AcquiredState => NotifyBalances(m, All, Released, true, a);
    case ReleasingState =>
      if !status.Granted? {
        NotifyBalances(m, Inactive, status, true, a);
        SendBalances(NotifyAll(m, Inactive, status, true), Request, a);
      }
  }

  lemma StepBalances(m: Agps, e: Event, a: nat)
    requires Balanced(m, a)
    ensures Balanced(Step(m, e), a)
  {
    match e
    case Subscribe(id, waits) =>
      if m.single && m.subs != [] { Entries(m, Told(id, Denied), a); } else { SubscribeBalances(m, id, waits, a); }
    case Unsubscribe(id) =>
      var i := First(m.subs, One(id));
      if i < |m.subs| { UnsubscribeBalances(m, i, a); }
    case Rsrc(status) =>
      if !status.Unsubscribed? {
        Entries(m, Heard(status), a);
        RsrcBalances(m.(log := m.log + [Heard(status)]), status, a);
      }
    case DropAll =>
      var drops := Drops(m.subs);
      TallyConcat(m.log, drops, Joining, a);
      TallyConcat(m.log, drops, Ending, a);
      TallyConcat(m.log, drops, Dropping, a);
      TallyDrops(m.subs, Joining, a);
      TallyDrops(m.subs, Ending, a);
      TallyDrops(m.subs, Dropping, a);
  }

  /** Every copy that ever joined the list is still listed, or has had exactly one terminal notice
      (unsubscribed, released or denied), or was dropped by dropAllSubscribers without one. */
  lemma {:induction false} OneTerminalNotice(single: bool, es: seq<Event>, a: nat)
    ensures var m := Run(single, es);
      && Tally(m.log, Joining, a) == (if a < m.next then 1 else 0)
      && Tally(m.log, Ending, a) + Tally(m.log, Dropping, a) + Listed(m.subs, All, a) == Tally(m.log, Joining, a)
  {
    if es != [] {
      OneTerminalNotice(single, es[..|es| - 1], a);
      StepBalances(Run(single, es[..|es| - 1]), es[|es| - 1], a);
    }
  }
}
