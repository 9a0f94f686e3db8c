/** What the AGPS machine keeps over every run of events. */
module AgpsTheorems {
  import opened AgpsModel

  // ---------- Lists ----------

  ghost predicate UniqueIds(subs: seq<Subscriber>) {
    forall i, j | 0 <= i < j < |subs| :: subs[i].id != subs[j].id
  }

  predicate InactiveOnlyIfWaiting(subs: seq<Subscriber>) {
    forall s | s in subs :: s.inactive ==> s.waits
  }

  lemma HasMeans(subs: seq<Subscriber>, target: Target)
    ensures Has(subs, target) <==> exists s :: s in subs && ForMe(s, target)
  {
    if Has(subs, target) {
      assert subs[First(subs, target)] in subs;
    }
  }

  lemma {:induction false} OthersMembers(subs: seq<Subscriber>, target: Target, s: Subscriber)
    ensures s in Others(subs, target) <==> s in subs && !ForMe(s, target)
  {
    if subs != [] {
      OthersMembers(subs[1..], target, s);
      assert s in subs <==> s == subs[0] || s in subs[1..];
    }
  }

  lemma {:induction false} OthersUnique(subs: seq<Subscriber>, target: Target)
    requires UniqueIds(subs)
    ensures UniqueIds(Others(subs, target)) && |Others(subs, target)| <= |subs|
  {
    if subs != [] {
      OthersUnique(subs[1..], target);
      forall s | s in Others(subs[1..], target) ensures s.id != subs[0].id {
        OthersMembers(subs[1..], target, s);
      }
    }
  }

  // ---------- Shape of the list in each state ----------

  /** Holds over every run, `dropAllSubscribers` included. */
  ghost predicate ListOk(m: Agps) {
    && UniqueIds(m.subs)
    && InactiveOnlyIfWaiting(m.subs)
    && (m.phase.ReleasedState? ==> m.subs == [])
    && (m.single ==> |m.subs| <= 1)
  }

  /** Holds as long as nobody drops all subscribers. */
  predicate Manned(m: Agps) {
    && (m.phase.PendingState? || m.phase.AcquiredState? ==> Has(m.subs, Active))
    && (m.phase.ReleasingState? ==> Has(m.subs, Inactive))
  }

  lemma AddKeepsPresence(m: Agps, id: nat, waits: bool, target: Target)
    requires Has(m.subs, target)
    ensures Has(AddSubscriber(m, id, waits).subs, target)
  {
    var m' := AddSubscriber(m, id, waits);
    HasMeans(m'.subs, target);
    if m' != m {
      assert m'.subs[First(m.subs, target) + 1] == m.subs[First(m.subs, target)];
    }
  }

  lemma AddKeepsList(m: Agps, id: nat, waits: bool)
    requires UniqueIds(m.subs) && InactiveOnlyIfWaiting(m.subs) && (m.single ==> m.subs == [])
    ensures var m' := AddSubscriber(m, id, waits);
      && UniqueIds(m'.subs) && InactiveOnlyIfWaiting(m'.subs) && (m'.single ==> |m'.subs| <= 1)
      && (Has(m.subs, Active) ==> Has(m'.subs, Active))
      && (Has(m.subs, Inactive) ==> Has(m'.subs, Inactive))
      && (m.subs == [] ==> Has(m'.subs, Active))
  {
    if Has(m.subs, Active) { AddKeepsPresence(m, id, waits, Active); }
    if Has(m.subs, Inactive) { AddKeepsPresence(m, id, waits, Inactive); }
  }

  lemma NotifyKeepsList(m: Agps, target: Target, status: Status, delete: bool)
    requires UniqueIds(m.subs) && InactiveOnlyIfWaiting(m.subs)
    ensures var m' := NotifyAll(m, target, status, delete);
      && UniqueIds(m'.subs) && InactiveOnlyIfWaiting(m'.subs) && |m'.subs| <= |m.subs|
  {
    OthersUnique(m.subs, target);
    forall s | s in Others(m.subs, target) ensures s in m.subs { OthersMembers(m.subs, target, s); }
  }

  lemma LeaveKeepsList(m: Agps, i: nat)
    requires i < |m.subs| && UniqueIds(m.subs) && InactiveOnlyIfWaiting(m.subs)
    ensures var m' := Leave(m, i);
      UniqueIds(m'.subs) && InactiveOnlyIfWaiting(m'.subs) && |m'.subs| <= |m.subs|
  {
    if m.subs[i].waits {
      var subs' := m.subs[i := m.subs[i].(inactive := true)];
      forall s | s in subs' ensures s.inactive ==> s.waits {
        var j :| 0 <= j < |subs'| && subs'[j] == s;
        assert m.subs[j] in m.subs;
      }
    } else {
      NotifyKeepsList(m, One(m.subs[i].id), Unsubscribed, true);
    }
  }

  /** An inactive subscriber survives every unsubscription: it waits, and one that waits stays. */
  lemma LeaveKeepsInactive(m: Agps, i: nat)
    requires i < |m.subs| && UniqueIds(m.subs) && InactiveOnlyIfWaiting(m.subs) && Has(m.subs, Inactive)
    ensures Has(Leave(m, i).subs, Inactive)
  {
    var m' := Leave(m, i);
    var j := First(m.subs, Inactive);
    HasMeans(m'.subs, Inactive);
    assert m.subs[j] in m.subs;
    if m.subs[i].waits {
      assert m'.subs[i] in m'.subs;
    } else {
      assert i != j;
      OthersMembers(m.subs, One(m.subs[i].id), m.subs[j]);
    }
  }

  lemma StepKeepsList(m: Agps, e: Event)
    requires ListOk(m)
    ensures ListOk(Step(m, e))
  {
    match e
    case Subscribe(id, waits) =>
      if !(m.single && m.subs != []) {
        AddKeepsList(m, id, waits);
        AddKeepsList(m.(log := m.log + [Told(id, Granted)]), id, waits);
      }
    case Unsubscribe(id) =>
      var i := First(m.subs, One(id));
      if i < |m.subs| { LeaveKeepsList(m, i); }
    case Rsrc(status) =>
      RsrcKeepsList(m.(log := m.log + [Heard(status)]), status);
    case DropAll =>
  }

  lemma AllLeave(subs: seq<Subscriber>)
    ensures Others(subs, All) == []
  {
    var all := Others(subs, All);
    if all != [] { OthersMembers(subs, All, all[0]); }
  }

  /** Once the inactive ones are gone, whoever is left is active. */
  lemma OnlyActiveLeft(subs: seq<Subscriber>)
    ensures Others(subs, Inactive) == [] <==> !Has(Others(subs, Inactive), Active)
    ensures Has(Others(subs, Inactive), Active) <==> Has(subs, Active)
  {
    var rest := Others(subs, Inactive);
    HasMeans(rest, Active);
    HasMeans(subs, Active);
    if rest != [] { OthersMembers(subs, Inactive, rest[0]); }
    forall s ensures s in rest <==> s in subs && !s.inactive { OthersMembers(subs, Inactive, s); }
  }

  lemma RsrcKeepsList(m: Agps, status: Status)
    requires ListOk(m)
    ensures ListOk(OnRsrc(m, status))
  {
    AllLeave(m.subs);
    OnlyActiveLeft(m.subs);
    NotifyKeepsList(m, Inactive, status, true);
  }

  lemma StepKeepsManned(m: Agps, e: Event)
    requires ListOk(m) && Manned(m) && !e.DropAll?
    ensures Manned(Step(m, e))
  {
    match e
    case Subscribe(id, waits) =>
      if !(m.single && m.subs != []) {
        AddKeepsList(m, id, waits);
        AddKeepsList(m.(log := m.log + [Told(id, Granted)]), id, waits);
      }
    case Unsubscribe(id) =>
      var i := First(m.subs, One(id));
      if i < |m.subs| { UnsubscribeKeepsManned(m, i); }
    case Rsrc(status) =>
      AllLeave(m.subs);
      OnlyActiveLeft(m.subs);
  }

  lemma UnsubscribeKeepsManned(m: Agps, i: nat)
    requires ListOk(m) && Manned(m) && i < |m.subs|
    ensures Manned(OnUnsubscribe(m, i))
    ensures m.phase.ReleasingState? ==> OnUnsubscribe(m, i).phase.ReleasingState?
  {
    var m' := Leave(m, i);
    if m.phase.ReleasingState? {
      LeaveKeepsInactive(m, i);
    } else if m'.subs != [] && !Has(m'.subs, Active) {
      assert m'.subs[0] in m'.subs;
      HasMeans(m'.subs, Active);
      HasMeans(m'.subs, Inactive);
    }
  }

  // ---------- Over runs ----------

  lemma {:induction false} ListAlwaysOk(single: bool, es: seq<Event>)
    ensures ListOk(Run(single, es)) && Run(single, es).single == single
  {
    if es != [] {
      ListAlwaysOk(single, es[..|es| - 1]);
      StepKeepsList(Run(single, es[..|es| - 1]), es[|es| - 1]);
      StepKeepsSingle(Run(single, es[..|es| - 1]), es[|es| - 1]);
    }
  }

  lemma StepKeepsSingle(m: Agps, e: Event)
    ensures Step(m, e).single == m.single
  {
  }

  /** Over every run: Released means nobody listed, IDs are unique, and a machine that enforces a
      single subscriber never lists two. */
  lemma ListInvariant(single: bool, es: seq<Event>)
    ensures var m := Run(single, es);
      && (m.phase.ReleasedState? ==> m.subs == [])
      && UniqueIds(m.subs)
      && (single ==> |m.subs| <= 1)
  {
    ListAlwaysOk(single, es);
  }

  /** Everybody is dropped only while the machine is in Released. */
  predicate DropsOnlyInReleased(single: bool, es: seq<Event>) {
    es != [] ==>
      var before := es[..|es| - 1];
      && DropsOnlyInReleased(single, before)
      && (es[|es| - 1] == DropAll ==> Run(single, before).phase.ReleasedState?)
  }

  /** The machine is manned at the start of the run and after each of its events. */
  predicate AlwaysManned(single: bool, es: seq<Event>) {
    Manned(Run(single, es)) && (es != [] ==> AlwaysManned(single, es[..|es| - 1]))
  }

  /** Pending and Acquired list an active subscriber, and Releasing an inactive one, all along a run if
      and only if nobody calls dropAllSubscribers outside Released. */
  lemma {:induction false} StateInvariant(single: bool, es: seq<Event>)
    ensures AlwaysManned(single, es) <==> DropsOnlyInReleased(single, es)
  {
    if es != [] {
      var n := |es| - 1;
      StateInvariant(single, es[..n]);
      ListAlwaysOk(single, es[..n]);
      if es[n] == DropAll {
        DropKeepsMannedIff(Run(single, es[..n]));
      } else if Manned(Run(single, es[..n])) {
        StepKeepsManned(Run(single, es[..n]), es[n]);
      }
    }
  }

  /** So unsubscribing never takes the machine from Releasing to Released. */
  lemma {:induction false} ReleasingOutlivesUnsubscribe(single: bool, es: seq<Event>, id: nat)
    requires DropsOnlyInReleased(single, es) && Run(single, es).phase.ReleasingState?
    ensures Step(Run(single, es), Unsubscribe(id)).phase.ReleasingState?
  {
    StateInvariant(single, es);
    ListAlwaysOk(single, es);
    var m := Run(single, es);
    var i := First(m.subs, One(id));
    if i < |m.subs| { UnsubscribeKeepsManned(m, i); }
  }

  /** dropAllSubscribers empties the list and keeps the state, so it keeps the guarantee exactly when
      the machine is in Released. */
  lemma DropKeepsMannedIff(m: Agps)
    ensures Manned(Step(m, DropAll)) <==> m.phase.ReleasedState?
  {
  }

  lemma DroppingUnmans()
    ensures !Manned(Run(false, [Subscribe(7, false), DropAll]))
  {
    var es := [Subscribe(7, false), DropAll];
    assert es[..1] == [Subscribe(7, false)];
    assert [Subscribe(7, false)][..0] == [];
    assert Run(false, [Subscribe(7, false)]).phase == PendingState;
  }

  // ---------- Subscribing again ----------

  predicate Listed(m: Agps, id: nat, inactive: bool) {
    exists s :: s in m.subs && s.id == id && s.inactive == inactive
  }

  /** After a subscription that is not denied, the ID is listed as active if and only if it was not
      listed as inactive before. */
  lemma {:induction false} SubscribedIsActiveIff(single: bool, es: seq<Event>, id: nat, waits: bool)
    requires var m := Run(single, es); !(m.single && m.subs != [])
    ensures var m := Run(single, es);
      Listed(Step(m, Subscribe(id, waits)), id, false) <==> !Listed(m, id, true)
  {
    ListAlwaysOk(single, es);
    AddedIsActiveIff(Run(single, es), id, waits);
  }

  lemma AddedIsActiveIff(m: Agps, id: nat, waits: bool)
    requires UniqueIds(m.subs)
    ensures Listed(AddSubscriber(m, id, waits), id, false) <==> !Listed(m, id, true)
  {
    HasMeans(m.subs, One(id));
    var m' := AddSubscriber(m, id, waits);
    if m' != m { assert m'.subs[0] in m'.subs; }
  }

  /** A machine that enforces a single subscriber never forgets one: whoever it does not deny is listed
      as active. */
  lemma SingleSubscriberIsActive(es: seq<Event>, id: nat, waits: bool)
    requires var m := Run(true, es); !(m.single && m.subs != [])
    ensures Listed(Step(Run(true, es), Subscribe(id, waits)), id, false)
  {
    ListAlwaysOk(true, es);
    SubscribedIsActiveIff(true, es, id, waits);
  }

  predicate NobodyWaits(es: seq<Event>) {
    forall i | 0 <= i < |es| && es[i].Subscribe? :: !es[i].waits
  }

  predicate NoWaiter(subs: seq<Subscriber>) {
    forall s | s in subs :: !s.waits
  }

  lemma NotifyKeepsNoWaiter(m: Agps, target: Target, status: Status, delete: bool)
    requires NoWaiter(m.subs)
    ensures NoWaiter(NotifyAll(m, target, status, delete).subs)
  {
    forall s | s in Others(m.subs, target) ensures !s.waits { OthersMembers(m.subs, target, s); }
  }

  lemma StepKeepsNoWaiter(m: Agps, e: Event)
    requires NoWaiter(m.subs) && (e.Subscribe? ==> !e.waits)
    ensures NoWaiter(Step(m, e).subs)
  {
    match e
    case Unsubscribe(id) =>
      var i := First(m.subs, One(id));
      if i < |m.subs| {
        assert m.subs[i] in m.subs;
        NotifyKeepsNoWaiter(m, One(m.subs[i].id), Unsubscribed, true);
      }
    case Rsrc(status) =>
      var h := m.(log := m.log + [Heard(status)]);
      NotifyKeepsNoWaiter(h, All, status, true);
      NotifyKeepsNoWaiter(h, Inactive, status, true);
    case _ =>
  }

  lemma {:induction false} RunKeepsNoWaiter(single: bool, es: seq<Event>)
    requires NobodyWaits(es)
    ensures NoWaiter(Run(single, es).subs)
  {
    if es != [] {
      RunKeepsNoWaiter(single, es[..|es| - 1]);
      StepKeepsNoWaiter(Run(single, es[..|es| - 1]), es[|es| - 1]);
    }
  }

  /** Nor does any machine whose subscribers do not wait for the close. */
  lemma SubscriberIsActiveIfNobodyWaits(single: bool, es: seq<Event>, id: nat, waits: bool)
    requires NobodyWaits(es)
    requires var m := Run(single, es); !(m.single && m.subs != [])
    ensures Listed(Step(Run(single, es), Subscribe(id, waits)), id, false)
  {
    RunKeepsNoWaiter(single, es);
    ListAlwaysOk(single, es);
    SubscribedIsActiveIff(single, es, id, waits);
  }

  /** ID 1 leaves, waiting for the close, and subscribes again: it is told it is granted, yet it stays
      listed as inactive only, and the resource is released when ID 2 leaves. */
  lemma ResubscribedIsForgotten()
    ensures var m := Run(false, [Subscribe(1, true), Subscribe(2, true), Rsrc(Granted), Unsubscribe(1),
                                 Subscribe(1, true)]);
      && |m.log| > 0 && m.log[|m.log| - 1] == Told(1, Granted)
      && Listed(m, 1, true) && !Listed(m, 1, false)
      && Step(m, Unsubscribe(2)).phase.ReleasingState?
  {
    var m2 := Step(Step(Init(false), Subscribe(1, true)), Subscribe(2, true));
    assert m2.subs == [SECOND, FIRST_LEFT.(inactive := false)];
    var m3 := Step(m2, Rsrc(Granted));
    FiveSteps(false, Subscribe(1, true), Subscribe(2, true), Rsrc(Granted), Unsubscribe(1), Subscribe(1, true));
    FirstLeaves(m3);
    FirstReturns(Step(m3, Unsubscribe(1)));
  }

  const FIRST_LEFT := Subscriber(1, true, true, 0)
  const SECOND := Subscriber(2, true, false, 1)

  lemma FirstLeaves(m: Agps)
    requires m.phase.AcquiredState? && !m.single && m.subs == [SECOND, FIRST_LEFT.(inactive := false)]
    ensures var m' := Step(m, Unsubscribe(1));
      m'.phase.AcquiredState? && !m'.single && m'.subs == [SECOND, FIRST_LEFT]
  {
    assert First(m.subs, One(1)) == 1;
  }

  lemma FirstReturns(m: Agps)
    requires m.phase.AcquiredState? && !m.single && m.subs == [SECOND, FIRST_LEFT]
    ensures var m' := Step(m, Subscribe(1, true));
      && m'.subs == m.subs && m'.phase.AcquiredState?
      && m'.log == m.log + [Told(1, Granted)]
      && Listed(m', 1, true) && !Listed(m', 1, false)
      && Step(m', Unsubscribe(2)).phase.ReleasingState?
  {
    var m' := Step(m, Subscribe(1, true));
    assert First(m.subs, One(1)) == 1;
    assert m'.subs[1] == FIRST_LEFT;
    SecondLeaves(m');
  }

  lemma SecondLeaves(m: Agps)
    requires m.phase.AcquiredState? && m.subs == [SECOND, FIRST_LEFT]
    ensures Step(m, Unsubscribe(2)).phase.ReleasingState?
  {
    var left := Leave(m, 0).subs;
    assert left == [SECOND.(inactive := true), FIRST_LEFT];
    NoActive(left);
  }

  lemma NoActive(subs: seq<Subscriber>)
    requires forall s | s in subs :: s.inactive
    ensures !Has(subs, Active)
  {
    HasMeans(subs, Active);
  }

  lemma {:induction false} FiveSteps(single: bool, e1: Event, e2: Event, e3: Event, e4: Event, e5: Event)
    ensures Run(single, [e1, e2, e3, e4, e5])
         == Step(Step(Step(Step(Step(Init(single), e1), e2), e3), e4), e5)
  {
    var es := [e1, e2, e3];
    ThreeSteps(single, e1, e2, e3);
    RunOneMore(single, es, e4);
    RunOneMore(single, es + [e4], e5);
    assert es + [e4] + [e5] == [e1, e2, e3, e4, e5];
  }

  lemma ThreeSteps(single: bool, e1: Event, e2: Event, e3: Event)
    ensures Run(single, [e1, e2, e3]) == Step(Step(Step(Init(single), e1), e2), e3)
  {
    RunOneMore(single, [], e1);
    RunOneMore(single, [] + [e1], e2);
    RunOneMore(single, [] + [e1] + [e2], e3);
    assert [] + [e1] + [e2] + [e3] == [e1, e2, e3];
  }

  lemma RunOneMore(single: bool, es: seq<Event>, e: Event)
    ensures Run(single, es + [e]) == Step(Run(single, es), e)
  {
    assert (es + [e])[..|es|] == es;
  }
}
