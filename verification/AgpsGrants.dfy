/** Who has been granted the resource, in each state. */
module AgpsGrants {
  import opened AgpsModel
  import opened AgpsTheorems

  /** A listed copy is granted by a notice to it, or by a notice to the caller's object just before
      that object is copied into the list. */
  ghost predicate GrantAt(log: seq<Entry>, i: nat, a: nat)
    requires i < |log|
  {
    || log[i] == Note(a, Granted)
    || (i > 0 && log[i].Joined? && log[i].addr == a && log[i - 1] == Told(log[i].id, Granted))
  }

  ghost predicate WasGranted(log: seq<Entry>, a: nat) {
    exists i: nat | i < |log| :: GrantAt(log, i, a)
  }

  lemma GrantedAfterOne(log: seq<Entry>, e: Entry, a: nat)
    ensures WasGranted(log + [e], a) <==> WasGranted(log, a) || GrantAt(log + [e], |log|, a)
  {
    var log' := log + [e];
    if WasGranted(log, a) {
      var i: nat :| i < |log| && GrantAt(log, i, a);
      assert GrantAt(log', i, a);
    }
    if WasGranted(log', a) {
      var i: nat :| i < |log'| && GrantAt(log', i, a);
      if i < |log| { assert GrantAt(log, i, a); }
    }
  }

  predicate Neutral(e: Entry) {
    !e.Joined? && !(e.Note? && e.status.Granted?)
  }

  lemma {:induction false} GrantedAfterNeutral(log: seq<Entry>, more: seq<Entry>, a: nat)
    requires forall e | e in more :: Neutral(e)
    ensures WasGranted(log + more, a) <==> WasGranted(log, a)
  {
    if more == [] {
      assert log + more == log;
    } else {
      var n := |more| - 1;
      GrantedAfterNeutral(log, more[..n], a);
      assert more[n] in more && log + more == log + more[..n] + [more[n]];
      GrantedAfterOne(log + more[..n], more[n], a);
    }
  }

  lemma {:induction false} NotesNeutral(subs: seq<Subscriber>, target: Target, status: Status)
    requires !status.Granted?
    ensures forall e | e in Notes(subs, target, status) :: Neutral(e)
  {
    if subs != [] { NotesNeutral(subs[1..], target, status); }
  }

  lemma {:induction false} DropsNeutral(subs: seq<Subscriber>)
    ensures forall e | e in Drops(subs) :: Neutral(e)
  {
    if subs != [] { DropsNeutral(subs[1..]); }
  }

  lemma {:induction false} NotesAddress(subs: seq<Subscriber>, target: Target, status: Status, e: Entry)
    ensures e in Notes(subs, target, status) <==>
              e.Note? && e.status == status && exists s :: s in subs && ForMe(s, target) && s.addr == e.addr
  {
    if subs != [] {
      NotesAddress(subs[1..], target, status, e);
      assert forall s :: s in subs <==> s == subs[0] || s in subs[1..];
    }
  }

  /** Granting everyone active grants exactly them, besides those already granted. */
  lemma GrantedAfterNotes(log: seq<Entry>, subs: seq<Subscriber>, a: nat)
    ensures WasGranted(log + Notes(subs, Active, Granted), a) <==>
              WasGranted(log, a) || exists s :: s in subs && !s.inactive && s.addr == a
  {
    var notes := Notes(subs, Active, Granted);
    var log' := log + notes;
    NotesAddress(subs, Active, Granted, Note(a, Granted));
    assert (exists s :: s in subs && !s.inactive && s.addr == a) <==>
           (exists s :: s in subs && ForMe(s, Active) && s.addr == a);
    if WasGranted(log, a) {
      var i: nat :| i < |log| && GrantAt(log, i, a);
      assert GrantAt(log', i, a);
    }
    if Note(a, Granted) in notes {
      var i: nat :| i < |notes| && notes[i] == Note(a, Granted);
      assert GrantAt(log', |log| + i, a);
    }
    if WasGranted(log', a) {
      var i: nat :| i < |log'| && GrantAt(log', i, a);
      if i < |log| {
        assert GrantAt(log, i, a);
      } else {
        assert log'[i] == notes[i - |log|] && notes[i - |log|] in notes;
        NotesAddress(subs, Active, Granted, log'[i]);
      }
    }
  }

  ghost predicate GrantOk(m: Agps, s: Subscriber) {
    && s.addr < m.next
    && (m.phase.PendingState? ==> !WasGranted(m.log, s.addr))
    && (m.phase.AcquiredState? && !s.inactive ==> WasGranted(m.log, s.addr))
    && (m.phase.ReleasingState? && !s.inactive ==> !WasGranted(m.log, s.addr))
  }

  ghost predicate GrantsOk(m: Agps) {
    && (forall s | s in m.subs :: GrantOk(m, s))
    && (forall a: nat :: WasGranted(m.log, a) ==> a < m.next)
  }

  lemma NeutralKeepsGrants(m: Agps, more: seq<Entry>)
    requires GrantsOk(m) && forall e | e in more :: Neutral(e)
    ensures GrantsOk(m.(log := m.log + more))
  {
    var m' := m.(log := m.log + more);
    forall a: nat ensures WasGranted(m'.log, a) <==> WasGranted(m.log, a) {
      GrantedAfterNeutral(m.log, more, a);
    }
    forall s | s in m'.subs ensures GrantOk(m', s) { assert GrantOk(m, s); }
  }

  /** Taking subscribers away, or marking them inactive, keeps everything said about the rest. */
  lemma FewerKeepGrants(m: Agps, m': Agps)
    requires GrantsOk(m) && m'.log == m.log && m'.next == m.next && m'.phase == m.phase
    requires forall s | s in m'.subs :: s in m.subs ||
               (s.inactive && exists t :: t in m.subs && t.addr == s.addr)
    ensures GrantsOk(m')
  {
    forall s | s in m'.subs ensures GrantOk(m', s) {
      if s in m.subs { assert GrantOk(m, s); } else {
        var t :| t in m.subs && t.addr == s.addr;
        assert GrantOk(m, t);
      }
    }
  }

  lemma NotifyKeepsGrants(m: Agps, target: Target, status: Status)
    requires GrantsOk(m) && !status.Granted?
    ensures GrantsOk(NotifyAll(m, target, status, true))
  {
    NotesNeutral(m.subs, target, status);
    NeutralKeepsGrants(m, Notes(m.subs, target, status));
    forall s | s in Others(m.subs, target) ensures s in m.subs { OthersMembers(m.subs, target, s); }
    FewerKeepGrants(m.(log := m.log + Notes(m.subs, target, status)), NotifyAll(m, target, status, true));
  }

  lemma LeaveKeepsGrants(m: Agps, i: nat)
    requires GrantsOk(m) && i < |m.subs|
    ensures GrantsOk(Leave(m, i)) && Leave(m, i).phase == m.phase
  {
    if m.subs[i].waits {
      var m' := Leave(m, i);
      forall s | s in m'.subs
        ensures s in m.subs || (s.inactive && exists t :: t in m.subs && t.addr == s.addr)
      {
        if s !in m.subs {
          assert m.subs[i] in m.subs && s == m'.subs[i];
        }
      }
      FewerKeepGrants(m, m');
    } else {
      NotifyKeepsGrants(m, One(m.subs[i].id), Unsubscribed);
    }
  }

  /** A newcomer is granted exactly when its object was told so just before. */
  lemma AddKeepsGrants(m: Agps, id: nat, waits: bool, told: bool)
    requires GrantsOk(m) && (m.phase.AcquiredState? <==> told)
    requires told <==> m.log != [] && m.log[|m.log| - 1] == Told(id, Granted)
    ensures GrantsOk(AddSubscriber(m, id, waits)) && AddSubscriber(m, id, waits).phase == m.phase
  {
    var m' := AddSubscriber(m, id, waits);
    if m' != m {
      forall a: nat ensures WasGranted(m'.log, a) <==> WasGranted(m.log, a) || (told && a == m.next) {
        GrantedAfterOne(m.log, Joined(m.next, id), a);
      }
      forall s | s in m'.subs ensures GrantOk(m', s) {
        if s in m.subs { assert GrantOk(m, s); }
      }
    }
  }

  predicate JustTold(log: seq<Entry>) {
    log != [] && var e := log[|log| - 1]; e.Told? && e.status.Granted?
  }

  /** Only Acquired grants on subscription, so no other state leaves such a grant dangling. */
  ghost predicate Accounts(m: Agps) {
    GrantsOk(m) && (!m.phase.AcquiredState? ==> !JustTold(m.log))
  }

  lemma OneKeepsAccounts(m: Agps, e: Entry)
    requires Accounts(m) && Neutral(e) && (JustTold([e]) ==> m.phase.AcquiredState?)
    ensures Accounts(m.(log := m.log + [e]))
  {
    NeutralKeepsGrants(m, [e]);
  }

  lemma {:induction false} NotesNotTold(subs: seq<Subscriber>, target: Target, status: Status)
    ensures forall e | e in Notes(subs, target, status) :: !e.Told?
  {
    if subs != [] { NotesNotTold(subs[1..], target, status); }
  }

  lemma {:induction false} DropsNotTold(subs: seq<Subscriber>)
    ensures forall e | e in Drops(subs) :: !e.Told?
  {
    if subs != [] { DropsNotTold(subs[1..]); }
  }

  lemma AppendNotTold(log: seq<Entry>, more: seq<Entry>)
    requires forall e | e in more :: !e.Told?
    ensures JustTold(log + more) ==> more == [] && JustTold(log)
  {
    if more != [] {
      assert (log + more)[|log + more| - 1] == more[|more| - 1] && more[|more| - 1] in more;
    } else {
      assert log + more == log;
    }
  }

  lemma SubscribeKeepsAccounts(m: Agps, id: nat, waits: bool)
    requires Accounts(m) && ListOk(m)
    ensures Accounts(OnSubscribe(m, id, waits))
  {
    if m.phase.AcquiredState? {
      var m1 := m.(log := m.log + [Told(id, Granted)]);
      OneKeepsAccounts(m, Told(id, Granted));
      AddKeepsGrants(m1, id, waits, true);
    } else {
      var m1 := AddSubscriber(m, id, waits);
      AddKeepsGrants(m, id, waits, false);
      if m.phase.ReleasedState? {
        var m2 := SendRequest(m1, Request);
        OneKeepsAccounts(m1, m2.log[|m1.log|]);
        assert m1.subs == [Subscriber(id, waits, false, m.next)];
        GrantedAfterOne(m.log, Joined(m.next, id), m.next);
        GrantedAfterOne(m1.log, m2.log[|m1.log|], m.next);
        forall s | s in m2.subs ensures !WasGranted(m2.log, s.addr) {
        }
      }
    }
  }

  lemma UnsubscribeKeepsAccounts(m: Agps, i: nat)
    requires Accounts(m) && ListOk(m) && i < |m.subs|
    ensures Accounts(OnUnsubscribe(m, i))
  {
    var m' := Leave(m, i);
    LeaveKeepsGrants(m, i);
    NotesNotTold(m.subs, One(m.subs[i].id), Unsubscribed);
    AppendNotTold(m.log, Notes(m.subs, One(m.subs[i].id), Unsubscribed));
    if !m.phase.ReleasingState? && !Has(m'.subs, Active) {
      var sent := SendRequest(m', Release);
      NeutralKeepsGrants(m', [sent.log[|m'.log|]]);
      HasMeans(m'.subs, Active);
      Regrouped(sent);
    }
  }

  /** With nobody active, only the fact that addresses are known depends on the state. */
  lemma Regrouped(m: Agps)
    requires GrantsOk(m) && !JustTold(m.log) && forall s | s in m.subs :: s.inactive
    ensures Accounts(m.(phase := ReleasedState)) && Accounts(m.(phase := ReleasingState))
  {
    forall s | s in m.subs
      ensures GrantOk(m.(phase := ReleasedState), s) && GrantOk(m.(phase := ReleasingState), s)
    {
      assert GrantOk(m, s);
    }
  }

  /** The active ones left by Releasing are exactly as Pending wants them: not granted. */
  lemma Reopened(m: Agps)
    requires GrantsOk(m) && m.phase.ReleasingState? && !JustTold(m.log)
    requires forall s | s in m.subs :: !s.inactive
    ensures Accounts(m.(phase := PendingState))
  {
    forall s | s in m.subs ensures GrantOk(m.(phase := PendingState), s) { assert GrantOk(m, s); }
  }

  lemma NotifyKeepsAccounts(m: Agps, target: Target, status: Status)
    requires Accounts(m) && !status.Granted?
    ensures var m' := NotifyAll(m, target, status, true);
      GrantsOk(m') && (JustTold(m'.log) ==> JustTold(m.log))
  {
    NotifyKeepsGrants(m, target, status);
    NotesNotTold(m.subs, target, status);
    AppendNotTold(m.log, Notes(m.subs, target, status));
  }

  lemma GrantingKeepsAccounts(m: Agps)
    requires Accounts(m) && m.phase.PendingState?
    ensures Accounts(NotifyAll(m, Active, Granted, false).(phase := AcquiredState))
  {
    var m' := NotifyAll(m, Active, Granted, false).(phase := AcquiredState);
    forall a: nat | WasGranted(m'.log, a) ensures a < m'.next {
      GrantedAfterNotes(m.log, m.subs, a);
      forall s | s in m.subs ensures s.addr < m.next { assert GrantOk(m, s); }
    }
    forall s | s in m'.subs ensures GrantOk(m', s) {
      assert GrantOk(m, s);
      GrantedAfterNotes(m.log, m.subs, s.addr);
    }
  }

  lemma ReleasingKeepsAccounts(m: Agps, status: Status)
    requires Accounts(m) && m.phase.ReleasingState? && !status.Granted?
    ensures Accounts(OnRsrc(m, status))
  {
    var m' := NotifyAll(m, Inactive, status, true);
    NotifyKeepsAccounts(m, Inactive, status);
    forall s | s in m'.subs ensures !s.inactive { OthersMembers(m.subs, Inactive, s); }
    HasMeans(m'.subs, Active);
    if Has(m'.subs, Active) {
      var sent := SendRequest(m', Request);
      NeutralKeepsGrants(m', [sent.log[|m'.log|]]);
      Reopened(sent);
    } else {
      Regrouped(m');
    }
  }

  lemma RsrcKeepsAccounts(m: Agps, status: Status)
    requires Accounts(m) && ListOk(m) && !JustTold(m.log)
    ensures Accounts(OnRsrc(m, status))
  {
    match m.phase
    case ReleasedState =>
    case PendingState =>
      if status.Granted? { GrantingKeepsAccounts(m); }
      else if status.Denied? {
        NotifyKeepsAccounts(m, All, Denied);
        AllLeave(m.subs);
        Regrouped(NotifyAll(m, All, Denied, true));
      }
    case AcquiredState =>
      if status.Released? {
        NotifyKeepsAccounts(m, All, Released);
        AllLeave(m.subs);
        Regrouped(NotifyAll(m, All, Released, true));
      }
    case ReleasingState =>
      if !status.Granted? { ReleasingKeepsAccounts(m, status); }
  }

  lemma DropKeepsAccounts(m: Agps)
    requires Accounts(m)
    ensures Accounts(Step(m, DropAll))
  {
    DropsNeutral(m.subs);
    NeutralKeepsGrants(m, Drops(m.subs));
    DropsNotTold(m.subs);
    AppendNotTold(m.log, Drops(m.subs));
  }

  lemma StepKeepsAccounts(m: Agps, e: Event)
    requires Accounts(m) && ListOk(m)
    ensures Accounts(Step(m, e))
  {
    match e
    case Subscribe(id, waits) =>
      if m.single && m.subs != [] { OneKeepsAccounts(m, Told(id, Denied)); }
      else { SubscribeKeepsAccounts(m, id, waits); }
    case Unsubscribe(id) =>
      var i := First(m.subs, One(id));
      if i < |m.subs| { UnsubscribeKeepsAccounts(m, i); }
    case Rsrc(status) =>
      if !status.Unsubscribed? {
        OneKeepsAccounts(m, Heard(status));
        RsrcKeepsAccounts(m.(log := m.log + [Heard(status)]), status);
      }
    case DropAll => DropKeepsAccounts(m);
  }

  /** Over every run: nobody listed in Pending has been granted, every active subscriber listed in
      Acquired has, and an active one listed in Releasing has not. */
  lemma {:induction false} GrantInvariant(single: bool, es: seq<Event>)
    ensures var m := Run(single, es);
      && (!m.phase.AcquiredState? ==> !JustTold(m.log))
      && (forall a: nat :: WasGranted(m.log, a) ==> a < m.next)
      && forall s | s in m.subs ::
           && s.addr < m.next
           && (m.phase.PendingState? ==> !WasGranted(m.log, s.addr))
           && (m.phase.AcquiredState? && !s.inactive ==> WasGranted(m.log, s.addr))
           && (m.phase.ReleasingState? && !s.inactive ==> !WasGranted(m.log, s.addr))
  {
    if es != [] {
      var m := Run(single, es[..|es| - 1]);
      GrantInvariant(single, es[..|es| - 1]);
      forall s | s in m.subs ensures GrantOk(m, s) {}
      ListAlwaysOk(single, es[..|es| - 1]);
      StepKeepsAccounts(m, es[|es| - 1]);
      forall s | s in Run(single, es).subs ensures GrantOk(Run(single, es), s) {}
    }
  }
}
