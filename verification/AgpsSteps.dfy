/** What one call does to the AGPS machine, told from the outside: who is told what, who is listed
    afterwards, and the state it ends in. */
module AgpsSteps {
  import opened AgpsModel
  import opened AgpsTheorems

  predicate Refused(m: Agps) {
    m.single && m.subs != []
  }

  predicate Known(m: Agps, id: nat) {
    exists s :: s in m.subs && s.id == id
  }

  predicate AnyActive(subs: seq<Subscriber>) {
    exists s :: s in subs && !s.inactive
  }

  // ---------- Who is told what ----------

  predicate NoticeDue(m: Agps, e: Event, s: Subscriber, status: Status) {
    match status
    case Unsubscribed => e == Unsubscribe(s.id) && !s.waits
    case Granted => e == Rsrc(Granted) && m.phase.PendingState? && !s.inactive
    case Denied => e == Rsrc(Denied) && (m.phase.PendingState? || (m.phase.ReleasingState? && s.inactive))
    case Released => e == Rsrc(Released) && (m.phase.AcquiredState? || (m.phase.ReleasingState? && s.inactive))
  }

  /** The entries that a call adds to the log. */
  predicate Due(m: Agps, e: Event, entry: Entry) {
    match entry
    case Joined(a, id) => e.Subscribe? && e.id == id && a == m.next && !Refused(m) && !Known(m, id)
    case Note(a, status) => exists s :: s in m.subs && s.addr == a && NoticeDue(m, e, s, status)
    case Told(id, status) =>
      && e.Subscribe? && e.id == id
      && (if Refused(m) then status == Denied else m.phase.AcquiredState? && status == Granted)
    case Dropped(a) => e == DropAll && exists s :: s in m.subs && s.addr == a
    case Heard(status) => e == Rsrc(status) && status != Unsubscribed
    case Sent(Request) =>
      || (e.Subscribe? && m.phase.ReleasedState?)
      || ((e == Rsrc(Denied) || e == Rsrc(Released)) && m.phase.ReleasingState? && AnyActive(m.subs))
    case Sent(Release) =>
      && e.Unsubscribe? && (m.phase.PendingState? || m.phase.AcquiredState?) && Known(m, e.id)
      && (forall s :: s in m.subs && s.id != e.id ==> s.inactive)
    case Swallowed(_) => false
  }

  /** The log grew by entries of which `due` says which ones. */
  ghost predicate Says(log: seq<Entry>, log': seq<Entry>, due: Entry -> bool) {
    && log <= log'
    && forall entry :: entry in log'[|log|..] <==> due(entry)
  }

  lemma {:induction false} NotesMember(subs: seq<Subscriber>, target: Target, status: Status, entry: Entry)
    ensures entry in Notes(subs, target, status)
       <==> exists s :: s in subs && ForMe(s, target) && entry == Note(s.addr, status)
  {
    if subs != [] {
      NotesMember(subs[1..], target, status, entry);
      assert forall s :: s in subs <==> s == subs[0] || s in subs[1..];
    }
  }

  lemma {:induction false} DropsMember(subs: seq<Subscriber>, entry: Entry)
    ensures entry in Drops(subs) <==> exists s :: s in subs && entry == Dropped(s.addr)
  {
    if subs != [] {
      DropsMember(subs[1..], entry);
      assert forall s :: s in subs <==> s == subs[0] || s in subs[1..];
    }
  }

  lemma {:induction false} NotesOfSum(a: seq<Subscriber>, b: seq<Subscriber>, target: Target, status: Status)
    ensures Notes(a + b, target, status) == Notes(a, target, status) + Notes(b, target, status)
  {
    if a == [] {
      assert a + b == b;
    } else {
      assert (a + b)[1..] == a[1..] + b;
      NotesOfSum(a[1..], b, target, status);
    }
  }

  lemma KnownMeans(m: Agps, id: nat)
    ensures Has(m.subs, One(id)) <==> Known(m, id)
  {
    HasMeans(m.subs, One(id));
    if Known(m, id) {
      var s :| s in m.subs && s.id == id;
      assert ForMe(s, One(id));
    }
  }

  lemma ActiveMeans(subs: seq<Subscriber>)
    ensures Has(subs, Active) <==> AnyActive(subs)
  {
    HasMeans(subs, Active);
    if AnyActive(subs) {
      var s :| s in subs && !s.inactive;
      assert ForMe(s, Active);
    }
  }

  // ---------- Subscribe ----------

  function NewEntry(m: Agps, id: nat): seq<Entry> {
    if Has(m.subs, One(id)) then [] else [Joined(m.next, id)]
  }

  function SubscribeAdds(m: Agps, id: nat): seq<Entry> {
    if Refused(m) then [Told(id, Denied)]
    else if m.phase.ReleasedState? then NewEntry(m, id) + [Sent(Request)]
    else if m.phase.AcquiredState? then [Told(id, Granted)] + NewEntry(m, id)
    else NewEntry(m, id)
  }

  lemma SubscribeLog(m: Agps, id: nat, waits: bool)
    requires ListOk(m)
    ensures Step(m, Subscribe(id, waits)).log == m.log + SubscribeAdds(m, id)
  {
    if m.phase.ReleasedState? && !Refused(m) {
      AddKeepsList(m, id, waits);
    }
  }

  lemma JoinerIsDue(m: Agps, id: nat, waits: bool, entry: Entry)
    requires ListOk(m)
    ensures entry in SubscribeAdds(m, id) <==> Due(m, Subscribe(id, waits), entry)
  {
    KnownMeans(m, id);
    match entry
    case Joined(a, i) =>
    case Told(i, status) =>
    case Sent(action) =>
    case Note(a, status) =>
    case _ =>
  }

  lemma SubscribeSays(m: Agps, id: nat, waits: bool)
    requires ListOk(m)
    ensures var e := Subscribe(id, waits); Says(m.log, Step(m, e).log, entry => Due(m, e, entry))
  {
    var e := Subscribe(id, waits);
    SubscribeLog(m, id, waits);
    var adds := SubscribeAdds(m, id);
    assert Step(m, e).log[|m.log|..] == adds;
    forall entry ensures entry in adds <==> Due(m, e, entry) { JoinerIsDue(m, id, waits, entry); }
  }

  // ---------- Unsubscribe ----------

  function UnsubscribeAdds(m: Agps, i: nat): seq<Entry>
    requires i < |m.subs|
  {
    var m' := Leave(m, i);
    (if m.subs[i].waits then [] else Notes(m.subs, One(m.subs[i].id), Unsubscribed))
    + if (m.phase.PendingState? || m.phase.AcquiredState?) && !Has(m'.subs, Active) then [Sent(Release)] else []
  }

  lemma UnsubscribeLog(m: Agps, i: nat)
    requires i < |m.subs| && !m.phase.ReleasedState?
    ensures OnUnsubscribe(m, i).log == m.log + UnsubscribeAdds(m, i)
  {
    var m' := Leave(m, i);
    if m'.subs == [] { assert !Has(m'.subs, Active); }
  }

  /** Who is listed after somebody left. */
  lemma LeaveLists(m: Agps, i: nat, s': Subscriber)
    requires i < |m.subs| && UniqueIds(m.subs)
    ensures s' in Leave(m, i).subs <==> Stays(m, m.subs[i].id, s')
  {
    var s := m.subs[i];
    if s.waits {
      var subs' := m.subs[i := s.(inactive := true)];
      assert forall k | 0 <= k < |subs'| :: subs'[k] == if k == i then s.(inactive := true) else m.subs[k];
      if Stays(m, s.id, s') {
        var t :| t in m.subs && RemainsAs(t, s.id, s');
        var k :| 0 <= k < |m.subs| && m.subs[k] == t;
        assert subs'[k] == s';
      }
      if s' in subs' {
        var k :| 0 <= k < |subs'| && subs'[k] == s';
        assert RemainsAs(m.subs[k], s.id, s');
      }
    } else {
      OthersMembers(m.subs, One(s.id), s');
      if Stays(m, s.id, s') {
        var t :| t in m.subs && RemainsAs(t, s.id, s');
        var k :| 0 <= k < |m.subs| && m.subs[k] == t;
        assert t.id == s.id ==> k == i;
      }
      if s' in Others(m.subs, One(s.id)) { assert RemainsAs(s', s.id, s'); }
    }
  }

  /** `s'` is what is left of the listed `t` once `id` has left: a client that waits for the close stays
      as inactive. */
  predicate RemainsAs(t: Subscriber, id: nat, s': Subscriber) {
    if t.id == id then t.waits && s' == t.(inactive := true) else s' == t
  }

  predicate Stays(m: Agps, id: nat, s': Subscriber) {
    exists t :: t in m.subs && RemainsAs(t, id, s')
  }

  lemma NoActiveLeft(m: Agps, i: nat)
    requires i < |m.subs| && UniqueIds(m.subs)
    ensures !Has(Leave(m, i).subs, Active)
       <==> forall s :: s in m.subs && s.id != m.subs[i].id ==> s.inactive
  {
    var id := m.subs[i].id;
    var left := Leave(m, i).subs;
    ActiveMeans(left);
    if AnyActive(left) {
      var s' :| s' in left && !s'.inactive;
      LeaveLists(m, i, s');
      var t :| t in m.subs && RemainsAs(t, id, s');
      assert t.id != id && !t.inactive;
    }
    if s :| s in m.subs && s.id != id && !s.inactive {
      LeaveLists(m, i, s);
      assert RemainsAs(s, id, s);
    }
  }

  lemma LeavingNotice(m: Agps, i: nat, entry: Entry)
    requires i < |m.subs| && UniqueIds(m.subs)
    ensures var id := m.subs[i].id;
      !m.subs[i].waits && entry in Notes(m.subs, One(id), Unsubscribed)
      <==> entry.Note? && entry.status == Unsubscribed
           && exists s :: s in m.subs && s.addr == entry.addr && s.id == id && !s.waits
  {
    var id := m.subs[i].id;
    NotesMember(m.subs, One(id), Unsubscribed, entry);
    forall s | s in m.subs && s.id == id ensures s == m.subs[i] {
      var k :| 0 <= k < |m.subs| && m.subs[k] == s;
    }
  }

  lemma LeaverIsDue(m: Agps, i: nat, entry: Entry)
    requires i < |m.subs| && ListOk(m)
    ensures entry in UnsubscribeAdds(m, i) <==> Due(m, Unsubscribe(m.subs[i].id), entry)
  {
    NoActiveLeft(m, i);
    LeavingNotice(m, i, entry);
    NotesMember(m.subs, One(m.subs[i].id), Unsubscribed, entry);
    assert m.subs[i] in m.subs;
  }

  lemma UnsubscribeSays(m: Agps, id: nat)
    requires ListOk(m)
    ensures var e := Unsubscribe(id); Says(m.log, Step(m, e).log, entry => Due(m, e, entry))
  {
    var e := Unsubscribe(id);
    var i := First(m.subs, One(id));
    KnownMeans(m, id);
    if i < |m.subs| {
      UnsubscribeLog(m, i);
      var adds := UnsubscribeAdds(m, i);
      assert Step(m, e).log[|m.log|..] == adds;
      forall entry ensures entry in adds <==> Due(m, e, entry) { LeaverIsDue(m, i, entry); }
    } else {
      assert Step(m, e).log[|m.log|..] == [];
    }
  }

  // ---------- The servicer's events ----------

  function RsrcNotes(m: Agps, status: Status): seq<Entry> {
    match m.phase
    case ReleasedState => []
    case PendingState =>
      if status.Granted? then Notes(m.subs, Active, Granted)
      else if status.Denied? then Notes(m.subs, All, Denied)
      else []
    case AcquiredState => if status.Released? then Notes(m.subs, All, Released) else []
    case ReleasingState => if status.Granted? then [] else Notes(m.subs, Inactive, status)
  }

  function Asks(m: Agps, status: Status): seq<Entry> {
    if m.phase.ReleasingState? && !status.Granted? && Has(Others(m.subs, Inactive), Active) then [Sent(Request)] else []
  }

  lemma RsrcLog(m: Agps, status: Status)
    requires !status.Unsubscribed?
    ensures Step(m, Rsrc(status)).log == m.log + ([Heard(status)] + RsrcNotes(m, status) + Asks(m, status))
  {
  }

  lemma ActiveRemain(subs: seq<Subscriber>)
    ensures Has(Others(subs, Inactive), Active) <==> AnyActive(subs)
  {
    var left := Others(subs, Inactive);
    ActiveMeans(left);
    if AnyActive(left) {
      var s :| s in left && !s.inactive;
      OthersMembers(subs, Inactive, s);
    }
    if AnyActive(subs) {
      var s :| s in subs && !s.inactive;
      OthersMembers(subs, Inactive, s);
    }
  }

  lemma RsrcNotice(m: Agps, status: Status, entry: Entry)
    requires !status.Unsubscribed? && (m.phase.ReleasedState? ==> m.subs == [])
    ensures entry in RsrcNotes(m, status)
       <==> entry.Note? && exists s :: s in m.subs && s.addr == entry.addr && NoticeDue(m, Rsrc(status), s, entry.status)
  {
    NotesMember(m.subs, Active, Granted, entry);
    NotesMember(m.subs, All, Denied, entry);
    NotesMember(m.subs, All, Released, entry);
    NotesMember(m.subs, Inactive, status, entry);
  }

  lemma RsrcSays(m: Agps, status: Status)
    requires ListOk(m)
    ensures var e := Rsrc(status); Says(m.log, Step(m, e).log, entry => Due(m, e, entry))
  {
    var e := Rsrc(status);
    if status.Unsubscribed? {
      assert Step(m, e).log[|m.log|..] == [];
    } else {
      RsrcLog(m, status);
      ActiveRemain(m.subs);
      var adds := [Heard(status)] + RsrcNotes(m, status) + Asks(m, status);
      assert Step(m, e).log[|m.log|..] == adds;
      forall entry ensures entry in adds <==> Due(m, e, entry) { RsrcNotice(m, status, entry); }
    }
  }

  lemma DropSays(m: Agps)
    ensures Says(m.log, Step(m, DropAll).log, entry => Due(m, DropAll, entry))
  {
    assert Step(m, DropAll).log[|m.log|..] == Drops(m.subs);
    forall entry ensures entry in Drops(m.subs) <==> Due(m, DropAll, entry) { DropsMember(m.subs, entry); }
  }

  /** Over every run, a call says exactly what is due. */
  lemma EveryCallSaysWhatIsDue(single: bool, es: seq<Event>, e: Event)
    ensures var m := Run(single, es); Says(m.log, Step(m, e).log, entry => Due(m, e, entry))
  {
    ListAlwaysOk(single, es);
    var m := Run(single, es);
    match e
    case Subscribe(id, waits) => SubscribeSays(m, id, waits);
    case Unsubscribe(id) => UnsubscribeSays(m, id);
    case Rsrc(status) => RsrcSays(m, status);
    case DropAll => DropSays(m);
  }

  // ---------- Who is listed ----------

  predicate ListedAfter(m: Agps, e: Event, s: Subscriber) {
    match e
    case Subscribe(id, waits) =>
      s in m.subs || (!Refused(m) && !Known(m, id) && s == Subscriber(id, waits, false, m.next))
    case Unsubscribe(id) => Stays(m, id, s)
    case Rsrc(status) =>
      && s in m.subs
      && !(m.phase.PendingState? && status.Denied?)
      && !(m.phase.AcquiredState? && status.Released?)
      && !(m.phase.ReleasingState? && (status.Denied? || status.Released?) && s.inactive)
    case DropAll => false
  }

  lemma RsrcLists(m: Agps, status: Status, s: Subscriber)
    requires ListOk(m)
    ensures s in Step(m, Rsrc(status)).subs <==> ListedAfter(m, Rsrc(status), s)
  {
    OthersMembers(m.subs, All, s);
    OthersMembers(m.subs, Inactive, s);
  }

  lemma UnsubscribeLists(m: Agps, id: nat, s: Subscriber)
    requires ListOk(m)
    ensures s in Step(m, Unsubscribe(id)).subs <==> Stays(m, id, s)
  {
    var i := First(m.subs, One(id));
    KnownMeans(m, id);
    if i < |m.subs| {
      LeaveLists(m, i, s);
    } else {
      if s in m.subs { assert RemainsAs(s, id, s); }
    }
  }

  /** Over every run, a call leaves listed exactly who stays. */
  lemma EveryCallListsWhoStays(single: bool, es: seq<Event>, e: Event, s: Subscriber)
    ensures var m := Run(single, es); s in Step(m, e).subs <==> ListedAfter(m, e, s)
  {
    ListAlwaysOk(single, es);
    var m := Run(single, es);
    match e
    case Subscribe(id, waits) => KnownMeans(m, id);
    case Unsubscribe(id) => UnsubscribeLists(m, id, s);
    case Rsrc(status) => RsrcLists(m, status, s);
    case DropAll =>
  }

  // ---------- The state it ends in ----------

  function PhaseAfter(m: Agps, e: Event, subs': seq<Subscriber>): Phase {
    match m.phase
    case ReleasedState => if e.Subscribe? then PendingState else ReleasedState
    case ReleasingState =>
      if e == Rsrc(Denied) || e == Rsrc(Released) then if AnyActive(subs') then PendingState else ReleasedState
      else if e.Unsubscribe? && Known(m, e.id) && subs' == [] then ReleasedState
      else ReleasingState
    case _ =>
      if e == Rsrc(Granted) then AcquiredState
      else if (e == Rsrc(Denied) && m.phase.PendingState?) || (e == Rsrc(Released) && m.phase.AcquiredState?)
      then ReleasedState
      else if !(e.Unsubscribe? && Known(m, e.id)) || AnyActive(subs') then m.phase
      else if subs' == [] then ReleasedState
      else ReleasingState
  }

  lemma SubscribeEnds(m: Agps, id: nat, waits: bool)
    requires ListOk(m)
    ensures var m' := Step(m, Subscribe(id, waits)); m'.phase == PhaseAfter(m, Subscribe(id, waits), m'.subs)
  {
  }

  lemma UnsubscribeEnds(m: Agps, id: nat)
    requires ListOk(m)
    ensures var m' := Step(m, Unsubscribe(id)); m'.phase == PhaseAfter(m, Unsubscribe(id), m'.subs)
  {
    KnownMeans(m, id);
    ActiveMeans(Step(m, Unsubscribe(id)).subs);
  }

  lemma RsrcEnds(m: Agps, status: Status)
    ensures var m' := Step(m, Rsrc(status)); m'.phase == PhaseAfter(m, Rsrc(status), m'.subs)
  {
    ActiveMeans(Step(m, Rsrc(status)).subs);
  }

  /** Over every run, the state after a call follows from the state before and from who is listed then. */
  lemma EveryCallEndsWhereItShould(single: bool, es: seq<Event>, e: Event)
    ensures var m := Run(single, es); var m' := Step(m, e); m'.phase == PhaseAfter(m, e, m'.subs)
  {
    ListAlwaysOk(single, es);
    var m := Run(single, es);
    match e
    case Subscribe(id, waits) => SubscribeEnds(m, id, waits);
    case Unsubscribe(id) => UnsubscribeEnds(m, id);
    case Rsrc(status) => RsrcEnds(m, status);
    case DropAll =>
  }

  // ---------- Nothing is said twice ----------

  ghost predicate Distinct(log: seq<Entry>) {
    forall i, j | 0 <= i < j < |log| :: log[i] != log[j]
  }

  lemma DistinctSum(a: seq<Entry>, b: seq<Entry>)
    requires Distinct(a) && Distinct(b) && forall x | x in a :: x !in b
    ensures Distinct(a + b)
  {
    forall i, j | 0 <= i < j < |a + b| ensures (a + b)[i] != (a + b)[j] {
      if i < |a| <= j { assert a[i] in a && b[j - |a|] in b; }
    }
  }

  ghost predicate DistinctAddrs(subs: seq<Subscriber>) {
    forall i, j | 0 <= i < j < |subs| :: subs[i].addr != subs[j].addr
  }

  /** Every listed copy has an address of its own. */
  ghost predicate UniqueAddrs(m: Agps) {
    DistinctAddrs(m.subs) && forall s | s in m.subs :: s.addr < m.next
  }

  lemma {:induction false} OthersAddrs(subs: seq<Subscriber>, target: Target)
    requires DistinctAddrs(subs)
    ensures DistinctAddrs(Others(subs, target))
  {
    if subs != [] {
      var left := Others(subs[1..], target);
      OthersAddrs(subs[1..], target);
      forall k | 0 <= k < |left| ensures left[k].addr != subs[0].addr {
        OthersMembers(subs[1..], target, left[k]);
        assert left[k] in left;
      }
    }
  }

  lemma NotifyKeepsAddrs(m: Agps, target: Target, status: Status, delete: bool)
    requires UniqueAddrs(m)
    ensures UniqueAddrs(NotifyAll(m, target, status, delete))
  {
    OthersAddrs(m.subs, target);
    forall s | s in Others(m.subs, target) ensures s in m.subs { OthersMembers(m.subs, target, s); }
  }

  lemma AddKeepsAddrs(m: Agps, id: nat, waits: bool)
    requires UniqueAddrs(m)
    ensures UniqueAddrs(AddSubscriber(m, id, waits))
  {
    assert forall i | 0 <= i < |m.subs| :: m.subs[i] in m.subs;
  }

  lemma LeaveKeepsAddrs(m: Agps, i: nat)
    requires i < |m.subs| && UniqueAddrs(m)
    ensures UniqueAddrs(Leave(m, i))
  {
    assert forall k | 0 <= k < |m.subs| :: m.subs[k] in m.subs;
    if !m.subs[i].waits { NotifyKeepsAddrs(m, One(m.subs[i].id), Unsubscribed, true); }
  }

  lemma RsrcKeepsAddrs(m: Agps, status: Status)
    requires UniqueAddrs(m)
    ensures UniqueAddrs(OnRsrc(m, status))
  {
    NotifyKeepsAddrs(m, All, status, true);
    OthersAddrs(m.subs, Inactive);
    forall s | s in Others(m.subs, Inactive) ensures s in m.subs { OthersMembers(m.subs, Inactive, s); }
  }

  lemma SubscribeKeepsAddrs(m: Agps, id: nat, waits: bool)
    requires UniqueAddrs(m)
    ensures UniqueAddrs(Step(m, Subscribe(id, waits)))
  {
    AddKeepsAddrs(m, id, waits);
    AddKeepsAddrs(m.(log := m.log + [Told(id, Granted)]), id, waits);
  }

  lemma StepKeepsAddrs(m: Agps, e: Event)
    requires UniqueAddrs(m)
    ensures UniqueAddrs(Step(m, e))
  {
    match e
    case Subscribe(id, waits) => SubscribeKeepsAddrs(m, id, waits);
    case Unsubscribe(id) =>
      var i := First(m.subs, One(id));
      if i < |m.subs| { LeaveKeepsAddrs(m, i); }
    case Rsrc(status) => RsrcKeepsAddrs(m.(log := m.log + [Heard(status)]), status);
    case DropAll =>
  }

  lemma {:induction false} AddrsAlwaysUnique(single: bool, es: seq<Event>)
    ensures UniqueAddrs(Run(single, es))
  {
    if es != [] {
      AddrsAlwaysUnique(single, es[..|es| - 1]);
      StepKeepsAddrs(Run(single, es[..|es| - 1]), es[|es| - 1]);
    }
  }

  lemma {:induction false} NotesDistinct(subs: seq<Subscriber>, target: Target, status: Status)
    requires DistinctAddrs(subs)
    ensures Distinct(Notes(subs, target, status))
  {
    if subs != [] {
      NotesDistinct(subs[1..], target, status);
      NotesMember(subs[1..], target, status, Note(subs[0].addr, status));
    }
  }

  lemma {:induction false} DropsDistinct(subs: seq<Subscriber>)
    requires DistinctAddrs(subs)
    ensures Distinct(Drops(subs))
  {
    if subs != [] {
      DropsDistinct(subs[1..]);
      DropsMember(subs[1..], Dropped(subs[0].addr));
    }
  }

  lemma RsrcNotesDistinct(m: Agps, status: Status)
    requires UniqueAddrs(m)
    ensures Distinct(RsrcNotes(m, status)) && forall entry | entry in RsrcNotes(m, status) :: entry.Note?
  {
    NotesDistinct(m.subs, Active, Granted);
    NotesDistinct(m.subs, All, Denied);
    NotesDistinct(m.subs, All, Released);
    NotesDistinct(m.subs, Inactive, status);
    forall entry | entry in RsrcNotes(m, status) ensures entry.Note? {
      NotesMember(m.subs, Active, Granted, entry);
      NotesMember(m.subs, All, Denied, entry);
      NotesMember(m.subs, All, Released, entry);
      NotesMember(m.subs, Inactive, status, entry);
    }
  }

  lemma RsrcSaysOnce(m: Agps, status: Status)
    requires UniqueAddrs(m) && !status.Unsubscribed?
    ensures Distinct([Heard(status)] + RsrcNotes(m, status) + Asks(m, status))
  {
    var notes := RsrcNotes(m, status);
    RsrcNotesDistinct(m, status);
    DistinctSum([Heard(status)], notes);
    DistinctSum([Heard(status)] + notes, Asks(m, status));
  }

  lemma UnsubscribeSaysOnce(m: Agps, i: nat)
    requires UniqueAddrs(m) && i < |m.subs|
    ensures Distinct(UnsubscribeAdds(m, i))
  {
    var id := m.subs[i].id;
    var notes := if m.subs[i].waits then [] else Notes(m.subs, One(id), Unsubscribed);
    NotesDistinct(m.subs, One(id), Unsubscribed);
    forall entry | entry in Notes(m.subs, One(id), Unsubscribed) ensures entry.Note? {
      NotesMember(m.subs, One(id), Unsubscribed, entry);
    }
    DistinctSum(notes, [Sent(Release)]);
    assert notes + [] == notes;
  }

  /** What a call adds to the log, in order. */
  function Adds(m: Agps, e: Event): seq<Entry> {
    match e
    case Subscribe(id, _) => SubscribeAdds(m, id)
    case Unsubscribe(id) => var i := First(m.subs, One(id)); if i < |m.subs| then UnsubscribeAdds(m, i) else []
    case Rsrc(status) =>
      if status.Unsubscribed? then [] else [Heard(status)] + RsrcNotes(m, status) + Asks(m, status)
    case DropAll => Drops(m.subs)
  }

  lemma CallLog(m: Agps, e: Event)
    requires ListOk(m)
    ensures Step(m, e).log == m.log + Adds(m, e)
  {
    match e
    case Subscribe(id, waits) => SubscribeLog(m, id, waits);
    case Unsubscribe(id) =>
      var i := First(m.subs, One(id));
      if i < |m.subs| { UnsubscribeLog(m, i); }
    case Rsrc(status) => if !status.Unsubscribed? { RsrcLog(m, status); }
    case DropAll =>
  }

  lemma CallSaysOnce(m: Agps, e: Event)
    requires UniqueAddrs(m)
    ensures Distinct(Adds(m, e))
  {
    match e
    case Subscribe(id, waits) =>
    case Unsubscribe(id) =>
      var i := First(m.subs, One(id));
      if i < |m.subs| { UnsubscribeSaysOnce(m, i); }
    case Rsrc(status) => if !status.Unsubscribed? { RsrcSaysOnce(m, status); }
    case DropAll => DropsDistinct(m.subs);
  }

  /** Over every run, a call says nothing twice; and it is the servicer's event that a call for it says
      first. */
  lemma NoCallRepeatsItself(single: bool, es: seq<Event>, e: Event)
    ensures var m := Run(single, es); var m' := Step(m, e);
      && m.log <= m'.log && Distinct(m'.log[|m.log|..])
      && (e.Rsrc? && !e.status.Unsubscribed? ==> |m'.log| > |m.log| && m'.log[|m.log|] == Heard(e.status))
  {
    ListAlwaysOk(single, es);
    AddrsAlwaysUnique(single, es);
    var m := Run(single, es);
    CallLog(m, e);
    CallSaysOnce(m, e);
    assert Step(m, e).log[|m.log|..] == Adds(m, e);
  }
}
