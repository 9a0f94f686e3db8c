/** The AGPS resource machine: four states, a list of subscribers, and what it says to whom.

  `Agps` is the machine as a value; `Step` is what one call does to it. The log records, in order,
  every notice a subscriber gets, every request the servicer gets and every event it reports.
  */
module AgpsModel {

  datatype Status = Unsubscribed | Granted | Released | Denied

  /** `addr` stands for the address of the list's own copy of the subscriber. */
  datatype Subscriber = Subscriber(id: nat, waits: bool, inactive: bool, addr: nat)

  datatype Phase = ReleasedState | PendingState | AcquiredState | ReleasingState

  datatype Action = Request | Release

  datatype Entry =
    | Joined(addr: nat, id: nat)          // a copy of the subscriber entered the list
    | Note(addr: nat, status: Status)     // a listed subscriber was notified
    | Told(id: nat, status: Status)       // the caller's own object was notified
    | Dropped(addr: nat)                  // dropAllSubscribers freed a listed subscriber
    | Heard(status: Status)               // the servicer reported an event
    | Sent(action: Action)                // the servicer was asked
    | Swallowed(action: Action)           // a request the guard did not let through

  datatype Agps = Agps(phase: Phase, subs: seq<Subscriber>, single: bool, next: nat, log: seq<Entry>)

  datatype Event =
    | Subscribe(id: nat, waits: bool)
    | Unsubscribe(id: nat)
    | Rsrc(status: Status)
    | DropAll

  // ---------- Notifications ----------

  datatype Target = One(id: nat) | All | Active | Inactive

  predicate ForMe(s: Subscriber, target: Target) {
    match target
    case One(id) => s.id == id
    case All => true
    case Active => !s.inactive
    case Inactive => s.inactive
  }

  /** The first listed subscriber a notification is for, as an index; the length if there is none. */
  function First(subs: seq<Subscriber>, target: Target): (i: nat)
    ensures i <= |subs|
    ensures forall j | 0 <= j < i :: !ForMe(subs[j], target)
    ensures i < |subs| ==> ForMe(subs[i], target)
  {
    if subs == [] || ForMe(subs[0], target) then 0 else 1 + First(subs[1..], target)
  }

  predicate Has(subs: seq<Subscriber>, target: Target) {
    First(subs, target) < |subs|
  }

  /** One notice for each subscriber concerned, in list order. */
  function Notes(subs: seq<Subscriber>, target: Target, status: Status): seq<Entry> {
    if subs == [] then []
    else if ForMe(subs[0], target) then [Note(subs[0].addr, status)] + Notes(subs[1..], target, status)
    else Notes(subs[1..], target, status)
  }

  /** The subscribers not concerned, in order. */
  function Others(subs: seq<Subscriber>, target: Target): seq<Subscriber> {
    if subs == [] then []
    else if ForMe(subs[0], target) then Others(subs[1..], target)
    else [subs[0]] + Others(subs[1..], target)
  }

  function NotifyAll(m: Agps, target: Target, status: Status, delete: bool): Agps {
    m.(log := m.log + Notes(m.subs, target, status),
       subs := if delete then Others(m.subs, target) else m.subs)
  }

  // ---------- The other pieces ----------

  function AddSubscriber(m: Agps, id: nat, waits: bool): Agps {
    if Has(m.subs, One(id)) then m
    else m.(subs := [Subscriber(id, waits, false, m.next)] + m.subs,
            next := m.next + 1,
            log := m.log + [Joined(m.next, id)])
  }

  /** Asks the servicer, if an active subscriber's presence agrees with what is asked. */
  function SendRequest(m: Agps, action: Action): Agps {
    if !Has(m.subs, Active) <==> action == Release
    then m.(log := m.log + [Sent(action)])
    else m.(log := m.log + [Swallowed(action)])
  }

  function SetInactive(m: Agps, i: nat): Agps
    requires i < |m.subs|
  {
    m.(subs := m.subs[i := m.subs[i].(inactive := true)])
  }

  /** A subscriber that must wait for the close stays listed as inactive; any other one is notified
      and leaves. */
  function Leave(m: Agps, i: nat): Agps
    requires i < |m.subs|
  {
    if m.subs[i].waits then SetInactive(m, i)
    else NotifyAll(m, One(m.subs[i].id), Unsubscribed, true)
  }

  // ---------- Events in each state ----------

  function OnSubscribe(m: Agps, id: nat, waits: bool): Agps {
    match m.phase
    case ReleasedState => SendRequest(AddSubscriber(m, id, waits), Request).(phase := PendingState)
    case PendingState => AddSubscriber(m, id, waits)
    case AcquiredState => AddSubscriber(m.(log := m.log + [Told(id, Granted)]), id, waits)
    case ReleasingState => AddSubscriber(m, id, waits)
  }

  function OnUnsubscribe(m: Agps, i: nat): Agps
    requires i < |m.subs|
  {
    if m.phase.ReleasedState? then m.(log := m.log + [Told(m.subs[i].id, Unsubscribed)])
    else if m.phase.ReleasingState? then
      var m' := Leave(m, i);
      if m'.subs == [] then m'.(phase := ReleasedState) else m'
    else
      var m' := Leave(m, i);
      if m'.subs == [] then SendRequest(m', Release).(phase := ReleasedState)
      else if !Has(m'.subs, Active) then SendRequest(m', Release).(phase := ReleasingState)
      else m'
  }

  function OnRsrc(m: Agps, status: Status): Agps {
    match m.phase
    case ReleasedState => m
    case PendingState =>
      if status.Granted? then NotifyAll(m, Active, Granted, false).(phase := AcquiredState)
      else if status.Denied? then NotifyAll(m, All, Denied, true).(phase := ReleasedState)
      else m
    case AcquiredState =>
      if status.Released? then NotifyAll(m, All, Released, true).(phase := ReleasedState) else m
    case ReleasingState =>
      if status.Granted? then m
      else
        var m' := NotifyAll(m, Inactive, status, true);
        if Has(m'.subs, Active) then SendRequest(m', Request).(phase := PendingState)
        else m'.(phase := ReleasedState)
  }

  function Drops(subs: seq<Subscriber>): seq<Entry> {
    if subs == [] then [] else [Dropped(subs[0].addr)] + Drops(subs[1..])
  }

  function Step(m: Agps, e: Event): Agps {
    match e
    case Subscribe(id, waits) =>
      if m.single && m.subs != [] then m.(log := m.log + [Told(id, Denied)])
      else OnSubscribe(m, id, waits)
    case Unsubscribe(id) =>
      var i := First(m.subs, One(id));
      if i < |m.subs| then OnUnsubscribe(m, i) else m
    case Rsrc(status) =>
      if status.Unsubscribed? then m else OnRsrc(m.(log := m.log + [Heard(status)]), status)
    case DropAll => m.(subs := [], log := m.log + Drops(m.subs))
  }

  function Init(single: bool): Agps {
    Agps(ReleasedState, [], single, 0, [])
  }

  function Run(single: bool, es: seq<Event>): Agps {
    if es == [] then Init(single) else Step(Run(single, es[..|es| - 1]), es[|es| - 1])
  }
}
