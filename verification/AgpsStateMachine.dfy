/** The AGPS machine as the runtime runs it: fields updated event by event, the list searched and
    shortened in place. Each method is proved to do what `AgpsModel` says of the machine as a value. */
module AgpsStateMachines {
  import opened Sequences
  import opened AgpsModel

  class AgpsStateMachine {
    var mState: Phase
    var mSubscribers: seq<Subscriber>
    const mEnforceSingleSubscriber: bool
    var mNextAddr: nat
    var mLog: seq<Entry>

    function Model(): Agps
      reads this
    {
      Agps(mState, mSubscribers, mEnforceSingleSubscriber, mNextAddr, mLog)
    }

    constructor (enforceSingleSubscriber: bool)
      ensures Model() == Init(enforceSingleSubscriber)
    {
      mState, mSubscribers, mEnforceSingleSubscriber := ReleasedState, [], enforceSingleSubscriber;
      mNextAddr, mLog := 0, [];
    }

    /** `linked_list_search` with the comparison callback `hasSubscriber`. */
    method Search(target: Target) returns (i: nat)
      ensures i == First(mSubscribers, target)
    {
      i := 0;
      while i < |mSubscribers| && !ForMe(mSubscribers[i], target)
        invariant i <= |mSubscribers|
        invariant First(mSubscribers, target) == i + First(mSubscribers[i..], target)
      {
        i := i + 1;
      }
    }

    /** `linked_list_search` with the callback `notifySubscriber` and removal: notifies and takes out
        the first subscriber concerned. */
    method NotifyAndRemoveFirst(target: Target, status: Status) returns (found: bool)
      modifies this`mSubscribers, this`mLog
      ensures var i := First(old(mSubscribers), target);
        && (found <==> i < |old(mSubscribers)|)
        && (if found
            then mSubscribers == old(mSubscribers)[..i] + old(mSubscribers)[i + 1..]
              && mLog == old(mLog) + [Note(old(mSubscribers)[i].addr, status)]
            else mSubscribers == old(mSubscribers) && mLog == old(mLog))
    {
      var i := Search(target);
      found := i < |mSubscribers|;
      if found {
        mLog := mLog + [Note(mSubscribers[i].addr, status)];
        mSubscribers := mSubscribers[..i] + mSubscribers[i + 1..];
      }
    }

    /** One search per subscriber removed, until a search finds none. */
    method NotifyDeleting(target: Target, status: Status)
      modifies this`mSubscribers, this`mLog
      ensures mLog == old(mLog) + Notes(old(mSubscribers), target, status)
      ensures mSubscribers == Others(old(mSubscribers), target)
    {
      var found := true;
      while found
        invariant mLog + Notes(mSubscribers, target, status)
               == old(mLog) + Notes(old(mSubscribers), target, status)
        invariant Others(mSubscribers, target) == Others(old(mSubscribers), target)
        invariant !found ==> !Has(mSubscribers, target)
        decreases |mSubscribers|, found
      {
        ghost var subs, log := mSubscribers, mLog;
        found := NotifyAndRemoveFirst(target, status);
        if found {
          TakeOutFirst(subs, target, status);
          MoveAcross(log, Note(subs[First(subs, target)].addr, status), Notes(mSubscribers, target, status));
        }
      }
      NoneConcerned(mSubscribers, target, status);
    }

    /** One walk over the whole list, since the callback never reports a match. */
    method NotifyKeeping(target: Target, status: Status)
      modifies this`mLog
      ensures mLog == old(mLog) + Notes(mSubscribers, target, status)
    {
      var i := 0;
      while i < |mSubscribers|
        invariant i <= |mSubscribers|
        invariant mLog + Notes(mSubscribers[i..], target, status)
               == old(mLog) + Notes(mSubscribers, target, status)
      {
        assert mSubscribers[i..][1..] == mSubscribers[i + 1..];
        if ForMe(mSubscribers[i], target) {
          MoveAcross(mLog, Note(mSubscribers[i].addr, status), Notes(mSubscribers[i + 1..], target, status));
          mLog := mLog + [Note(mSubscribers[i].addr, status)];
        }
        i := i + 1;
      }
    }

    method NotifySubscribers(target: Target, status: Status, postNotifyDelete: bool)
      modifies this`mSubscribers, this`mLog
      ensures Model() == NotifyAll(old(Model()), target, status, postNotifyDelete)
    {
      if postNotifyDelete {
        NotifyDeleting(target, status);
      } else {
        NotifyKeeping(target, status);
      }
    }

    /** Removing the first subscriber concerned takes its notice off the front and leaves the others. */
    static lemma {:induction false} TakeOutFirst(subs: seq<Subscriber>, target: Target, status: Status)
      requires Has(subs, target)
      ensures var i := First(subs, target); var rest := subs[..i] + subs[i + 1..];
        && Notes(subs, target, status) == [Note(subs[i].addr, status)] + Notes(rest, target, status)
        && Others(subs, target) == Others(rest, target)
    {
      var i := First(subs, target);
      if i == 0 {
        assert subs[..0] + subs[1..] == subs[1..];
      } else {
        var rest := subs[..i] + subs[i + 1..];
        assert rest[1..] == subs[1..][..i - 1] + subs[1..][i..];
        TakeOutFirst(subs[1..], target, status);
      }
    }

    static lemma {:induction false} NoneConcerned(subs: seq<Subscriber>, target: Target, status: Status)
      requires !Has(subs, target)
      ensures Notes(subs, target, status) == [] && Others(subs, target) == subs
    {
      if subs != [] { NoneConcerned(subs[1..], target, status); }
    }

    method AddSubscriber(id: nat, waits: bool)
      modifies this`mSubscribers, this`mNextAddr, this`mLog
      ensures mSubscribers == (if Has(old(mSubscribers), One(id)) then []
                               else [Subscriber(id, waits, false, old(mNextAddr))]) + old(mSubscribers)
      ensures Model() == AgpsModel.AddSubscriber(old(Model()), id, waits)
    {
      var i := Search(One(id));
      if i == |mSubscribers| {
        mSubscribers := [Subscriber(id, waits, false, mNextAddr)] + mSubscribers;
        mLog := mLog + [Joined(mNextAddr, id)];
        mNextAddr := mNextAddr + 1;
      }
    }

    method SendRsrcRequest(action: Action)
      modifies this`mLog
      ensures Model() == SendRequest(old(Model()), action)
    {
      var i := Search(Active);
      if (i == |mSubscribers|) == (action == Release) {
        mLog := mLog + [Sent(action)];
      } else {
        mLog := mLog + [Swallowed(action)];
      }
    }

    method HasSubscriber(target: Target) returns (has: bool)
      ensures has == Has(mSubscribers, target)
    {
      var i := Search(target);
      has := i < |mSubscribers|;
    }

    /** The common start of the unsubscribe handlers. */
    method LeaveOrWait(i: nat)
      requires i < |mSubscribers|
      modifies this`mSubscribers, this`mLog
      ensures Model() == Leave(old(Model()), i)
    {
      if mSubscribers[i].waits {
        mSubscribers := mSubscribers[i := mSubscribers[i].(inactive := true)];
      } else {
        NotifySubscribers(One(mSubscribers[i].id), Unsubscribed, true);
      }
    }

    method OnSubscribe(id: nat, waits: bool)
      modifies this
      ensures Model() == AgpsModel.OnSubscribe(old(Model()), id, waits)
    {
      match mState
      case ReleasedState =>
        AddSubscriber(id, waits);
        SendRsrcRequest(Request);
        mState := PendingState;
      case PendingState =>
        AddSubscriber(id, waits);
      case AcquiredState =>
        mLog := mLog + [Told(id, Granted)];
        AddSubscriber(id, waits);
      case ReleasingState =>
        AddSubscriber(id, waits);
    }

    method OnUnsubscribe(i: nat)
      requires i < |mSubscribers|
      modifies this
      ensures Model() == AgpsModel.OnUnsubscribe(old(Model()), i)
    {
      if mState.ReleasedState? {
        mLog := mLog + [Told(mSubscribers[i].id, Unsubscribed)];
        return;
      }
      LeaveOrWait(i);
      if mState.ReleasingState? {
        if mSubscribers == [] { mState := ReleasedState; }
      } else if mSubscribers == [] {
        SendRsrcRequest(Release);
        mState := ReleasedState;
      } else {
        var active := HasSubscriber(Active);
        if !active {
          SendRsrcRequest(Release);
          mState := ReleasingState;
        }
      }
    }

    method OnRsrcEvent(status: Status)
      modifies this
      ensures Model() == Step(old(Model()), Rsrc(status))
    {
      if status.Unsubscribed? { return; }
      mLog := mLog + [Heard(status)];
      match mState
      case ReleasedState =>
      case PendingState =>
        if status.Granted? {
          NotifySubscribers(Active, Granted, false);
          mState := AcquiredState;
        } else if status.Denied? {
          NotifySubscribers(All, Denied, true);
          mState := ReleasedState;
        }
      case AcquiredState =>
        if status.Released? {
          NotifySubscribers(All, Released, true);
          mState := ReleasedState;
        }
      case ReleasingState =>
        if !status.Granted? {
          NotifySubscribers(Inactive, status, true);
          var active := HasSubscriber(Active);
          if active {
            SendRsrcRequest(Request);
            mState := PendingState;
          } else {
            mState := ReleasedState;
          }
        }
    }

    method SubscribeRsrc(id: nat, waits: bool)
      modifies this
      ensures Model() == Step(old(Model()), Subscribe(id, waits))
    {
      if mEnforceSingleSubscriber && mSubscribers != [] {
        mLog := mLog + [Told(id, Denied)];
      } else {
        OnSubscribe(id, waits);
      }
    }

    method UnsubscribeRsrc(id: nat) returns (found: bool)
      modifies this
      ensures Model() == Step(old(Model()), Unsubscribe(id))
      ensures found == Has(old(mSubscribers), One(id))
    {
      var i := Search(One(id));
      found := i < |mSubscribers|;
      if found {
        OnUnsubscribe(i);
      }
    }

    /** Frees every listed subscriber, head first, and leaves the state as it is. */
    method DropAllSubscribers()
      modifies this`mSubscribers, this`mLog
      ensures Model() == Step(old(Model()), DropAll)
    {
      while mSubscribers != []
        invariant mLog + Drops(mSubscribers) == old(mLog) + Drops(old(mSubscribers))
        decreases |mSubscribers|
      {
        assert mLog + ([Dropped(mSubscribers[0].addr)] + Drops(mSubscribers[1..]))
            == mLog + [Dropped(mSubscribers[0].addr)] + Drops(mSubscribers[1..]);
        mLog := mLog + [Dropped(mSubscribers[0].addr)];
        mSubscribers := mSubscribers[1..];
      }
    }
  }
}
