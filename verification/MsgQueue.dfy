/** The blocking message queue over all interleavings. Each region under the queue's lock is one step.

  A receiver that finds the queue empty sleeps on the condition variable. A signal wakes at least one
  sleeper, a broadcast wakes all of them, and any sleeper may also wake for no reason. A woken
  receiver looks at the queue again once it gets the lock, and others may get the lock before it.
  */
module MsgQueueProtocol {
  import opened Options
  import opened LinkedListModel

  /** What the lock protects. */
  datatype Content = Content(items: seq<Item>, unblocked: bool)

  datatype Receipt = Waits | Returns(err: Error, out: Option<nat>)

  function Sending(q: Content, msg: nat, hasDealloc: bool): (Error, Content) {
    if msg == 0 then (InvalidParameter, q)
    else if q.unblocked then (UnavailableResource, q)
    else (Success, q.(items := After(q.items, Add(Item(msg, hasDealloc)))))
  }

  /** A look at the queue, on `entering` the receive call or after a wait. */
  function Receiving(q: Content, entering: bool): (Receipt, Content) {
    if entering && q.unblocked then (Returns(UnavailableResource, None), q)
    else if q.items == [] && !q.unblocked then (Waits, q)
    else if q.items == [] then (Returns(UnavailableResource, None), q)
    else (Returns(Success, Some(q.items[|q.items| - 1].data)), q.(items := After(q.items, Remove)))
  }

  function Unblocking(q: Content): (Error, Content) {
    if q.unblocked then (UnavailableResource, q) else (Success, q.(unblocked := true))
  }

  // ---------- The system ----------

  datatype Gone = Received(receiver: nat, item: Item) | Flushed(item: Item)

  /** What a receive call returned, and to whom. */
  datatype Reply = Reply(receiver: nat, receipt: Receipt)

  /** `accepted` and `gone` are in the order of sending; `dealloced` and `replies` are in the order of
      the calls. */
  datatype State = State(
    content: Content, sleeping: set<nat>, woken: set<nat>,
    accepted: seq<Item>, gone: seq<Gone>, dealloced: seq<nat>, replies: seq<Reply>)

  datatype Label =
    | Send(msg: nat, hasDealloc: bool, signalled: set<nat>)
    | Enter(receiver: nat)
    | Wake(receiver: nat)
    | Spurious(receiver: nat)
    | FlushQueue
    | Unblock

  predicate Accepts(s: State, msg: nat) {
    Sending(s.content, msg, false).0 == Success
  }

  predicate Enabled(s: State, l: Label) {
    match l
    case Send(msg, _, signalled) =>
      if Accepts(s, msg) then signalled <= s.sleeping && (s.sleeping != {} ==> signalled != {})
      else signalled == {}
    case Enter(r) => r !in s.sleeping && r !in s.woken
    case Wake(r) => r in s.woken
    case Spurious(r) => r in s.sleeping
    case FlushQueue => true
    case Unblock => true
  }

  function Look(s: State, r: nat, entering: bool): State {
    var (receipt, content) := Receiving(s.content, entering);
    var t := s.(content := content, woken := s.woken - {r});
    if receipt.Waits? then t.(sleeping := s.sleeping + {r})
    else
      var u := t.(replies := s.replies + [Reply(r, receipt)]);
      if receipt.err != Success then u
      else u.(gone := s.gone + [Received(r, s.content.items[|s.content.items| - 1])])
  }

  function AllFlushed(items: seq<Item>): seq<Gone> {
    if items == [] then [] else AllFlushed(items[1..]) + [Flushed(items[0])]
  }

  function Next(s: State, l: Label): State
    requires Enabled(s, l)
  {
    match l
    case Send(msg, hasDealloc, signalled) =>
      s.(content := Sending(s.content, msg, hasDealloc).1,
         accepted := if Accepts(s, msg) then s.accepted + [Item(msg, hasDealloc)] else s.accepted,
         sleeping := s.sleeping - signalled,
         woken := s.woken + signalled)
    case Enter(r) => Look(s, r, true)
    case Wake(r) => Look(s, r, false)
    case Spurious(r) => s.(sleeping := s.sleeping - {r}, woken := s.woken + {r})
    case FlushQueue =>
      s.(content := s.content.(items := After(s.content.items, Flush)),
         gone := s.gone + AllFlushed(s.content.items),
         dealloced := s.dealloced + Deallocated(s.content.items))
    case Unblock =>
      var (err, content) := Unblocking(s.content);
      if err != Success then s
      else s.(content := content, sleeping := {}, woken := s.woken + s.sleeping)
  }

  const INIT: State := State(Content([], false), {}, {}, [], [], [], [])

  predicate CanRun(s: State, ls: seq<Label>)
    decreases |ls|
  {
    ls != [] ==> Enabled(s, ls[0]) && CanRun(Next(s, ls[0]), ls[1..])
  }

  function Run(s: State, ls: seq<Label>): State
    requires CanRun(s, ls)
    decreases |ls|
  {
    if ls == [] then s else Run(Next(s, ls[0]), ls[1..])
  }

  // ---------- Invariant ----------

  function Items(gone: seq<Gone>): (items: seq<Item>)
    ensures |items| == |gone|
    ensures forall k | 0 <= k < |gone| :: items[k] == gone[k].item
  {
    seq(|gone|, k requires 0 <= k < |gone| => gone[k].item)
  }

  function Frees(gone: seq<Gone>, p: nat): nat {
    if gone == [] then 0
    else (if gone[0].Flushed? && gone[0].item == Item(p, true) then 1 else 0) + Frees(gone[1..], p)
  }

  function Calls(dealloced: seq<nat>, p: nat): nat {
    if dealloced == [] then 0 else (if dealloced[0] == p then 1 else 0) + Calls(dealloced[1..], p)
  }

  predicate InOrder(s: State) {
    s.accepted == Items(s.gone) + Reversed(s.content.items)
  }

  predicate Awake(s: State) {
    && s.sleeping !! s.woken
    && (s.content.unblocked ==> s.sleeping == {})
    && (s.sleeping != {} ==> |s.content.items| <= |s.woken|)
  }

  lemma {:induction false} AllFlushedItems(items: seq<Item>)
    ensures Items(AllFlushed(items)) == Reversed(items)
  {
    if items != [] {
      AllFlushedItems(items[1..]);
      ItemsOfSum(AllFlushed(items[1..]), [Flushed(items[0])]);
    }
  }

  lemma ItemsOfSum(a: seq<Gone>, b: seq<Gone>)
    ensures Items(a + b) == Items(a) + Items(b)
  {
  }

  lemma StepKeepsOrder(s: State, l: Label)
    requires Enabled(s, l) && InOrder(s)
    ensures InOrder(Next(s, l))
  {
    var items := s.content.items;
    match l
    case Send(msg, hasDealloc, _) =>
      assert ([Item(msg, hasDealloc)] + items)[1..] == items;
    case Enter(r) => LookKeepsOrder(s, r, true);
    case Wake(r) => LookKeepsOrder(s, r, false);
    case Spurious(r) =>
    case FlushQueue =>
      AllFlushedItems(items);
      ItemsOfSum(s.gone, AllFlushed(items));
    case Unblock =>
  }

  lemma LookKeepsOrder(s: State, r: nat, entering: bool)
    requires InOrder(s)
    ensures InOrder(Look(s, r, entering))
  {
    var items := s.content.items;
    if items != [] && !(entering && s.content.unblocked) {
      ReversedTakesLast(items);
      ItemsOfSum(s.gone, [Received(r, items[|items| - 1])]);
    }
  }

  lemma SendKeepsAwake(s: State, msg: nat, hasDealloc: bool, signalled: set<nat>)
    requires Enabled(s, Send(msg, hasDealloc, signalled)) && Awake(s)
    ensures Awake(Next(s, Send(msg, hasDealloc, signalled)))
  {
    if signalled == {} {
      assert s.sleeping - signalled == s.sleeping && s.woken + signalled == s.woken;
    } else {
      var w :| w in signalled;
      Larger(s.woken, signalled, w);
    }
  }

  lemma LookKeepsAwake(s: State, r: nat, entering: bool)
    requires Awake(s) && r !in s.sleeping && (entering <==> r !in s.woken)
    ensures Awake(Look(s, r, entering))
  {
    if entering {
      assert s.woken - {r} == s.woken;
    }
  }

  lemma StepKeepsAwake(s: State, l: Label)
    requires Enabled(s, l) && Awake(s)
    ensures Awake(Next(s, l))
  {
    match l
    case Send(msg, hasDealloc, signalled) => SendKeepsAwake(s, msg, hasDealloc, signalled);
    case Enter(r) => LookKeepsAwake(s, r, true);
    case Wake(r) => LookKeepsAwake(s, r, false);
    case Spurious(r) =>
    case FlushQueue =>
    case Unblock =>
  }

  lemma Larger(a: set<nat>, b: set<nat>, w: nat)
    requires w in b && w !in a
    ensures |a + b| >= |a| + 1
  {
    assert a + b == (a + {w}) + (b - {w} - a);
  }

  // ---------- Theorems ----------

  lemma {:induction false} RunKeepsInvariant(s: State, ls: seq<Label>)
    requires CanRun(s, ls) && InOrder(s) && Awake(s)
    ensures InOrder(Run(s, ls)) && Awake(Run(s, ls))
    decreases |ls|
  {
    if ls != [] {
      StepKeepsOrder(s, ls[0]);
      StepKeepsAwake(s, ls[0]);
      RunKeepsInvariant(Next(s, ls[0]), ls[1..]);
    }
  }

  lemma {:induction false} ReversedAt(items: seq<Item>, k: nat)
    requires k < |items|
    ensures |Reversed(items)| == |items| && Reversed(items)[k] == items[|items| - 1 - k]
  {
    if |items| > 1 { ReversedAt(items[1..], if k < |items| - 1 then k else 0); }
  }

  lemma OrderMeans(s: State)
    requires InOrder(s)
    ensures |s.accepted| == |s.gone| + |s.content.items|
    ensures forall k | 0 <= k < |s.gone| :: s.gone[k].item == s.accepted[k]
    ensures forall k | |s.gone| <= k < |s.accepted| ::
              s.content.items[|s.accepted| - 1 - k] == s.accepted[k]
  {
    var items := s.content.items;
    if items != [] { ReversedAt(items, 0); }
    assert forall k | 0 <= k < |s.gone| :: s.accepted[k] == Items(s.gone)[k];
    forall k | |s.gone| <= k < |s.accepted| ensures items[|s.accepted| - 1 - k] == s.accepted[k] {
      ReversedAt(items, k - |s.gone|);
    }
  }

  /** Over every interleaving: of the accepted messages the first ones sent are gone, each received
      or flushed once, and the rest are queued, the oldest at the tail. */
  lemma FirstInFirstOut(ls: seq<Label>)
    requires CanRun(INIT, ls)
    ensures var s := Run(INIT, ls);
      && |s.accepted| == |s.gone| + |s.content.items|
      && (forall k | 0 <= k < |s.gone| :: s.gone[k].item == s.accepted[k])
      && (forall k | |s.gone| <= k < |s.accepted| :: s.content.items[|s.accepted| - 1 - k] == s.accepted[k])
  {
    RunKeepsInvariant(INIT, ls);
    OrderMeans(Run(INIT, ls));
  }

  /** Over every interleaving: while a receiver sleeps, every queued message has a woken receiver on
      its way, and after the queue was unblocked nobody sleeps. */
  lemma NobodySleepsOnAMessage(ls: seq<Label>)
    requires CanRun(INIT, ls)
    ensures var s := Run(INIT, ls);
      s.sleeping != {} ==> !s.content.unblocked && |s.content.items| <= |s.woken|
  {
    RunKeepsInvariant(INIT, ls);
  }

  function WakeAll(rs: seq<nat>): (ls: seq<Label>)
    ensures |ls| == |rs|
  {
    if rs == [] then [] else [Wake(rs[0])] + WakeAll(rs[1..])
  }

  lemma {:induction false} WakingTakes(s: State, rs: seq<nat>)
    requires forall i | 0 <= i < |rs| :: rs[i] in s.woken
    requires forall i, j | 0 <= i < j < |rs| :: rs[i] != rs[j]
    requires !s.content.unblocked
    ensures CanRun(s, WakeAll(rs))
    ensures var n := |Run(s, WakeAll(rs)).content.items|;
      n == if |rs| <= |s.content.items| then |s.content.items| - |rs| else 0
    decreases |rs|
  {
    if rs != [] {
      var t := Next(s, Wake(rs[0]));
      WakingTakes(t, rs[1..]);
      assert WakeAll(rs)[1..] == WakeAll(rs[1..]);
    }
  }

  /** While a receiver sleeps, the woken receivers alone empty the queue, in whatever order they get
      the lock. */
  lemma WokenReceiversEmptyTheQueue(ls: seq<Label>, rs: seq<nat>)
    requires CanRun(INIT, ls) && Run(INIT, ls).sleeping != {}
    requires var s := Run(INIT, ls);
      && |rs| == |s.woken| && (forall i | 0 <= i < |rs| :: rs[i] in s.woken)
      && (forall i, j | 0 <= i < j < |rs| :: rs[i] != rs[j])
    ensures var s := Run(INIT, ls);
      && CanRun(s, WakeAll(rs)) && Run(s, WakeAll(rs)).content.items == []
  {
    RunKeepsInvariant(INIT, ls);
    WakingTakes(Run(INIT, ls), rs);
  }

  function Receipts(gone: seq<Gone>): nat {
    if gone == [] then 0 else (if gone[|gone| - 1].Received? then 1 else 0) + Receipts(gone[..|gone| - 1])
  }

  lemma {:induction false} ReceiptsOfSum(gone: seq<Gone>, items: seq<Item>)
    ensures Receipts(gone + AllFlushed(items)) == Receipts(gone)
  {
    if items == [] {
      assert gone + AllFlushed(items) == gone;
    } else {
      var all := gone + AllFlushed(items);
      assert all[..|all| - 1] == gone + AllFlushed(items[1..]);
      ReceiptsOfSum(gone, items[1..]);
    }
  }

  lemma LookAfterUnblock(s: State, r: nat, entering: bool)
    requires s.content.unblocked && s.sleeping == {} && (if entering then r !in s.woken else r in s.woken)
    ensures var t := Look(s, r, entering);
      && t.content.unblocked && t.sleeping == {} && t.accepted == s.accepted
      && Receipts(t.gone) + |t.woken| <= Receipts(s.gone) + |s.woken|
  {
    var t := Look(s, r, entering);
    if entering { assert s.woken - {r} == s.woken; }
    if t.gone != s.gone { assert t.gone[..|t.gone| - 1] == s.gone; }
  }

  lemma StepAfterUnblock(s: State, l: Label)
    requires Enabled(s, l) && s.content.unblocked && s.sleeping == {}
    ensures var t := Next(s, l);
      && t.content.unblocked && t.sleeping == {} && t.accepted == s.accepted
      && Receipts(t.gone) + |t.woken| <= Receipts(s.gone) + |s.woken|
  {
    match l
    case Send(_, _, signalled) =>
      assert s.woken + signalled == s.woken;
    case Enter(r) => LookAfterUnblock(s, r, true);
    case Wake(r) => LookAfterUnblock(s, r, false);
    case FlushQueue => ReceiptsOfSum(s.gone, s.content.items);
    case Unblock =>
  }

  /** Once unblocked, whatever happens next, no message is accepted, nobody sleeps, and only the
      receivers that were already waiting can still take messages, one each. */
  lemma {:induction false} NothingAcceptedAfterUnblock(s: State, ls: seq<Label>)
    requires s.content.unblocked && s.sleeping == {} && CanRun(s, ls)
    ensures var t := Run(s, ls);
      && t.content.unblocked && t.sleeping == {} && t.accepted == s.accepted
      && Receipts(t.gone) + |t.woken| <= Receipts(s.gone) + |s.woken|
    decreases |ls|
  {
    if ls != [] {
      StepAfterUnblock(s, ls[0]);
      NothingAcceptedAfterUnblock(Next(s, ls[0]), ls[1..]);
    }
  }

  // ---------- What receivers are given ----------

  datatype Delivery = Delivery(receiver: nat, data: nat)

  /** The data that receive calls returned, in order. */
  function Deliveries(replies: seq<Reply>): seq<Delivery> {
    if replies == [] then []
    else
      var last := replies[|replies| - 1];
      Deliveries(replies[..|replies| - 1])
        + if last.receipt.Returns? && last.receipt.out.Some? then [Delivery(last.receiver, last.receipt.out.value)] else []
  }

  /** The messages that left the queue to a receiver, in order. */
  function Receptions(gone: seq<Gone>): seq<Delivery> {
    if gone == [] then []
    else
      var last := gone[|gone| - 1];
      Receptions(gone[..|gone| - 1]) + if last.Received? then [Delivery(last.receiver, last.item.data)] else []
  }

  /** A call returns data and success, or neither; and fails only because the queue was unblocked. */
  predicate Proper(r: Receipt, unblocked: bool) {
    && r.Returns? && (r.err == Success <==> r.out.Some?)
    && (r.err != Success ==> r.err == UnavailableResource && unblocked)
  }

  predicate AllProper(replies: seq<Reply>, unblocked: bool) {
    forall i | 0 <= i < |replies| :: Proper(replies[i].receipt, unblocked)
  }

  predicate RepliesOk(s: State) {
    Deliveries(s.replies) == Receptions(s.gone) && AllProper(s.replies, s.content.unblocked)
  }

  lemma OneMoreIsProper(replies: seq<Reply>, r: Reply, unblocked: bool)
    requires AllProper(replies, unblocked) && Proper(r.receipt, unblocked)
    ensures AllProper(replies + [r], unblocked)
  {
  }

  lemma OneMoreReply(replies: seq<Reply>, r: Reply)
    ensures Deliveries(replies + [r]) == Deliveries(replies)
      + if r.receipt.Returns? && r.receipt.out.Some? then [Delivery(r.receiver, r.receipt.out.value)] else []
  {
    assert (replies + [r])[..|replies|] == replies;
  }

  lemma {:induction false} FlushedReceiveNothing(gone: seq<Gone>, items: seq<Item>)
    ensures Receptions(gone + AllFlushed(items)) == Receptions(gone)
  {
    if items == [] {
      assert gone + AllFlushed(items) == gone;
    } else {
      var all := gone + AllFlushed(items);
      assert all[..|all| - 1] == gone + AllFlushed(items[1..]);
      FlushedReceiveNothing(gone, items[1..]);
    }
  }

  lemma OneMoreReception(gone: seq<Gone>, r: nat, item: Item)
    ensures Receptions(gone + [Received(r, item)]) == Receptions(gone) + [Delivery(r, item.data)]
  {
    assert (gone + [Received(r, item)])[..|gone|] == gone;
  }

  lemma SuccessIsBoth(replies: seq<Reply>, gone: seq<Gone>, r: nat, item: Item)
    requires Deliveries(replies) == Receptions(gone)
    ensures Deliveries(replies + [Reply(r, Returns(Success, Some(item.data)))])
         == Receptions(gone + [Received(r, item)])
  {
    OneMoreReply(replies, Reply(r, Returns(Success, Some(item.data))));
    OneMoreReception(gone, r, item);
  }

  lemma FailureIsNeither(replies: seq<Reply>, r: nat, err: Error)
    ensures Deliveries(replies + [Reply(r, Returns(err, None))]) == Deliveries(replies)
  {
    OneMoreReply(replies, Reply(r, Returns(err, None)));
  }

  predicate Takes(s: State, entering: bool) {
    s.content.items != [] && !(entering && s.content.unblocked)
  }

  lemma LookRecords(s: State, r: nat, entering: bool)
    ensures var t := Look(s, r, entering); var items := s.content.items;
      && t.content.unblocked == s.content.unblocked
      && (if Takes(s, entering) then
            && t.replies == s.replies + [Reply(r, Returns(Success, Some(items[|items| - 1].data)))]
            && t.gone == s.gone + [Received(r, items[|items| - 1])]
          else
            && t.gone == s.gone
            && t.replies == s.replies
                 + if s.content.unblocked then [Reply(r, Returns(UnavailableResource, None))] else [])
  {
  }

  lemma LookKeepsReplies(s: State, r: nat, entering: bool)
    requires RepliesOk(s)
    ensures RepliesOk(Look(s, r, entering))
  {
    LookRecords(s, r, entering);
    if Takes(s, entering) {
      var item := s.content.items[|s.content.items| - 1];
      SuccessIsBoth(s.replies, s.gone, r, item);
      OneMoreIsProper(s.replies, Reply(r, Returns(Success, Some(item.data))), s.content.unblocked);
    } else if s.content.unblocked {
      FailureIsNeither(s.replies, r, UnavailableResource);
      OneMoreIsProper(s.replies, Reply(r, Returns(UnavailableResource, None)), s.content.unblocked);
    }
  }

  lemma StepKeepsReplies(s: State, l: Label)
    requires Enabled(s, l) && RepliesOk(s)
    ensures RepliesOk(Next(s, l))
  {
    match l
    case Enter(r) => LookKeepsReplies(s, r, true);
    case Wake(r) => LookKeepsReplies(s, r, false);
    case FlushQueue => FlushedReceiveNothing(s.gone, s.content.items);
    case _ =>
  }

  lemma {:induction false} RunKeepsReplies(s: State, ls: seq<Label>)
    requires CanRun(s, ls) && RepliesOk(s)
    ensures RepliesOk(Run(s, ls))
    decreases |ls|
  {
    if ls != [] {
      StepKeepsReplies(s, ls[0]);
      RunKeepsReplies(Next(s, ls[0]), ls[1..]);
    }
  }

  /** Over every interleaving: each message that left to a receiver was returned to that receiver by a
      successful call, its own data and in the order of sending; every other call that returned had an
      error and no data, and the queue had been unblocked. */
  lemma ReceiversAreGivenWhatLeft(ls: seq<Label>)
    requires CanRun(INIT, ls)
    ensures var s := Run(INIT, ls);
      && Deliveries(s.replies) == Receptions(s.gone)
      && Items(s.gone) <= s.accepted
      && (forall i | 0 <= i < |s.replies| :: Proper(s.replies[i].receipt, s.content.unblocked))
  {
    RunKeepsReplies(INIT, ls);
    RunKeepsInvariant(INIT, ls);
  }

  function Entries(ls: seq<Label>, r: nat): nat {
    if ls == [] then 0 else (if ls[0] == Enter(r) then 1 else 0) + Entries(ls[1..], r)
  }

  function RepliesTo(replies: seq<Reply>, r: nat): nat {
    if replies == [] then 0
    else RepliesTo(replies[..|replies| - 1], r) + if replies[|replies| - 1].receiver == r then 1 else 0
  }

  /** Calls of receiver `r` that have returned, and the one it is in, if any. */
  function CallsOf(s: State, r: nat): nat {
    RepliesTo(s.replies, r) + if r in s.sleeping || r in s.woken then 1 else 0
  }

  lemma RepliesOneMore(replies: seq<Reply>, reply: Reply, r: nat)
    ensures RepliesTo(replies + [reply], r) == RepliesTo(replies, r) + if reply.receiver == r then 1 else 0
  {
    assert (replies + [reply])[..|replies|] == replies;
  }

  lemma LookCountsCalls(s: State, who: nat, entering: bool, r: nat)
    requires who !in s.sleeping && (entering <==> who !in s.woken)
    ensures CallsOf(Look(s, who, entering), r) == CallsOf(s, r) + if entering && r == who then 1 else 0
  {
    var receipt := Receiving(s.content, entering).0;
    if receipt.Returns? { RepliesOneMore(s.replies, Reply(who, receipt), r); }
  }

  lemma StepCountsCalls(s: State, l: Label, r: nat)
    requires Enabled(s, l) && s.sleeping !! s.woken
    ensures CallsOf(Next(s, l), r) == CallsOf(s, r) + if l == Enter(r) then 1 else 0
  {
    match l
    case Enter(e) => LookCountsCalls(s, e, true, r);
    case Wake(w) => LookCountsCalls(s, w, false, r);
    case _ =>
  }

  lemma {:induction false} RunCountsCalls(s: State, ls: seq<Label>, r: nat)
    requires CanRun(s, ls) && Awake(s)
    ensures CallsOf(Run(s, ls), r) == CallsOf(s, r) + Entries(ls, r)
    decreases |ls|
  {
    if ls != [] {
      StepCountsCalls(s, ls[0], r);
      StepKeepsAwake(s, ls[0]);
      RunCountsCalls(Next(s, ls[0]), ls[1..], r);
    }
  }

  /** Over every interleaving no receiver is forgotten: each receive call has returned, once, or its
      caller sleeps or has been woken. */
  lemma NoReceiverIsForgotten(ls: seq<Label>, r: nat)
    requires CanRun(INIT, ls)
    ensures var s := Run(INIT, ls);
      Entries(ls, r) == RepliesTo(s.replies, r) + if r in s.sleeping || r in s.woken then 1 else 0
  {
    RunCountsCalls(INIT, ls, r);
  }

  // ---------- Deallocation ----------

  lemma {:induction false} FreesOfSum(a: seq<Gone>, b: seq<Gone>, p: nat)
    ensures Frees(a + b, p) == Frees(a, p) + Frees(b, p)
  {
    if a == [] {
      assert a + b == b;
    } else {
      assert (a + b)[1..] == a[1..] + b;
      FreesOfSum(a[1..], b, p);
    }
  }

  lemma {:induction false} CallsOfSum(a: seq<nat>, b: seq<nat>, p: nat)
    ensures Calls(a + b, p) == Calls(a, p) + Calls(b, p)
  {
    if a == [] {
      assert a + b == b;
    } else {
      assert (a + b)[1..] == a[1..] + b;
      CallsOfSum(a[1..], b, p);
    }
  }

  lemma {:induction false} FlushFreesEach(items: seq<Item>, p: nat)
    ensures Frees(AllFlushed(items), p) == Calls(Deallocated(items), p)
  {
    if items != [] {
      FlushFreesEach(items[1..], p);
      FreesOfSum(AllFlushed(items[1..]), [Flushed(items[0])], p);
      CallsOfSum(if items[0].hasDealloc then [items[0].data] else [], Deallocated(items[1..]), p);
    }
  }

  lemma StepFrees(s: State, l: Label, p: nat)
    requires Enabled(s, l) && Calls(s.dealloced, p) == Frees(s.gone, p)
    ensures var t := Next(s, l); Calls(t.dealloced, p) == Frees(t.gone, p)
  {
    var items := s.content.items;
    if l.FlushQueue? {
      FlushFreesEach(items, p);
      FreesOfSum(s.gone, AllFlushed(items), p);
      CallsOfSum(s.dealloced, Deallocated(items), p);
    } else if (l.Enter? || l.Wake?) && items != [] {
      FreesOfSum(s.gone, [Received(l.receiver, items[|items| - 1])], p);
    }
  }

  /** Over every interleaving a message is deallocated exactly as often as it was flushed with a
      deallocator; one that was received never is. */
  lemma {:induction false} OnlyFlushDeallocates(s: State, ls: seq<Label>, p: nat)
    requires CanRun(s, ls) && Calls(s.dealloced, p) == Frees(s.gone, p)
    ensures Calls(Run(s, ls).dealloced, p) == Frees(Run(s, ls).gone, p)
    decreases |ls|
  {
    if ls != [] {
      StepFrees(s, ls[0], p);
      OnlyFlushDeallocates(Next(s, ls[0]), ls[1..], p);
    }
  }
}

/** The queue over the doubly linked list; each method is one region under the lock. */
module MsgQueues {
  import opened Options
  import opened LinkedListModel
  import opened LinkedLists
  import P = MsgQueueProtocol

  class MsgQueue {
    const msgList: LinkedList
    var unblocked: bool

    ghost predicate Valid()
      reads this, msgList, msgList.nodes
    {
      msgList.Valid()
    }

    ghost function Content(): P.Content
      reads this, msgList
    {
      P.Content(msgList.Items(), unblocked)
    }

    constructor ()
      ensures Valid() && fresh(msgList) && Content() == P.INIT.content
    {
      msgList := new LinkedList();
      unblocked := false;
    }

    method Snd(msg: nat, hasDealloc: bool) returns (err: Error)
      requires Valid()
      modifies msgList, msgList.nodes
      ensures Valid()
      ensures err == if msg == 0 then InvalidParameter else if unblocked then UnavailableResource else Success
      ensures msgList.Items() == (if err == Success then [Item(msg, hasDealloc)] else []) + old(msgList.Items())
      ensures (err, Content()) == P.Sending(old(Content()), msg, hasDealloc)
    {
      if msg == 0 { return InvalidParameter; }
      if unblocked { return UnavailableResource; }
      err := msgList.Add(msg, hasDealloc);
    }

    /** What a receiver does each time it holds the lock: on entry, and after each wait. */
    method Rcv(entering: bool) returns (receipt: P.Receipt)
      requires Valid()
      modifies msgList, msgList.nodes
      ensures Valid()
      ensures receipt.Waits? <==> old(msgList.Items()) == [] && !unblocked
      ensures receipt.Returns? ==>
                if old(msgList.Items()) == [] || (entering && unblocked)
                then receipt == P.Returns(UnavailableResource, None) && msgList.Items() == old(msgList.Items())
                else var n := |old(msgList.Items())| - 1;
                  && receipt == P.Returns(Success, Some(old(msgList.Items())[n].data))
                  && msgList.Items() == old(msgList.Items())[..n]
      ensures (receipt, Content()) == P.Receiving(old(Content()), entering)
    {
      if entering && unblocked { return P.Returns(UnavailableResource, None); }
      var empty := msgList.Empty();
      if empty && !unblocked { return P.Waits; }
      var err, out := msgList.Remove(true);
      return P.Returns(err, out);
    }

    method Flush()
      requires Valid()
      modifies msgList
      ensures Valid() && msgList.Items() == []
      ensures Content() == old(Content()).(items := After(old(msgList.Items()), LinkedListModel.Flush))
      ensures msgList.dealloced == old(msgList.dealloced) + Deallocated(old(msgList.Items()))
    {
      msgList.Flush();
    }

    method Unblock() returns (err: Error)
      requires Valid()
      modifies this`unblocked
      ensures Valid() && unblocked
      ensures err == if old(unblocked) then UnavailableResource else Success
      ensures (err, Content()) == P.Unblocking(old(Content()))
    {
      if unblocked { return UnavailableResource; }
      unblocked := true;
      return Success;
    }
  }
}
