/** What every step of the timer service keeps, over every interleaving. */
module LocTimerInvariant {
  import opened Options
  import opened LocTimerClock
  import opened LocHeapTree
  import opened LocTimerProtocol

  // ---------- Counting ----------

  function CountOf<T(==)>(q: seq<T>, x: T): nat {
    if q == [] then 0 else (if q[0] == x then 1 else 0) + CountOf(q[1..], x)
  }

  lemma {:induction false} CountAppend<T>(q: seq<T>, y: T, x: T)
    ensures CountOf(q + [y], x) == CountOf(q, x) + if x == y then 1 else 0
  {
    if q == [] {
      assert q + [y] == [y];
    } else {
      assert (q + [y])[1..] == q[1..] + [y];
      CountAppend(q[1..], y, x);
    }
  }

  lemma {:induction false} CountMember<T>(q: seq<T>, x: T)
    ensures CountOf(q, x) > 0 <==> x in q
  {
    if q != [] {
      CountMember(q[1..], x);
      assert x in q <==> x == q[0] || x in q[1..];
    }
  }

  // ---------- The parts of the invariant ----------

  ghost predicate HeapOk(s: State, k: Kind) {
    var heap := Get(s, k).heap;
    && Sound(heap)
    && forall x: Rankable | Occurrences(heap, x) > 0 ::
         x.id < |s.dels| && s.dels[x.id].kind == k && x == Ranked(s, x.id)
  }

  predicate MsgOk(s: State, m: Msg) {
    m.MsgExpire? || (m.timer < |s.dels| && s.dels[m.timer].kind == m.kind)
  }

  predicate DelOk(s: State, del: Option<nat>) {
    del.Some? ==> del.value < |s.dels|
  }

  predicate PcOk(s: State) {
    match s.msg
    case Idle => true
    case AddPoll(k, t, del) => Tops(s, k, t) && DelOk(s, del)
    case SetTime(k, t, del) => Tops(s, k, t) && DelOk(s, del)
    case Deleting(d) => d < |s.dels|
    case Popping(k, at, first) => true
    case Firing(k, at, d) => d < |s.dels|
    case Stopping(k, at, d, c) => d < |s.dels| && s.dels[d].client == c
  }

  /** The heap's top is due at `t`. */
  predicate Tops(s: State, k: Kind, t: Timespec) {
    var heap := Get(s, k).heap;
    heap.Node? && heap.data.id < |s.dels| && s.dels[heap.data.id].due == t
  }

  predicate Positive(t: Timespec) {
    Normal(t) && Nanos(t) > 0
  }

  ghost predicate Base(s: State) {
    && Positive(s.now)
    && (forall d | 0 <= d < |s.dels| :: Positive(s.dels[d].due))
    && (forall i | 0 <= i < |s.queue| :: MsgOk(s, s.queue[i]))
    && (forall c <- s.running :: s.running[c] < |s.dels|
                             && s.dels[s.running[c]].client == c && s.dels[s.running[c]].live)
    && (forall e <- s.freed :: e < |s.dels|)
    && HeapOk(s, SwTimers) && HeapOk(s, HwTimers)
    && PcOk(s)
  }

  // ---------- Where a delegate is ----------

  function PushOf(s: State, d: nat): Msg
    requires d < |s.dels|
  {
    MsgPush(s.dels[d].kind, d)
  }

  function RemoveOf(s: State, d: nat): Msg
    requires d < |s.dels|
  {
    MsgRemove(s.dels[d].kind, d)
  }

  function InHeap(s: State, d: nat): nat
    requires d < |s.dels|
  {
    Occurrences(Get(s, s.dels[d].kind).heap, Ranked(s, d))
  }

  /** Popped by the expire loop, which has not dealt with it yet. */
  predicate Held(pc: MsgPc, d: nat) {
    (pc.Firing? || pc.Stopping?) && pc.d == d
  }

  /** About to be deleted by the remove message being processed. */
  predicate Doomed(pc: MsgPc, d: nat) {
    match pc
    case AddPoll(_, _, del) => del == Some(d)
    case SetTime(_, _, del) => del == Some(d)
    case Deleting(e) => e == d
    case _ => false
  }

  ghost predicate PushFirst(q: seq<Msg>, p: Msg, r: Msg) {
    forall i, j | 0 <= i < |q| && 0 <= j < |q| && q[i] == p && q[j] == r :: i < j
  }

  /** The life of one delegate: its push is queued, or it is in its heap, or the expire loop holds
      it, or it has been popped; it gets exactly one remove message, once it is no longer live, and
      that message is what deletes it. */
  ghost predicate DelegateOk(s: State, d: nat)
    requires d < |s.dels|
  {
    var pushes, removes := CountOf(s.queue, PushOf(s, d)), CountOf(s.queue, RemoveOf(s, d));
    && pushes + InHeap(s, d) + (if Held(s.msg, d) then 1 else 0) <= 1
    && PushFirst(s.queue, PushOf(s, d), RemoveOf(s, d))
    && removes + (if Doomed(s.msg, d) then 1 else 0) + CountOf(s.freed, d)
         == (if s.dels[d].live then 0 else 1)
    && (removes == 0 && !s.dels[d].live ==>
          pushes + InHeap(s, d) + (if Held(s.msg, d) then 1 else 0) == 0)
    && (s.dels[d].live ==>
          && pushes + InHeap(s, d) + (if Held(s.msg, d) then 1 else 0) == 1
          && s.dels[d].client in s.running && s.running[s.dels[d].client] == d)
  }

  ghost predicate DelegatesOk(s: State) {
    forall d | 0 <= d < |s.dels| :: DelegateOk(s, d)
  }

  // ---------- Wakeups ----------

  /** The poll thread has woken for this descriptor and not yet sent its expire message. */
  predicate Pending(s: State, k: Kind) {
    s.poll.Handling? && (s.poll.k == k || s.poll.next == Some(k))
  }

  predicate Expiring(s: State, k: Kind) {
    (s.msg.Popping? || s.msg.Firing? || s.msg.Stopping?) && s.msg.k == k
  }

  predicate Arming(s: State, k: Kind) {
    (s.msg.AddPoll? || s.msg.SetTime?) && s.msg.k == k
  }

  predicate ArmedForTop(s: State, k: Kind) {
    var c := Get(s, k);
    c.armed.Some? && Tops(s, k, c.armed.value) && c.polled
  }

  /** A non-empty heap is never forgotten. */
  predicate Watched(s: State, k: Kind) {
    Get(s, k).heap.Node? ==>
      ArmedForTop(s, k) || Pending(s, k) || MsgExpire(k) in s.queue || Expiring(s, k) || Arming(s, k)
  }

  predicate WakeOk(s: State, k: Kind) {
    && Watched(s, k)
    && (s.msg.SetTime? && s.msg.k == k ==>
          Get(s, k).polled || Pending(s, k) || MsgExpire(k) in s.queue)
    && (s.poll.Handling? ==> s.poll.next != Some(s.poll.k))
  }

  ghost predicate Inv(s: State) {
    Base(s) && DelegatesOk(s) && WakeOk(s, SwTimers) && WakeOk(s, HwTimers)
  }
}
