/** What a list of (data pointer, deallocator) pairs goes through, head first. A data pointer is a
    number, 0 being NULL. */
module LinkedListModel {
  import opened Sequences
  import opened Options

  datatype Item = Item(data: nat, hasDealloc: bool)

  datatype Error = Success | FailureGeneral | InvalidParameter | InvalidHandle | UnavailableResource | InsufficientBuffer

  /** The first item that compares equal, as an index; the length if there is none. */
  function FirstMatch(items: seq<Item>, equal: nat -> bool): (i: nat)
    ensures i <= |items|
    ensures forall j | 0 <= j < i :: !equal(items[j].data)
    ensures i < |items| ==> equal(items[i].data)
  {
    if items == [] || equal(items[0].data) then 0 else 1 + FirstMatch(items[1..], equal)
  }

  function Without(items: seq<Item>, i: nat): seq<Item>
    requires i < |items|
  {
    items[..i] + items[i + 1..]
  }

  /** The data pointers whose deallocator a flush calls, in order. */
  function Deallocated(items: seq<Item>): seq<nat> {
    if items == [] then []
    else (if items[0].hasDealloc then [items[0].data] else []) + Deallocated(items[1..])
  }

  lemma {:induction false} DeallocatedOfSum(a: seq<Item>, b: seq<Item>)
    ensures Deallocated(a + b) == Deallocated(a) + Deallocated(b)
  {
    if a == [] {
      assert a + b == b;
    } else {
      assert (a + b)[1..] == a[1..] + b;
      DeallocatedOfSum(a[1..], b);
      Regroup(if a[0].hasDealloc then [a[0].data] else [], Deallocated(a[1..]), Deallocated(b));
    }
  }

  lemma DeallocatedOfOne(item: Item)
    ensures Deallocated([item]) == if item.hasDealloc then [item.data] else []
  {
    assert [item][1..] == [];
  }

  /** A flush calls the deallocators there are, from head to tail. */
  lemma {:induction false} DeallocatedHeadFirst(a: seq<Item>, item: Item, b: seq<Item>)
    ensures Deallocated(a + [item] + b)
         == Deallocated(a) + (if item.hasDealloc then [item.data] else []) + Deallocated(b)
  {
    DeallocatedOfSum(a + [item], b);
    DeallocatedOfSum(a, [item]);
    DeallocatedOfOne(item);
  }

  // ---------- Whole runs ----------

  datatype Op =
    | Add(item: Item)
    | Remove
    | Search(equal: nat -> bool, wantsData: bool, rm: bool)
    | Flush

  /** What a call writes to the place it was given, and the deallocators it calls. */
  datatype Result = Result(out: Option<nat>, deallocs: seq<nat>)

  function ResultOf(items: seq<Item>, op: Op): Result {
    match op
    case Add(item) => Result(None, [])
    case Remove => Result(if items == [] then None else Some(items[|items| - 1].data), [])
    case Search(equal, wantsData, rm) =>
      var i := FirstMatch(items, equal);
      if items == [] then Result(None, [])
      else if i == |items| then Result(if wantsData then Some(0) else None, [])
      else if wantsData then Result(Some(items[i].data), [])
      else Result(None, if rm && items[i].hasDealloc then [items[i].data] else [])
    case Flush => Result(None, Deallocated(items))
  }

  /** The contract of `LinkedLists.LinkedList.Search` in terms of what an operation does. */
  lemma SearchResult(items: seq<Item>, equal: nat -> bool, wantsData: bool, rm: bool)
    requires items != []
    ensures var op := Search(equal, wantsData, rm); var i := FirstMatch(items, equal);
      && After(items, op) == (if rm && i < |items| then items[..i] + items[i + 1..] else items)
      && ResultOf(items, op) == Result(
           if !wantsData then None else if i < |items| then Some(items[i].data) else Some(0),
           if rm && i < |items| && !wantsData && items[i].hasDealloc then [items[i].data] else [])
  {
  }

  /** Where every item that was ever added is now: still listed, handed to a caller, deallocated, or
      unlinked with nobody told. `returned` is the data written by the calls that took an item out, and
      `calls` the deallocator calls, both in order. */
  datatype Fates = Fates(listed: seq<Item>, added: seq<Item>, handed: seq<Item>, freed: seq<Item>, lost: seq<Item>,
                         returned: seq<nat>, calls: seq<nat>)

  function Drop(f: Fates, item: Item): Fates {
    if item.hasDealloc then f.(freed := f.freed + [item]) else f.(lost := f.lost + [item])
  }

  function DropAll(f: Fates, items: seq<Item>): Fates
    decreases |items|
  {
    if items == [] then f else DropAll(Drop(f, items[0]), items[1..])
  }

  /** What is listed after an operation. */
  function After(items: seq<Item>, op: Op): seq<Item> {
    match op
    case Add(item) => if item.data == 0 then items else [item] + items
    case Remove => if items == [] then items else items[..|items| - 1]
    case Search(equal, wantsData, rm) =>
      var i := FirstMatch(items, equal);
      if rm && i < |items| then Without(items, i) else items
    case Flush => []
  }

  function Apply(f: Fates, op: Op): Fates {
    var r := ResultOf(f.listed, op);
    var t := Moved(f, op);
    t.(returned := if |t.listed| < |f.listed| && r.out.Some? then f.returned + [r.out.value] else f.returned,
       calls := f.calls + r.deallocs)
  }

  function Moved(f: Fates, op: Op): Fates {
    var g := f.(listed := After(f.listed, op));
    match op
    case Add(item) => if item.data == 0 then g else g.(added := f.added + [item])
    case Remove => if f.listed == [] then g else g.(handed := f.handed + [f.listed[|f.listed| - 1]])
    case Search(equal, wantsData, rm) =>
      var i := FirstMatch(f.listed, equal);
      if !rm || i == |f.listed| then g
      else if wantsData then g.(handed := f.handed + [f.listed[i]])
      else Drop(g, f.listed[i])
    case Flush => DropAll(g, f.listed)
  }

  function RunOps(ops: seq<Op>): Fates {
    if ops == [] then Fates([], [], [], [], [], [], []) else Apply(RunOps(ops[..|ops| - 1]), ops[|ops| - 1])
  }

  function Times(items: seq<Item>, x: Item): nat {
    if items == [] then 0 else (if items[0] == x then 1 else 0) + Times(items[1..], x)
  }

  lemma {:induction false} TimesOfSum(a: seq<Item>, b: seq<Item>, x: Item)
    ensures Times(a + b, x) == Times(a, x) + Times(b, x)
  {
    if a == [] {
      assert a + b == b;
    } else {
      assert (a + b)[1..] == a[1..] + b;
      TimesOfSum(a[1..], b, x);
    }
  }

  lemma TimesOfOne(item: Item, x: Item)
    ensures Times([item], x) == if item == x then 1 else 0
  {
  }

  function Located(f: Fates, x: Item): nat {
    Times(f.handed, x) + Times(f.freed, x) + Times(f.lost, x)
  }

  lemma DropLocates(f: Fates, item: Item, x: Item)
    ensures var g := Drop(f, item);
      && g.listed == f.listed && g.added == f.added && g.handed == f.handed
      && Located(g, x) == Located(f, x) + (if item == x then 1 else 0)
  {
    TimesOfSum(f.freed, [item], x);
    TimesOfSum(f.lost, [item], x);
    TimesOfOne(item, x);
  }

  lemma {:induction false} DropAllLocates(f: Fates, items: seq<Item>, x: Item)
    ensures var g := DropAll(f, items);
      && g.listed == f.listed && g.added == f.added && g.handed == f.handed
      && Located(g, x) == Located(f, x) + Times(items, x)
    decreases |items|
  {
    if items != [] {
      DropLocates(f, items[0], x);
      DropAllLocates(Drop(f, items[0]), items[1..], x);
    }
  }

  lemma TimesWithout(items: seq<Item>, i: nat, x: Item)
    requires i < |items|
    ensures Times(Without(items, i), x) + (if items[i] == x then 1 else 0) == Times(items, x)
  {
    assert items == items[..i] + ([items[i]] + items[i + 1..]);
    TimesOfSum(items[..i], [items[i]] + items[i + 1..], x);
    TimesOfSum([items[i]], items[i + 1..], x);
    TimesOfSum(items[..i], items[i + 1..], x);
  }

  lemma SearchConserves(f: Fates, equal: nat -> bool, wantsData: bool, x: Item)
    requires FirstMatch(f.listed, equal) < |f.listed|
    ensures var g := Moved(f, Search(equal, wantsData, true));
      && g.added == f.added
      && Times(g.listed, x) + Located(g, x) == Times(f.listed, x) + Located(f, x)
  {
    var i := FirstMatch(f.listed, equal);
    TimesWithout(f.listed, i, x);
    TimesOfSum(f.handed, [f.listed[i]], x);
    TimesOfOne(f.listed[i], x);
    DropLocates(f.(listed := Without(f.listed, i)), f.listed[i], x);
  }

  predicate Conserved(f: Fates, x: Item) {
    Times(f.added, x) == Times(f.listed, x) + Located(f, x)
  }

  lemma AddConserves(f: Fates, item: Item, x: Item)
    requires Conserved(f, x)
    ensures Conserved(Moved(f, Add(item)), x)
  {
    TimesOfSum([item], f.listed, x);
    TimesOfSum(f.added, [item], x);
  }

  lemma RemoveConserves(f: Fates, x: Item)
    requires Conserved(f, x)
    ensures Conserved(Moved(f, Remove), x)
  {
    if f.listed != [] {
      var n := |f.listed| - 1;
      TimesWithout(f.listed, n, x);
      assert Without(f.listed, n) == f.listed[..n];
      TimesOfSum(f.handed, [f.listed[n]], x);
      TimesOfOne(f.listed[n], x);
    }
  }

  lemma ApplyConserves(f: Fates, op: Op, x: Item)
    requires Conserved(f, x)
    ensures Conserved(Apply(f, op), x)
  {
    match op
    case Add(item) => AddConserves(f, item, x);
    case Remove => RemoveConserves(f, x);
    case Search(equal, wantsData, rm) =>
      if rm && FirstMatch(f.listed, equal) < |f.listed| { SearchConserves(f, equal, wantsData, x); }
    case Flush =>
      DropAllLocates(f.(listed := []), f.listed, x);
  }

  /** Over every run, each item added is accounted for exactly as often as it was added. */
  lemma {:induction false} NothingDuplicatedOrMissing(ops: seq<Op>, x: Item)
    ensures var f := RunOps(ops); Times(f.added, x) == Times(f.listed, x) + Located(f, x)
  {
    if ops != [] {
      NothingDuplicatedOrMissing(ops[..|ops| - 1], x);
      ApplyConserves(RunOps(ops[..|ops| - 1]), ops[|ops| - 1], x);
    }
  }

  function Data(items: seq<Item>): (ps: seq<nat>)
    ensures |ps| == |items|
  {
    seq(|items|, i requires 0 <= i < |items| => items[i].data)
  }

  lemma DataOfSum(a: seq<Item>, b: seq<Item>)
    ensures Data(a + b) == Data(a) + Data(b)
  {
  }

  predicate Told(f: Fates) {
    f.returned == Data(f.handed) && f.calls == Data(f.freed)
  }

  lemma DropIsTold(f: Fates, item: Item)
    ensures var g := Drop(f, item);
      g.handed == f.handed && Data(g.freed) == Data(f.freed) + Deallocated([item])
  {
    DataOfSum(f.freed, [item]);
    DeallocatedOfOne(item);
  }

  lemma {:induction false} DropAllIsTold(f: Fates, items: seq<Item>)
    ensures var g := DropAll(f, items);
      g.handed == f.handed && Data(g.freed) == Data(f.freed) + Deallocated(items)
    decreases |items|
  {
    if items != [] {
      DropIsTold(f, items[0]);
      DropAllIsTold(Drop(f, items[0]), items[1..]);
    }
  }

  lemma ApplyIsTold(f: Fates, op: Op)
    requires Told(f)
    ensures Told(Apply(f, op))
  {
    var g := f.(listed := After(f.listed, op));
    match op
    case Add(item) =>
    case Remove => if f.listed != [] { DataOfSum(f.handed, [f.listed[|f.listed| - 1]]); }
    case Search(equal, wantsData, rm) =>
      var i := FirstMatch(f.listed, equal);
      if rm && i < |f.listed| {
        DataOfSum(f.handed, [f.listed[i]]);
        DropIsTold(g, f.listed[i]);
      }
    case Flush => DropAllIsTold(g, f.listed);
  }

  /** Over every run: the data written by the calls that took an item out is the data of the items
      handed out, in order, and the deallocators called are those of the items deallocated, in order. */
  lemma {:induction false} CallersAreToldTheTruth(ops: seq<Op>)
    ensures var f := RunOps(ops); f.returned == Data(f.handed) && f.calls == Data(f.freed)
  {
    if ops != [] {
      CallersAreToldTheTruth(ops[..|ops| - 1]);
      ApplyIsTold(RunOps(ops[..|ops| - 1]), ops[|ops| - 1]);
    }
  }

  predicate QueueOnly(ops: seq<Op>) {
    forall i | 0 <= i < |ops| :: ops[i].Add? || ops[i].Remove?
  }

  function Reversed(items: seq<Item>): seq<Item> {
    if items == [] then [] else Reversed(items[1..]) + [items[0]]
  }

  lemma {:induction false} ReversedTakesLast(items: seq<Item>)
    requires items != []
    ensures Reversed(items) == [items[|items| - 1]] + Reversed(items[..|items| - 1])
  {
    if |items| > 1 {
      ReversedTakesLast(items[1..]);
      assert items[1..][..|items| - 2] == items[..|items| - 1][1..];
    }
  }

  lemma ApplyKeepsQueue(f: Fates, op: Op)
    requires (op.Add? || op.Remove?) && f.added == f.handed + Reversed(f.listed)
    ensures var g := Moved(f, op); g.added == g.handed + Reversed(g.listed)
  {
    match op
    case Add(item) =>
      assert ([item] + f.listed)[1..] == f.listed;
    case Remove =>
      if f.listed != [] { ReversedTakesLast(f.listed); }
  }

  /** Used with `add` and `remove` alone the list is a queue: what was handed out, followed by what
      is listed from tail to head, is what was added, in order. */
  lemma {:induction false} AddAndRemoveMakeAQueue(ops: seq<Op>)
    requires QueueOnly(ops)
    ensures var f := RunOps(ops); f.added == f.handed + Reversed(f.listed)
  {
    if ops != [] {
      AddAndRemoveMakeAQueue(ops[..|ops| - 1]);
      ApplyKeepsQueue(RunOps(ops[..|ops| - 1]), ops[|ops| - 1]);
    }
  }
}

/** The doubly linked list: nodes spliced in at the head, taken off at the tail or cut out of the
    middle by rewriting `next` and `prev`. */
module LinkedLists {
  import opened Options
  import opened LinkedListModel

  class ListElement {
    var next: ListElement?
    var prev: ListElement?
    const item: Item

    constructor (item: Item)
      ensures this.item == item && next == null && prev == null
    {
      this.item := item;
      next, prev := null, null;
    }
  }

  function At(nodes: seq<ListElement>, i: int): ListElement? {
    if 0 <= i < |nodes| then nodes[i] else null
  }

  function ItemsOf(nodes: seq<ListElement>): (items: seq<Item>)
    ensures |items| == |nodes|
    ensures forall i | 0 <= i < |nodes| :: items[i] == nodes[i].item
  {
    seq(|nodes|, i requires 0 <= i < |nodes| => nodes[i].item)
  }

  class LinkedList {
    var head: ListElement?
    var tail: ListElement?
    var dealloced: seq<nat>
    ghost var nodes: seq<ListElement>

    /** `nodes` are the elements from head to tail, and every pointer agrees with that order. */
    ghost predicate Valid()
      reads this, nodes
    {
      && head == At(nodes, 0)
      && tail == At(nodes, |nodes| - 1)
      && (head != null ==> head.prev == null)
      && (tail != null ==> tail.next == null)
      && (forall i, j | 0 <= i < j < |nodes| :: nodes[i] != nodes[j])
      && (forall i, j | 0 <= i < |nodes| && 0 <= j < |nodes| && j == i + 1 ::
            nodes[i].next == nodes[j] && nodes[j].prev == nodes[i])
    }

    ghost function Items(): (items: seq<Item>)
      reads this
    {
      ItemsOf(nodes)
    }

    constructor ()
      ensures Valid() && nodes == [] && Items() == [] && dealloced == []
    {
      head, tail, dealloced, nodes := null, null, [], [];
    }

    /** Puts the item in front. */
    method Add(data: nat, hasDealloc: bool) returns (err: Error)
      requires Valid()
      modifies this, nodes
      ensures Valid() && fresh(set n | n in nodes && n !in old(nodes)) && dealloced == old(dealloced)
      ensures err == if data == 0 then InvalidParameter else Success
      ensures Items() == if data == 0 then old(Items()) else [Item(data, hasDealloc)] + old(Items())
      ensures Items() == After(old(Items()), LinkedListModel.Add(Item(data, hasDealloc)))
    {
      if data == 0 { return InvalidParameter; }
      var elem := new ListElement(Item(data, hasDealloc));
      LinkInFront(elem);
      return Success;
    }

    method LinkInFront(elem: ListElement)
      requires Valid() && elem !in nodes && elem.next == null && elem.prev == null
      modifies this`head, this`tail, this`nodes, nodes, elem
      ensures Valid() && nodes == [elem] + old(nodes)
      ensures Items() == [elem.item] + old(Items())
    {
      ghost var was := nodes;
      var tmp := head;
      head := elem;
      head.next := tmp;
      if tmp != null {
        tmp.prev := head;
      } else {
        tail := head;
      }
      nodes := [elem] + was;
      assert forall i | 0 < i < |nodes| :: nodes[i] == was[i - 1];
      assert ItemsOf(nodes) == [elem.item] + ItemsOf(was);
    }

    /** Takes the last item. `wantsData` says whether the caller gave a place to put it. */
    method Remove(wantsData: bool) returns (err: Error, out: Option<nat>)
      requires Valid()
      modifies this, nodes
      ensures Valid() && (forall n | n in nodes :: n in old(nodes)) && dealloced == old(dealloced)
      ensures err == if !wantsData then InvalidParameter
                     else if old(Items()) == [] then UnavailableResource else Success
      ensures Items() == if wantsData then After(old(Items()), LinkedListModel.Remove) else old(Items())
      ensures out == if wantsData then ResultOf(old(Items()), LinkedListModel.Remove).out else None
      ensures err == Success ==>
                var n := |old(Items())| - 1; Items() == old(Items())[..n] && out == Some(old(Items())[n].data)
    {
      if !wantsData { return InvalidParameter, None; }
      if tail == null { return UnavailableResource, None; }
      var tmp := tail;
      assert |nodes| > 1 ==> tmp.prev == nodes[|nodes| - 2];
      tail := tmp.prev;
      if tail != null {
        tail.next := null;
      } else {
        head := tail;
      }
      nodes := nodes[..|nodes| - 1];
      return Success, Some(tmp.item.data);
    }

    predicate Empty()
      reads this, nodes
      requires Valid()
      ensures Empty() <==> Items() == []
    {
      head == null
    }

    /** Frees every element, head first, calling the deallocators there are. */
    method Flush()
      requires Valid()
      modifies this
      ensures Valid() && Items() == [] == After(old(Items()), LinkedListModel.Flush)
      ensures dealloced == old(dealloced) + Deallocated(old(Items()))
    {
      ghost var items, k := Items(), 0;
      while head != null
        invariant nodes == old(nodes) && k <= |nodes| && head == At(nodes, k)
        invariant dealloced + Deallocated(items[k..]) == old(dealloced) + Deallocated(items)
        decreases |nodes| - k
      {
        assert k + 1 < |nodes| ==> head.next == nodes[k + 1];
        DeallocateOne(dealloced, items, k);
        var tmp := head.next;
        if head.item.hasDealloc {
          dealloced := dealloced + [head.item.data];
        }
        head := tmp;
        k := k + 1;
      }
      tail := null;
      nodes := [];
    }

    static lemma DeallocateOne(log: seq<nat>, items: seq<Item>, k: nat)
      requires k < |items|
      ensures log + Deallocated(items[k..])
           == (if items[k].hasDealloc then log + [items[k].data] else log) + Deallocated(items[k + 1..])
    {
      assert items[k..][1..] == items[k + 1..];
    }

    /** The pointers pass over element `i` of `was`, and agree with the order everywhere else. */
    ghost predicate PassesOver(was: seq<ListElement>, i: nat)
      requires i < |was|
      reads this, was
    {
      var n := |was|;
      && (forall j, k | 0 <= j < k < n :: was[j] != was[k])
      && (forall j, k | 0 <= j < n && 0 <= k < n && k == j + 1 && j != i && k != i ::
            was[j].next == was[k] && was[k].prev == was[j])
      && head == At(was, if i == 0 then 1 else 0)
      && tail == At(was, if i == n - 1 then n - 2 else n - 1)
      && (head != null ==> head.prev == null)
      && (tail != null ==> tail.next == null)
      && (0 < i < n - 1 ==> was[i - 1].next == was[i + 1] && was[i + 1].prev == was[i - 1])
    }

    /** Rewrites the pointers around `tmp`. */
    method Bypass(tmp: ListElement, ghost i: nat)
      requires Valid() && i < |nodes| && nodes[i] == tmp
      modifies this`head, this`tail, nodes
      ensures PassesOver(nodes, i)
    {
      assert i > 0 ==> tmp.prev == nodes[i - 1];
      assert i + 1 < |nodes| ==> tmp.next == nodes[i + 1];
      if tmp.prev == null {
        head := tmp.next;
      } else {
        tmp.prev.next := tmp.next;
      }
      if tmp.next == null {
        tail := tmp.prev;
      } else {
        tmp.next.prev := tmp.prev;
      }
      tmp.prev, tmp.next := null, null;
    }

    lemma BypassedIsValid(was: seq<ListElement>, i: nat)
      requires i < |was| && PassesOver(was, i) && nodes == was[..i] + was[i + 1..]
      ensures Valid() && Items() == Without(ItemsOf(was), i)
    {
      assert forall j | 0 <= j < |nodes| :: nodes[j] == if j < i then was[j] else was[j + 1];
    }

    /** Cuts `tmp` out. */
    method Unlink(tmp: ListElement, ghost i: nat)
      requires Valid() && i < |nodes| && nodes[i] == tmp
      modifies this`head, this`tail, this`nodes, nodes
      ensures Valid() && nodes == old(nodes)[..i] + old(nodes)[i + 1..]
      ensures Items() == Without(old(Items()), i)
    {
      Bypass(tmp, i);
      nodes := nodes[..i] + nodes[i + 1..];
      BypassedIsValid(old(nodes), i);
    }

    /** Cuts `tmp` out and deallocates its data unless the caller takes it. */
    method RemoveFound(tmp: ListElement, wantsData: bool, ghost i: nat)
      requires Valid() && i < |nodes| && nodes[i] == tmp
      modifies this, nodes
      ensures Valid() && nodes == old(nodes)[..i] + old(nodes)[i + 1..]
      ensures Items() == Without(old(Items()), i)
      ensures dealloced == old(dealloced)
                + (if !wantsData && tmp.item.hasDealloc then [tmp.item.data] else [])
    {
      Unlink(tmp, i);
      if !wantsData && tmp.item.hasDealloc {
        dealloced := dealloced + [tmp.item.data];
      }
    }

    /** Walks to the first item that compares equal. */
    method Find(equal: nat -> bool) returns (tmp: ListElement?)
      requires Valid()
      ensures tmp == At(nodes, FirstMatch(Items(), equal))
    {
      tmp := head;
      ghost var k, items := 0, Items();
      while tmp != null && !equal(tmp.item.data)
        invariant k <= |nodes| && tmp == At(nodes, k)
        invariant FirstMatch(items, equal) == k + FirstMatch(items[k..], equal)
        decreases |nodes| - k
      {
        assert items[k..][1..] == items[k + 1..];
        assert k + 1 < |nodes| ==> tmp.next == nodes[k + 1];
        tmp := tmp.next;
        k := k + 1;
      }
    }

    /** Finds the first item that compares equal, reports it if the caller gave a place for it and
        cuts it out on request. An empty list is refused before anything is written. */
    method Search(equal: Option<nat -> bool>, wantsData: bool, rmIfFound: bool)
        returns (err: Error, out: Option<nat>)
      requires Valid()
      modifies this, nodes
      ensures Valid() && (forall n | n in nodes :: n in old(nodes))
      ensures err == if equal.None? then InvalidHandle
                     else if old(Items()) == [] then UnavailableResource else Success
      ensures err != Success ==> out == None && Items() == old(Items()) && dealloced == old(dealloced)
      ensures err == Success ==>
        var items := old(Items());
        var i := FirstMatch(items, equal.value);
        && out == (if !wantsData then None else if i < |items| then Some(items[i].data) else Some(0))
        && Items() == (if rmIfFound && i < |items| then items[..i] + items[i + 1..] else items)
        && dealloced == old(dealloced)
             + (if rmIfFound && i < |items| && !wantsData && items[i].hasDealloc then [items[i].data] else [])
    {
      if equal.None? { return InvalidHandle, None; }
      if tail == null { return UnavailableResource, None; }
      var tmp := Find(equal.value);
      if tmp == null {
        out := if wantsData then Some(0) else None;
      } else {
        out := if wantsData then Some(tmp.item.data) else None;
        if rmIfFound {
          RemoveFound(tmp, wantsData, FirstMatch(Items(), equal.value));
        }
      }
      return Success, out;
    }
  }
}
