/** The list of adapters as a sequence: what adding and removing do to it, over whole runs. */
module LocAdapterList {

  const MAX_ADAPTERS: nat := 10

  predicate Distinct<A(==)>(s: seq<A>) {
    forall i, j | 0 <= i < j < |s| :: s[i] != s[j]
  }

  function Added<A(==)>(s: seq<A>, a: A): seq<A> {
    if a in s || |s| >= MAX_ADAPTERS then s else s + [a]
  }

  function IndexOf<A(==)>(s: seq<A>, a: A): (i: nat)
    ensures i <= |s| && (i < |s| <==> a in s)
    ensures i < |s| ==> s[i] == a
    ensures forall k | 0 <= k < i :: s[k] != a
  {
    if s == [] || s[0] == a then 0 else 1 + IndexOf(s[1..], a)
  }

  /** The last one moves into the place of the one removed. */
  function Removed<A(==)>(s: seq<A>, a: A): seq<A> {
    var i := IndexOf(s, a);
    if i == |s| then s else s[i := s[|s| - 1]][..|s| - 1]
  }

  /** When one goes the last takes its place, and nobody else moves. */
  lemma OnlyTheLastMoves<A>(s: seq<A>, a: A, i: nat)
    requires Distinct(s) && i < |s| && s[i] == a
    ensures var t := Removed(s, a); var n := |s| - 1;
      |t| == n && (forall k | 0 <= k < n && k != i :: t[k] == s[k]) && (i < n ==> t[i] == s[n])
  {
    assert IndexOf(s, a) == i;
  }

  datatype Op<A> = Add(a: A) | Remove(a: A)

  function Apply<A(==)>(s: seq<A>, op: Op<A>): seq<A> {
    match op
    case Add(a) => Added(s, a)
    case Remove(a) => Removed(s, a)
  }

  function Run<A(==)>(ops: seq<Op<A>>): seq<A> {
    if ops == [] then [] else Apply(Run(ops[..|ops| - 1]), ops[|ops| - 1])
  }

  /** The same operations on a bounded set. */
  function RunOnSet<A(==)>(ops: seq<Op<A>>): set<A> {
    if ops == [] then {}
    else
      var s := RunOnSet(ops[..|ops| - 1]);
      match ops[|ops| - 1]
      case Add(a) => if |s| >= MAX_ADAPTERS then s else s + {a}
      case Remove(a) => s - {a}
  }

  function Elements<A(==)>(s: seq<A>): set<A> {
    set a | a in s
  }

  lemma {:induction false} DistinctCount<A>(s: seq<A>)
    requires Distinct(s)
    ensures |Elements(s)| == |s|
  {
    if s != [] {
      DistinctCount(s[1..]);
      assert Elements(s) == {s[0]} + Elements(s[1..]);
    }
  }

  lemma AddedElements<A>(s: seq<A>, a: A)
    requires Distinct(s)
    ensures Distinct(Added(s, a))
    ensures Elements(Added(s, a)) == if |s| >= MAX_ADAPTERS then Elements(s) else Elements(s) + {a}
  {
  }

  lemma RemovedElements<A>(s: seq<A>, a: A)
    requires Distinct(s)
    ensures Distinct(Removed(s, a)) && Elements(Removed(s, a)) == Elements(s) - {a}
  {
    var t, i, n := Removed(s, a), IndexOf(s, a), |s| - 1;
    if i <= n {
      forall x ensures x in t <==> x in s && x != a {
        if x in s && x != a {
          var k :| 0 <= k < |s| && s[k] == x;
          assert t[if k == n then i else k] == x;
        }
      }
    }
  }

  /** Over every run of additions and removals the list holds no adapter twice, never more than ten,
      and exactly those of the bounded set. */
  lemma {:induction false} ListRefinesSet<A>(ops: seq<Op<A>>)
    ensures var s := Run(ops);
      Distinct(s) && |s| <= 10 && Elements(s) == RunOnSet(ops)
  {
    if ops != [] {
      var before := Run(ops[..|ops| - 1]);
      ListRefinesSet(ops[..|ops| - 1]);
      DistinctCount(before);
      match ops[|ops| - 1]
      case Add(a) => AddedElements(before, a);
      case Remove(a) => RemovedElements(before, a);
    }
  }

  // ---------- Event masks ----------

  /** An event mask, as the set of its bits: `|` is union, and `& ~` difference. */
  type Event = n: nat | n < 32
  type Mask = set<Event>

  function Union(masks: seq<Mask>): Mask {
    if masks == [] then {} else Union(masks[..|masks| - 1]) + masks[|masks| - 1]
  }

  function EvtMask(masks: seq<Mask>, excluded: Mask): Mask {
    Union(masks) - excluded
  }

  /** An event is asked for if and only if it is not excluded and some adapter wants it. */
  lemma {:induction false} EvtMaskIsUnion(masks: seq<Mask>, excluded: Mask, e: Event)
    ensures e in EvtMask(masks, excluded)
        <==> e !in excluded && exists i :: 0 <= i < |masks| && e in masks[i]
  {
    if masks != [] {
      EvtMaskIsUnion(masks[..|masks| - 1], excluded, e);
    }
  }

  /** The mask an adapter brings is the one for all the adapters then present if and only if it asks for
      nothing excluded and for everything the others are given. */
  lemma NewcomersMaskIsEnoughIff(others: seq<Mask>, mask: Mask, excluded: Mask)
    ensures mask == EvtMask(others + [mask], excluded)
        <==> mask !! excluded && EvtMask(others, excluded) <= mask
  {
    assert (others + [mask])[..|others|] == others;
    assert EvtMask(others + [mask], excluded) == EvtMask(others, excluded) + (mask - excluded);
  }

  /** It is not when two adapters want different events, nor when one wants an excluded event. */
  lemma NewcomersMaskCanFallShort()
    ensures EvtMask([{0}, {1}], {}) == {0, 1} != {1}
    ensures EvtMask([{2}], {2}) == {} != {2}
  {
    var first: Mask, second: Mask, third: Mask, none: seq<Mask> := {0}, {1}, {2}, [];
    assert [first, second][..1] == [first] && [first][..0] == none && [third][..0] == none;
    assert Union([first, second]) == first + second && Union([third]) == third;
    assert EvtMask([first, second], {}) == {0, 1};
    assert 0 !in second;
  }
}

/** The array of adapters, shifted in place. */
module LocApis {
  import opened LocAdapterList

  class LocAdapter {
    var evtMask: Mask

    constructor (mask: Mask)
      ensures evtMask == mask
    {
      evtMask := mask;
    }
  }

  datatype ApiCall = Open(mask: Mask) | Close

  /** The first free place from `i` on. */
  function Used(slots: seq<LocAdapter?>, i: nat): (n: nat)
    requires i <= |slots|
    ensures i <= n <= |slots| && (n < |slots| ==> slots[n] == null)
    ensures forall k | i <= k < n :: slots[k] != null
    decreases |slots| - i
  {
    if i == |slots| || slots[i] == null then i else Used(slots, i + 1)
  }

  /** The adapters up to the first free place. */
  function Present(slots: seq<LocAdapter?>): (s: seq<LocAdapter>)
    ensures |s| <= |slots|
    ensures forall i | 0 <= i < |s| :: s[i] == slots[i]
    ensures |s| < |slots| ==> slots[|s|] == null
  {
    seq(Used(slots, 0), i requires 0 <= i < Used(slots, 0) => var a: LocAdapter := slots[i]; a)
  }

  lemma PresentIs(slots: seq<LocAdapter?>, s: seq<LocAdapter>)
    requires |s| <= |slots| && (|s| < |slots| ==> slots[|s|] == null)
    requires forall i | 0 <= i < |s| :: slots[i] == s[i]
    ensures Present(slots) == s
  {
  }

  ghost function Masks(s: seq<LocAdapter>): (masks: seq<Mask>)
    reads s
  {
    seq(|s|, i requires 0 <= i < |s| reads s => s[i].evtMask)
  }

  class LocApiBase {
    const locAdapters: array<LocAdapter?>
    const excludedMask: Mask
    var calls: seq<ApiCall>

    /** No holes and nobody twice. */
    ghost predicate Valid()
      reads this, locAdapters
    {
      && locAdapters.Length == MAX_ADAPTERS
      && (forall i | |Adapters()| <= i < MAX_ADAPTERS :: locAdapters[i] == null)
      && Distinct(Adapters())
    }

    ghost function Adapters(): seq<LocAdapter>
      reads this, locAdapters
    {
      Present(locAdapters[..])
    }

    constructor (excludedMask: Mask)
      ensures Valid() && fresh(locAdapters) && Adapters() == [] && calls == []
      ensures this.excludedMask == excludedMask
    {
      locAdapters := new LocAdapter?[MAX_ADAPTERS](_ => null);
      this.excludedMask := excludedMask;
      calls := [];
    }

    method GetEvtMask() returns (mask: Mask)
      requires Valid()
      ensures mask == EvtMask(Masks(Adapters()), excludedMask)
    {
      mask := {};
      var i := 0;
      ghost var masks := Masks(Adapters());
      while i < MAX_ADAPTERS && locAdapters[i] != null
        invariant i <= |masks| && mask == Union(masks[..i])
      {
        assert masks[..i + 1][..i] == masks[..i];
        mask := mask + locAdapters[i].evtMask;
        i := i + 1;
      }
      assert masks[..i] == masks;
      mask := mask - excludedMask;
    }

    /** Takes the first free place, unless the adapter is already there or all places are taken. */
    method AddAdapter(adapter: LocAdapter)
      requires Valid()
      modifies this`calls, locAdapters
      ensures Valid() && Adapters() == Added(old(Adapters()), adapter)
      ensures adapter in old(Adapters()) || |old(Adapters())| >= 10 ==> Adapters() == old(Adapters())
      ensures adapter !in old(Adapters()) && |old(Adapters())| < 10 ==> Adapters() == old(Adapters()) + [adapter]
      ensures calls == old(calls)
                + (if Adapters() == old(Adapters()) then [] else [Open(adapter.evtMask)])
      ensures Adapters() != old(Adapters()) ==>
                var others := Masks(old(Adapters()));
                (adapter.evtMask == EvtMask(Masks(Adapters()), excludedMask) <==>
                   adapter.evtMask !! excludedMask && EvtMask(others, excludedMask) <= adapter.evtMask)
    {
      ghost var was := Adapters();
      var i := 0;
      while i < MAX_ADAPTERS && locAdapters[i] != adapter && locAdapters[i] != null
        invariant i <= |was| && adapter !in was[..i]
      {
        i := i + 1;
      }
      if i < MAX_ADAPTERS && locAdapters[i] == null {
        locAdapters[i] := adapter;
        calls := calls + [Open(adapter.evtMask)];
        PresentIs(locAdapters[..], was + [adapter]);
        assert Masks(was + [adapter]) == Masks(was) + [adapter.evtMask];
        NewcomersMaskIsEnoughIff(Masks(was), adapter.evtMask, excludedMask);
      }
    }

    /** Closes the interface when the last adapter goes, and otherwise opens it with what the others
        still want. */
    method RemoveAdapter(adapter: LocAdapter)
      requires Valid()
      modifies this`calls, locAdapters
      ensures Valid() && Adapters() == Removed(old(Adapters()), adapter)
      ensures calls == old(calls)
                + (if adapter !in old(Adapters()) then []
                   else if Adapters() == [] then [Close]
                   else [Open(EvtMask(Masks(Adapters()), excludedMask))])
    {
      ghost var was := Adapters();
      var i := 0;
      while i < MAX_ADAPTERS && locAdapters[i] != null && locAdapters[i] != adapter
        invariant i <= |was| && adapter !in was[..i]
      {
        i := i + 1;
      }
      if i < MAX_ADAPTERS && locAdapters[i] == adapter {
        var last := MoveLastInto(i);
        Announce(last == 0);
      }
    }

    method Announce(empty: bool)
      requires Valid() && empty == (Adapters() == [])
      modifies this`calls
      ensures calls == old(calls) + [if empty then Close else Open(EvtMask(Masks(Adapters()), excludedMask))]
    {
      if empty {
        calls := calls + [Close];
      } else {
        var mask := GetEvtMask();
        calls := calls + [Open(mask)];
      }
    }

    /** Frees place `j` and fills it with the last adapter, whose place `i` becomes free. */
    method MoveLastInto(j: nat) returns (i: nat)
      requires Valid() && j < |Adapters()|
      modifies locAdapters
      ensures Valid() && i == |Adapters()|
      ensures Adapters() == Removed(old(Adapters()), old(Adapters())[j])
    {
      i := Shift(j);
      Shifted(old(locAdapters[..]), j);
      RemovedElements(old(Adapters()), old(Adapters())[j]);
    }

    method Shift(j: nat) returns (i: nat)
      requires Valid() && j < |Adapters()|
      modifies locAdapters
      ensures i == |old(Adapters())| - 1
      ensures locAdapters[..] == old(locAdapters[..])[j := old(locAdapters[i])][i := null]
    {
      ghost var n := |Adapters()| - 1;
      locAdapters[j] := null;
      i := j + 1;
      while i < MAX_ADAPTERS && locAdapters[i] != null
        invariant j < i <= n + 1
      {
        i := i + 1;
      }
      i := i - 1;
      locAdapters[j] := locAdapters[i];
      locAdapters[i] := null;
    }
  }

  lemma Shifted(slots: seq<LocAdapter?>, j: nat)
    requires j < |Present(slots)| && Distinct(Present(slots))
    ensures var n := |Present(slots)| - 1;
      Present(slots[j := slots[n]][n := null]) == Removed(Present(slots), Present(slots)[j])
  {
    ShiftedIs(slots, Present(slots), j);
    IndexIs(Present(slots), j);
  }

  lemma ShiftedIs(slots: seq<LocAdapter?>, was: seq<LocAdapter>, j: nat)
    requires j < |was| <= |slots| && forall i | 0 <= i < |was| :: slots[i] == was[i]
    ensures var n := |was| - 1;
      Present(slots[j := slots[n]][n := null]) == was[j := was[n]][..n]
  {
    var n := |was| - 1;
    PresentIs(slots[j := slots[n]][n := null], was[j := was[n]][..n]);
  }

  lemma IndexIs(s: seq<LocAdapter>, j: nat)
    requires j < |s| && Distinct(s)
    ensures IndexOf(s, s[j]) == j
  {
  }
}
