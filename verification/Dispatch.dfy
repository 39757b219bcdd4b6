/**
 * Priority-ordered handler lists: the event bus with its named and wildcard subscriptions, and the
 * stanza handler registry. Both append, sort stably by priority, and remove by id.
 */
module Dispatch {
  import opened Numerals

  /** A subscription or handler. tag stands for the callback. */
  datatype Entry = Entry(id: uint64, name: string, priority: int, once: bool, tag: int)

  const WILDCARD := "*"

  // Stable sorting by priority, as sort.SliceStable does it

  /** x placed after everything of its priority or less. */
  function Insert(s: seq<Entry>, x: Entry): seq<Entry> {
    if s != [] && s[|s| - 1].priority > x.priority then Insert(s[..|s| - 1], x) + [s[|s| - 1]] else s + [x]
  }

  function StableSort(s: seq<Entry>): seq<Entry> {
    if s == [] then [] else Insert(StableSort(s[..|s| - 1]), s[|s| - 1])
  }

  /** Sorted by priority, ties in the order of the relation. */
  ghost predicate SortedWith(s: seq<Entry>, tie: (Entry, Entry) -> bool) {
    forall i, j :: 0 <= i < j < |s| ==>
      s[i].priority < s[j].priority || (s[i].priority == s[j].priority && tie(s[i], s[j]))
  }

  ghost predicate TiesHold(s: seq<Entry>, tie: (Entry, Entry) -> bool) {
    forall i, j :: 0 <= i < j < |s| && s[i].priority == s[j].priority ==> tie(s[i], s[j])
  }

  lemma {:induction false} InsertMembers(s: seq<Entry>, x: Entry)
    ensures multiset(Insert(s, x)) == multiset(s) + multiset{x}
  {
    if s != [] && s[|s| - 1].priority > x.priority {
      InsertMembers(s[..|s| - 1], x);
      assert s == s[..|s| - 1] + [s[|s| - 1]];
    }
  }

  lemma InsertIn(s: seq<Entry>, x: Entry, e: Entry)
    ensures e in Insert(s, x) <==> e in s || e == x
  {
    InsertMembers(s, x);
    assert e in Insert(s, x) <==> e in multiset(Insert(s, x));
    assert e in s <==> e in multiset(s);
  }

  lemma SortedSnoc(s: seq<Entry>, x: Entry, tie: (Entry, Entry) -> bool)
    requires SortedWith(s, tie)
    requires forall e :: e in s ==> e.priority < x.priority || (e.priority == x.priority && tie(e, x))
    ensures SortedWith(s + [x], tie)
  {
    assert forall i :: 0 <= i < |s| ==> s[i] in s;
  }

  lemma {:induction false} InsertSorted(s: seq<Entry>, x: Entry, tie: (Entry, Entry) -> bool)
    requires SortedWith(s, tie)
    requires forall e :: e in s && e.priority == x.priority ==> tie(e, x)
    ensures SortedWith(Insert(s, x), tie)
  {
    if s != [] && s[|s| - 1].priority > x.priority {
      var front, last := s[..|s| - 1], s[|s| - 1];
      assert forall e :: e in front ==> e in s;
      InsertSorted(front, x, tie);
      forall e | e in Insert(front, x)
        ensures e.priority < last.priority || (e.priority == last.priority && tie(e, last))
      {
        InsertIn(front, x, e);
      }
      SortedSnoc(Insert(front, x), last, tie);
    } else {
      SortedSnoc(s, x, tie);
    }
  }

  lemma {:induction false} StableSortMembers(s: seq<Entry>)
    ensures multiset(StableSort(s)) == multiset(s)
  {
    if s != [] {
      var front, last := s[..|s| - 1], s[|s| - 1];
      StableSortMembers(front);
      InsertMembers(StableSort(front), last);
      assert s == front + [last];
      assert multiset(front + [last]) == multiset(front) + multiset{last};
    }
  }

  /** Stability: whatever relation held between earlier and later entries of equal priority still holds. */
  lemma {:induction false} StableSortSorts(s: seq<Entry>, tie: (Entry, Entry) -> bool)
    requires TiesHold(s, tie)
    ensures SortedWith(StableSort(s), tie)
  {
    if s != [] {
      var front, last := s[..|s| - 1], s[|s| - 1];
      StableSortSorts(front, tie);
      StableSortMembers(front);
      forall e | e in StableSort(front) && e.priority == last.priority
        ensures tie(e, last)
      {
        assert e in multiset(StableSort(front));
        assert e in front;
        var k :| 0 <= k < |front| && front[k] == e;
        assert s[k] == e;
      }
      InsertSorted(StableSort(front), last, tie);
    }
  }

  /** Registration order. */
  predicate Earlier(a: Entry, b: Entry) {
    a.id < b.id
  }

  // Lists

  /** Sorted by priority with ties in registration order. */
  ghost predicate Ordered(s: seq<Entry>) {
    SortedWith(s, Earlier)
  }

  predicate DistinctIds(s: seq<Entry>) {
    forall i, j :: 0 <= i < j < |s| ==> s[i].id != s[j].id
  }

  function RemoveId(s: seq<Entry>, id: uint64): seq<Entry> {
    if s == [] then []
    else if s[0].id == id then s[1..]
    else [s[0]] + RemoveId(s[1..], id)
  }

  /** Removing an id drops exactly the entry that carries it. */
  lemma {:induction false} RemoveIdMembers(s: seq<Entry>, id: uint64, e: Entry)
    requires DistinctIds(s)
    ensures e in RemoveId(s, id) <==> e in s && e.id != id
  {
    if s != [] && s[0].id != id {
      RemoveIdMembers(s[1..], id, e);
    } else if s != [] {
      assert forall k :: 1 <= k < |s| ==> s[k].id != id;
      assert e in s[1..] <==> e in s && e != s[0];
    }
  }

  /** Where the removal cuts: at the first entry with the id, if there is one. */
  lemma {:induction false} RemovePlace(s: seq<Entry>, id: uint64, i: nat)
    requires i <= |s| && forall j :: 0 <= j < i ==> s[j].id != id
    requires i < |s| ==> s[i].id == id
    ensures RemoveId(s, id) == if i < |s| then s[..i] + s[i + 1..] else s
  {
    if i > 0 {
      RemovePlace(s[1..], id, i - 1);
      assert s == [s[0]] + s[1..];
    }
  }

  lemma CutKeeps(s: seq<Entry>, i: nat)
    requires i < |s| && DistinctIds(s)
    ensures DistinctIds(s[..i] + s[i + 1..])
    ensures Ordered(s) ==> Ordered(s[..i] + s[i + 1..])
  {
    var r := s[..i] + s[i + 1..];
    assert forall k :: 0 <= k < |r| ==> r[k] == s[if k < i then k else k + 1];
  }

  lemma RemoveIdKeeps(s: seq<Entry>, id: uint64)
    requires DistinctIds(s)
    ensures DistinctIds(RemoveId(s, id))
    ensures Ordered(s) ==> Ordered(RemoveId(s, id))
  {
    if i :| 0 <= i < |s| && s[i].id == id {
      RemovePlace(s, id, i);
      CutKeeps(s, i);
    } else {
      RemovePlace(s, id, |s|);
    }
  }

  function AddTo(s: seq<Entry>, x: Entry): seq<Entry> {
    StableSort(s + [x])
  }

  lemma AddToKeeps(s: seq<Entry>, x: Entry)
    requires Ordered(s) && DistinctIds(s) && forall e :: e in s ==> e.id < x.id
    ensures Ordered(AddTo(s, x)) && DistinctIds(AddTo(s, x))
    ensures forall e :: e in AddTo(s, x) <==> e in s || e == x
  {
    var all := s + [x];
    assert forall i :: 0 <= i < |s| ==> s[i] in s;
    StableSortSorts(all, Earlier);
    SameMembers(all);
    assert DistinctIds(all);
    DistinctIdsPermute(all);
  }

  lemma SameMembers(s: seq<Entry>)
    ensures forall e :: e in StableSort(s) <==> e in s
  {
    StableSortMembers(s);
    forall e
      ensures e in StableSort(s) <==> e in s
    {
      assert e in StableSort(s) <==> e in multiset(StableSort(s));
    }
  }

  lemma {:induction false} InsertDistinct(s: seq<Entry>, x: Entry)
    requires DistinctIds(s) && forall e :: e in s ==> e.id != x.id
    ensures DistinctIds(Insert(s, x))
  {
    if s != [] && s[|s| - 1].priority > x.priority {
      var front, last := s[..|s| - 1], s[|s| - 1];
      InsertDistinct(front, x);
      var r := Insert(front, x);
      forall i | 0 <= i < |r|
        ensures r[i].id != last.id
      {
        InsertIn(front, x, r[i]);
        assert last in s;
        if r[i] in front {
          var k :| 0 <= k < |front| && front[k] == r[i];
          assert s[k] == r[i];
        }
      }
    } else {
      assert forall i :: 0 <= i < |s| ==> s[i] in s;
    }
  }

  lemma {:induction false} DistinctIdsPermute(s: seq<Entry>)
    requires DistinctIds(s)
    ensures DistinctIds(StableSort(s))
  {
    if s != [] {
      var front, last := s[..|s| - 1], s[|s| - 1];
      DistinctIdsPermute(front);
      SameMembers(front);
      forall e | e in StableSort(front)
        ensures e.id != last.id
      {
        var k :| 0 <= k < |front| && front[k] == e;
        assert s[k] == e;
      }
      InsertDistinct(StableSort(front), last);
    }
  }

  // The event bus

  datatype Bus = Bus(handlers: map<string, seq<Entry>>, next: uint64)

  function Get(b: Bus, name: string): seq<Entry> {
    if name in b.handlers then b.handlers[name] else []
  }

  /** A list is stored only while it has entries. */
  function Put(b: Bus, name: string, s: seq<Entry>): Bus {
    if s == [] then b.(handlers := b.handlers - {name}) else b.(handlers := b.handlers[name := s])
  }

  function NextUint64(n: uint64): uint64 {
    if n == 0xffff_ffff_ffff_ffff then 0 else n + 1
  }

  function On(b: Bus, name: string, priority: int, once: bool, tag: int): (Bus, Entry) {
    var x := Entry(NextUint64(b.next), name, priority, once, tag);
    (Put(b, name, AddTo(Get(b, name), x)).(next := x.id), x)
  }

  function Off(b: Bus, e: Entry): Bus {
    Put(b, e.name, RemoveId(Get(b, e.name), e.id))
  }

  /** The snapshot an emission runs through. */
  function Snapshot(b: Bus, name: string): seq<Entry> {
    StableSort(Get(b, name) + Get(b, WILDCARD))
  }

  function OffOnce(b: Bus, items: seq<Entry>): Bus {
    if items == [] then b
    else
      var front := OffOnce(b, items[..|items| - 1]);
      if items[|items| - 1].once then Off(front, items[|items| - 1]) else front
  }

  /** Emission with handlers that leave the bus alone: the new bus and the entries run, in order. */
  function Emit(b: Bus, name: string): (Bus, seq<Entry>) {
    (OffOnce(b, Snapshot(b, name)), Snapshot(b, name))
  }

  predicate Registered(b: Bus, e: Entry) {
    e in Get(b, e.name)
  }

  /** Every list is non-empty, holds its own name's entries in order, and no id occurs twice. */
  ghost predicate BusInv(b: Bus) {
    && (forall name :: name in b.handlers ==> b.handlers[name] != [])
    && (forall name :: Ordered(Get(b, name)) && DistinctIds(Get(b, name)))
    && (forall name, e :: e in Get(b, name) ==> e.name == name && e.id <= b.next)
    && (forall e, d :: Registered(b, e) && Registered(b, d) && e.id == d.id ==> e == d)
  }

  lemma PutGet(b: Bus, name: string, s: seq<Entry>, other: string)
    ensures Get(Put(b, name, s), other) == if other == name then s else Get(b, other)
  {
  }

  /** Replacing one list by another of old entries and entries with fresh ids. */
  lemma ReplaceKeeps(b: Bus, name: string, s: seq<Entry>, next: uint64)
    requires BusInv(b) && b.next <= next && Ordered(s) && DistinctIds(s)
    requires forall e :: e in s ==> e.name == name && e.id <= next && (e in Get(b, name) || e.id > b.next)
    ensures var c := Put(b, name, s).(next := next);
            BusInv(c) && forall e :: Registered(c, e) <==> if e.name == name then e in s else Registered(b, e)
  {
    var c := Put(b, name, s).(next := next);
    forall other
      ensures Get(c, other) == if other == name then s else Get(b, other)
    {
      PutGet(b, name, s, other);
    }
    assert forall e :: Registered(c, e) <==> if e.name == name then e in s else Registered(b, e);
    UniqueAfter(b, c, name, s);
  }

  lemma UniqueAfter(b: Bus, c: Bus, name: string, s: seq<Entry>)
    requires BusInv(b) && DistinctIds(s)
    requires forall x :: x in s ==> x.name == name && (x in Get(b, name) || x.id > b.next)
    requires forall e :: Registered(c, e) <==> if e.name == name then e in s else Registered(b, e)
    ensures forall e, d :: Registered(c, e) && Registered(c, d) && e.id == d.id ==> e == d
  {
    forall e, d | Registered(c, e) && Registered(c, d) && e.id == d.id
      ensures e == d
    {
      if e.name == name {
        SameIdSameEntry(b, name, s, e, d);
      } else if d.name == name {
        SameIdSameEntry(b, name, s, d, e);
      }
    }
  }

  lemma SameIdSameEntry(b: Bus, name: string, s: seq<Entry>, e: Entry, d: Entry)
    requires BusInv(b) && DistinctIds(s) && e in s && e.id == d.id
    requires forall x :: x in s ==> x.name == name && (x in Get(b, name) || x.id > b.next)
    requires if d.name == name then d in s else Registered(b, d)
    ensures e == d
  {
    if d.name == name {
      var i :| 0 <= i < |s| && s[i] == e;
      var j :| 0 <= j < |s| && s[j] == d;
      assert i == j;
    } else {
      assert d in Get(b, d.name);
      assert Registered(b, e);
    }
  }

  lemma OnKeeps(b: Bus, name: string, priority: int, once: bool, tag: int)
    requires BusInv(b) && b.next < UINT64_SIZE - 1
    ensures var (c, x) := On(b, name, priority, once, tag);
            && BusInv(c) && c.next == b.next + 1
            && (forall e :: Registered(c, e) <==> Registered(b, e) || e == x)
            && !Registered(b, x)
  {
    var (c, x) := On(b, name, priority, once, tag);
    var list := Get(b, name);
    assert forall e :: e in list ==> e.id < x.id;
    AddToKeeps(list, x);
    ReplaceKeeps(b, name, AddTo(list, x), x.id);
  }

  lemma OffKeeps(b: Bus, e: Entry)
    requires BusInv(b)
    ensures BusInv(Off(b, e)) && Off(b, e).next == b.next
    ensures forall d :: Registered(Off(b, e), d) <==> Registered(b, d) && !(d.name == e.name && d.id == e.id)
  {
    var list := Get(b, e.name);
    RemoveIdKeeps(list, e.id);
    forall d
      ensures d in RemoveId(list, e.id) <==> d in list && d.id != e.id
    {
      RemoveIdMembers(list, e.id, d);
    }
    ReplaceKeeps(b, e.name, RemoveId(list, e.id), b.next);
    assert Off(b, e) == Put(b, e.name, RemoveId(list, e.id)).(next := b.next);
  }

  lemma {:induction false} OffOnceKeeps(b: Bus, items: seq<Entry>)
    requires BusInv(b) && forall e :: e in items ==> Registered(b, e)
    ensures BusInv(OffOnce(b, items)) && OffOnce(b, items).next == b.next
    ensures forall d :: Registered(OffOnce(b, items), d) <==> Registered(b, d) && !(d.once && d in items)
  {
    if items != [] {
      var front, last := items[..|items| - 1], items[|items| - 1];
      OffOnceKeeps(b, front);
      assert last in items;
      assert forall d :: d in items <==> d in front || d == last;
      if last.once {
        OffKeeps(OffOnce(b, front), last);
      }
    }
  }

  /** What an emission runs: the named and the wildcard entries, each as often as it is listed. */
  lemma SnapshotMembers(b: Bus, name: string)
    ensures multiset(Snapshot(b, name)) == multiset(Get(b, name)) + multiset(Get(b, WILDCARD))
    ensures forall e :: e in Snapshot(b, name) <==> e in Get(b, name) || e in Get(b, WILDCARD)
  {
    var all := Get(b, name) + Get(b, WILDCARD);
    StableSortMembers(all);
    SameMembers(all);
  }

  lemma {:induction false} OnceEach(s: seq<Entry>, e: Entry)
    requires DistinctIds(s)
    ensures multiset(s)[e] == if e in s then 1 else 0
  {
    if s != [] {
      var front, last := s[..|s| - 1], s[|s| - 1];
      OnceEach(front, e);
      assert s == front + [last];
      assert forall k :: 0 <= k < |front| ==> front[k] == s[k] && s[k].id != last.id;
      assert last !in front;
    }
  }

  /**
   * An event other than "*" runs each named and each wildcard entry once and nothing else; "*" itself
   * runs each wildcard entry twice.
   */
  lemma EmitRuns(b: Bus, name: string, e: Entry)
    requires BusInv(b)
    ensures multiset(Emit(b, name).1)[e] ==
            if !Registered(b, e) || (e.name != name && e.name != WILDCARD) then 0
            else if name == WILDCARD then 2
            else 1
  {
    SnapshotMembers(b, name);
    OnceEach(Get(b, name), e);
    OnceEach(Get(b, WILDCARD), e);
  }

  /** Between entries of one priority, named before wildcard, then registration order. */
  predicate RunsBefore(name: string, a: Entry, b: Entry) {
    if a.name == b.name then a.id < b.id else a.name == name && b.name == WILDCARD
  }

  /** Handlers of an event other than "*" run by priority, then named before wildcard, then registration. */
  lemma EmitOrder(b: Bus, name: string)
    requires BusInv(b) && name != WILDCARD
    ensures SortedWith(Emit(b, name).1, (x, y) => RunsBefore(name, x, y))
  {
    var named, wild := Get(b, name), Get(b, WILDCARD);
    var all := named + wild;
    var tie := (x, y) => RunsBefore(name, x, y);
    forall i, j | 0 <= i < j < |all| && all[i].priority == all[j].priority
      ensures tie(all[i], all[j])
    {
      assert forall k :: 0 <= k < |named| ==> named[k] in named;
      assert forall k :: 0 <= k < |wild| ==> wild[k] in wild;
      if j < |named| {
        assert named[i] == all[i] && named[j] == all[j];
      } else if i >= |named| {
        assert wild[i - |named|] == all[i] && wild[j - |named|] == all[j];
      } else {
        assert named[i] == all[i] && wild[j - |named|] == all[j];
      }
    }
    StableSortSorts(all, tie);
  }

  lemma EmitKeeps(b: Bus, name: string)
    requires BusInv(b)
    ensures BusInv(Emit(b, name).0) && Emit(b, name).0.next == b.next
    ensures forall e :: Registered(Emit(b, name).0, e) <==>
                        Registered(b, e) && !(e.once && (e.name == name || e.name == WILDCARD))
  {
    SnapshotMembers(b, name);
    assert forall e :: e in Snapshot(b, name) ==> Registered(b, e);
    OffOnceKeeps(b, Snapshot(b, name));
  }

  // Runs

  datatype Op = OnOp(name: string, priority: int, once: bool, tag: int) | OffOp(e: Entry) | EmitOp(name: string)

  function Apply(b: Bus, op: Op): (Bus, seq<Entry>) {
    match op
    case OnOp(name, priority, once, tag) => (On(b, name, priority, once, tag).0, [])
    case OffOp(e) => (Off(b, e), [])
    case EmitOp(name) => Emit(b, name)
  }

  /** The bus and the entries run so far, after a sequence of calls on an empty bus. */
  function Run(ops: seq<Op>): (Bus, seq<Entry>) {
    if ops == [] then (Bus(map[], 0), [])
    else
      var (b, log) := Run(ops[..|ops| - 1]);
      var (c, ran) := Apply(b, ops[|ops| - 1]);
      (c, log + ran)
  }

  /** After any sequence of calls the lists are sorted, stable and non-empty. */
  lemma {:induction false} RunInv(ops: seq<Op>)
    requires |ops| < UINT64_SIZE
    ensures BusInv(Run(ops).0) && Run(ops).0.next <= |ops|
  {
    if ops != [] {
      var front := ops[..|ops| - 1];
      RunInv(front);
      var b := Run(front).0;
      match ops[|ops| - 1] {
        case OnOp(name, priority, once, tag) => OnKeeps(b, name, priority, once, tag);
        case OffOp(e) => OffKeeps(b, e);
        case EmitOp(name) => EmitKeeps(b, name);
      }
    } else {
      assert Get(Bus(map[], 0), "") == [];
    }
  }

  /** How often a one-shot entry may run: twice only if it is a wildcard and "*" itself is emitted. */
  function Limit(ops: seq<Op>, e: Entry): nat {
    if e.name == WILDCARD && EmitOp(WILDCARD) in ops then 2 else 1
  }

  /** A one-shot entry that is still registered has not run, and one that has run is within its limit. */
  lemma {:induction false} OnceWithinLimit(ops: seq<Op>, e: Entry)
    requires |ops| < UINT64_SIZE && e.once
    ensures Registered(Run(ops).0, e) ==> multiset(Run(ops).1)[e] == 0
    ensures multiset(Run(ops).1)[e] <= Limit(ops, e)
    ensures multiset(Run(ops).1)[e] > 0 ==> e.id <= Run(ops).0.next
  {
    if ops != [] {
      var front, op := ops[..|ops| - 1], ops[|ops| - 1];
      OnceWithinLimit(front, e);
      RunInv(front);
      var (b, log) := Run(front);
      assert forall o :: o in front ==> o in ops;
      match op {
        case OnOp(name, priority, once, tag) =>
          OnKeeps(b, name, priority, once, tag);
          assert log + [] == log;
        case OffOp(d) =>
          OffKeeps(b, d);
          assert log + [] == log;
        case EmitOp(name) =>
          EmitRuns(b, name, e);
          EmitKeeps(b, name);
          var ran := Emit(b, name).1;
          assert multiset(log + ran) == multiset(log) + multiset(ran);
          assert op in ops;
          assert Registered(b, e) ==> e.id <= b.next;
      }
    }
  }

  /** In a run that never emits "*", a one-shot entry runs at most once. */
  lemma OnceAtMostOnce(ops: seq<Op>, e: Entry)
    requires |ops| < UINT64_SIZE && e.once && EmitOp(WILDCARD) !in ops
    ensures multiset(Run(ops).1)[e] <= 1
  {
    OnceWithinLimit(ops, e);
  }

  /** Emitting "*" runs a one-shot wildcard twice. */
  lemma WildcardRunsTwice()
    ensures var ops := [OnOp(WILDCARD, 0, true, 7), EmitOp(WILDCARD)];
            multiset(Run(ops).1)[Entry(1, WILDCARD, 0, true, 7)] == 2
  {
    var ops := [OnOp(WILDCARD, 0, true, 7), EmitOp(WILDCARD)];
    assert ops[..1] == [ops[0]] && ops[..1][..0] == [];
    RunInv(ops[..0]);
    var b := Run(ops[..1]).0;
    var x := Entry(1, WILDCARD, 0, true, 7);
    OnKeeps(Bus(map[], 0), WILDCARD, 0, true, 7);
    EmitRuns(b, WILDCARD, x);
    assert Run(ops[..1]).1 == [] && Run(ops).1 == [] + Emit(b, WILDCARD).1;
  }

  // The objects themselves

  /** EventBus: lists appended to, sorted and spliced in place. */
  class EventBus {
    var handlers: map<string, seq<Entry>>
    var nextId: uint64

    function State(): Bus
      reads this
    {
      Bus(handlers, nextId)
    }

    constructor ()
      ensures State() == Bus(map[], 0)
    {
      handlers, nextId := map[], 0;
    }

    method Subscribe(name: string, priority: int, once: bool, tag: int) returns (x: Entry)
      modifies this
      ensures (State(), x) == On(old(State()), name, priority, once, tag)
    {
      nextId := if nextId == 0xffff_ffff_ffff_ffff then 0 else nextId + 1;
      x := Entry(nextId, name, priority, once, tag);
      var list := if name in handlers then handlers[name] else [];
      SameMembers(list + [x]);
      assert x in StableSort(list + [x]);
      handlers := handlers[name := StableSort(list + [x])];
    }

    method Unsubscribe(e: Entry)
      modifies this`handlers
      ensures State() == Off(old(State()), e)
    {
      var items := if e.name in handlers then handlers[e.name] else [];
      items := Splice(items, e.id);
      if items == [] {
        handlers := map name | name in handlers && name != e.name :: handlers[name];
      } else {
        handlers := handlers[e.name := items];
      }
    }

    method EmitEvent(name: string) returns (ran: seq<Entry>)
      modifies this`handlers
      ensures (State(), ran) == Emit(old(State()), name)
    {
      ghost var before := State();
      var items := (if name in handlers then handlers[name] else [])
                   + (if WILDCARD in handlers then handlers[WILDCARD] else []);
      items := StableSort(items);
      ran := [];
      for i := 0 to |items|
        invariant ran == items[..i]
        invariant State() == OffOnce(before, items[..i])
      {
        assert items[..i + 1][..i] == items[..i];
        if items[i].once {
          Unsubscribe(items[i]);
        }
        ran := ran + [items[i]];
      }
      assert items[..|items|] == items;
    }
  }

  /** The removal loop: find the first entry with the id and cut it out. */
  method Splice(items: seq<Entry>, id: uint64) returns (r: seq<Entry>)
    ensures r == RemoveId(items, id)
  {
    for i := 0 to |items|
      invariant forall j :: 0 <= j < i ==> items[j].id != id
    {
      if items[i].id == id {
        RemovePlace(items, id, i);
        return items[..i] + items[i + 1..];
      }
    }
    RemovePlace(items, id, |items|);
    return items;
  }

  /** handlerRegistry: one list of stanza handlers. */
  class Registry {
    var handlers: seq<Entry>
    var nextId: uint64

    /** Sorted, stable, and with ids no larger than the counter. */
    ghost predicate Valid()
      reads this
    {
      Ordered(handlers) && DistinctIds(handlers) && forall e :: e in handlers ==> e.id <= nextId
    }

    constructor ()
      ensures Valid() && handlers == [] && nextId == 0
    {
      handlers, nextId := [], 0;
    }

    method Add(name: string, priority: int, once: bool, tag: int) returns (h: Entry)
      requires Valid() && nextId < UINT64_SIZE - 1
      modifies this
      ensures Valid() && h == Entry(nextId, name, priority, once, tag) && nextId == old(nextId) + 1
      ensures multiset(handlers) == multiset(old(handlers)) + multiset{h}
    {
      nextId := nextId + 1;
      h := Entry(nextId, name, priority, once, tag);
      AddToKeeps(handlers, h);
      StableSortMembers(handlers + [h]);
      handlers := StableSort(handlers + [h]);
    }

    method Remove(h: Entry)
      requires Valid()
      modifies this`handlers
      ensures Valid() && handlers == RemoveId(old(handlers), h.id)
      ensures forall e :: e in handlers <==> e in old(handlers) && e.id != h.id
    {
      RemoveIdKeeps(handlers, h.id);
      ghost var was := handlers;
      handlers := Splice(handlers, h.id);
      forall e
        ensures e in handlers <==> e in was && e.id != h.id
      {
        RemoveIdMembers(was, h.id, e);
      }
    }

    /**
     * Dispatch of one stanza to handlers that leave the registry alone: each matching handler of the
     * snapshot runs once, in list order, and one-shot handlers that ran are gone afterwards.
     */
    method Dispatch(matches: Entry -> bool) returns (ran: seq<Entry>)
      requires Valid()
      modifies this`handlers
      ensures Valid() && ran == Matching(old(handlers), matches)
      ensures forall e :: e in handlers <==> e in old(handlers) && !(e.once && matches(e))
    {
      var snapshot := handlers;
      ran := [];
      for i := 0 to |snapshot|
        invariant Valid()
        invariant ran == Matching(snapshot[..i], matches)
        invariant forall e :: e in handlers <==> e in snapshot && !(e.once && matches(e) && e in snapshot[..i])
      {
        assert snapshot[..i + 1] == snapshot[..i] + [snapshot[i]];
        assert snapshot[..i + 1][..i] == snapshot[..i];
        if matches(snapshot[i]) {
          if snapshot[i].once {
            SameIdSame(snapshot, i);
            Remove(snapshot[i]);
          }
          ran := ran + [snapshot[i]];
        }
      }
      assert snapshot[..|snapshot|] == snapshot;
    }
  }

  function Matching(s: seq<Entry>, matches: Entry -> bool): seq<Entry> {
    if s == [] then []
    else Matching(s[..|s| - 1], matches) + (if matches(s[|s| - 1]) then [s[|s| - 1]] else [])
  }

  /** Exactly the matching handlers, each as often as it is listed. */
  lemma {:induction false} MatchingMembers(s: seq<Entry>, matches: Entry -> bool, e: Entry)
    ensures multiset(Matching(s, matches))[e] == if matches(e) then multiset(s)[e] else 0
  {
    if s != [] {
      var front, last := s[..|s| - 1], s[|s| - 1];
      MatchingMembers(front, matches, e);
      assert s == front + [last];
      assert multiset(front + [last]) == multiset(front) + multiset{last};
    }
  }

  lemma MatchingIn(s: seq<Entry>, matches: Entry -> bool)
    ensures forall x :: x in Matching(s, matches) <==> x in s && matches(x)
  {
    forall x
      ensures x in Matching(s, matches) <==> x in s && matches(x)
    {
      MatchingMembers(s, matches, x);
      assert x in Matching(s, matches) <==> x in multiset(Matching(s, matches));
      assert x in s <==> x in multiset(s);
    }
  }

  /** They are run in the order of the list. */
  lemma {:induction false} MatchingOrder(s: seq<Entry>, matches: Entry -> bool, before: (Entry, Entry) -> bool)
    requires SortedWith(s, before)
    ensures SortedWith(Matching(s, matches), before)
  {
    if s != [] {
      var front, last := s[..|s| - 1], s[|s| - 1];
      MatchingOrder(front, matches, before);
      MatchingIn(front, matches);
      forall x | x in Matching(front, matches)
        ensures x.priority < last.priority || (x.priority == last.priority && before(x, last))
      {
        var k :| 0 <= k < |front| && front[k] == x;
        assert s[k] == x;
      }
      SortedSnoc(Matching(front, matches), last, before);
    }
  }

  lemma SameIdSame(s: seq<Entry>, i: nat)
    requires DistinctIds(s) && i < |s|
    ensures forall e :: e in s && e.id == s[i].id ==> e == s[i]
  {
  }
}
