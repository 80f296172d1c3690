/**
 The kernel's intrusive circular list (supports/rtos/list.c and the access macros of
 supports/rtos/include/list.h).

 `ListVal` is the value a list stands for: the items from head to tail and a cursor that says
 where `pxIndex` points.  The functions on it say what each operation does to that value, and
 the lemmas are the laws the kernel relies on.  Class `List` is the ring of nodes itself;
 each of its methods is proved to act on the ring as the function of the same name acts on
 the value.
 */
module Lists {
  import opened Common

  // portMAX_DELAY for 32-bit ticks; also the value of every end marker
  const MAX_DELAY: nat := 0xFFFF_FFFF

  type Tick = x: nat | x <= 0xFFFF_FFFF

  // ---------------------------------------------------------------- values

  /** cursor 0 is the end marker, cursor k is items[k-1]. */
  datatype ListVal<T> = ListVal(items: seq<T>, cursor: nat) {
    predicate Valid() {
      cursor <= |items|
    }
  }

  /** Where the cursor is after an item came to stand at position k ... */
  function CursorAfterInsert(c: nat, k: nat): nat {
    if c > k then c + 1 else c
  }

  /** ... and after the item at position k left. */
  function CursorAfterRemove(c: nat, k: nat): nat {
    if c > k then c - 1 else c
  }

  /** The item comes to stand at position k; the cursor stays on the node it was on. */
  function InsertAt<T>(l: ListVal<T>, k: nat, x: T): (r: ListVal<T>)
    requires l.Valid() && k <= |l.items|
    ensures r.Valid()
  {
    ListVal(l.items[..k] + [x] + l.items[k..], CursorAfterInsert(l.cursor, k))
  }

  /** Where vListInsertEnd puts an item: just behind the cursor in walking order. */
  function BehindCursor<T>(l: ListVal<T>): (k: nat)
    requires l.Valid()
    ensures k <= |l.items|
  {
    if l.cursor == 0 then |l.items| else l.cursor - 1
  }

  function InsertEnd<T>(l: ListVal<T>, x: T): (r: ListVal<T>)
    requires l.Valid()
    ensures r.Valid()
  {
    InsertAt(l, BehindCursor(l), x)
  }

  /** Item k leaves; a cursor on it steps back to the previous node of the ring. */
  function RemoveAt<T>(l: ListVal<T>, k: nat): (r: ListVal<T>)
    requires l.Valid() && k < |l.items|
    ensures r.Valid()
  {
    ListVal(l.items[..k] + l.items[k + 1..], CursorAfterRemove(l.cursor, k))
  }

  /** listGET_OWNER_OF_NEXT_ENTRY: one step on, skipping the end marker. */
  function Advance<T>(l: ListVal<T>): (r: ListVal<T>)
    requires l.Valid() && l.items != []
    ensures r.Valid() && r.items == l.items && r.cursor >= 1
  {
    ListVal(l.items, if l.cursor == |l.items| then 1 else l.cursor + 1)
  }

  function Current<T>(l: ListVal<T>): T
    requires l.Valid() && l.cursor >= 1
  {
    l.items[l.cursor - 1]
  }

  predicate Sorted(vals: seq<nat>) {
    forall i, j :: 0 <= i < j < |vals| ==> vals[i] <= vals[j]
  }

  /** The position vListInsert looks for: before the first larger value. */
  function InsertPos(vals: seq<nat>, v: nat): (k: nat)
    ensures k <= |vals|
    ensures forall i :: 0 <= i < k ==> vals[i] <= v
    ensures k < |vals| ==> v < vals[k]
  {
    if vals == [] || v < vals[0] then 0 else 1 + InsertPos(vals[1..], v)
  }

  lemma {:induction false} InsertPosUnique(vals: seq<nat>, v: nat, k: nat)
    requires k <= |vals|
    requires forall i :: 0 <= i < k ==> vals[i] <= v
    requires k < |vals| ==> v < vals[k]
    ensures k == InsertPos(vals, v)
  {
    if vals != [] && vals[0] <= v {
      InsertPosUnique(vals[1..], v, k - 1);
    }
  }

  lemma InsertKeepsSorted(vals: seq<nat>, v: nat)
    requires Sorted(vals)
    ensures var k := InsertPos(vals, v); Sorted(vals[..k] + [v] + vals[k..])
  {
    var k := InsertPos(vals, v);
    var r := vals[..k] + [v] + vals[k..];
    forall i, j | 0 <= i < j < |r|
      ensures r[i] <= r[j]
    {
      if j > k {
        assert r[j] == vals[j - 1];
        assert vals[k] <= vals[j - 1];
      }
    }
  }

  /** Removing what was just inserted restores items and cursor alike. */
  lemma InsertThenRemove<T>(l: ListVal<T>, k: nat, x: T)
    requires l.Valid() && k <= |l.items|
    ensures RemoveAt(InsertAt(l, k, x), k) == l
  {
    var r := InsertAt(l, k, x);
    assert r.items[..k] + r.items[k + 1..] == l.items;
  }

  // ---------------------------------------------------------------- every run of a sorted list

  /** An item with its value and the moment it arrived. */
  datatype Arrival = Arrival(value: nat, time: nat)

  datatype ListOp = OpInsert(value: nat) | OpRemove(k: nat) | OpWalk

  datatype ListRun = ListRun(list: ListVal<Arrival>, clock: nat)

  function ArrivalValues(s: seq<Arrival>): (vs: seq<nat>)
    ensures |vs| == |s| && forall i :: 0 <= i < |s| ==> vs[i] == s[i].value
  {
    seq(|s|, i requires 0 <= i < |s| => s[i].value)
  }

  predicate OpEnabled(s: ListRun, op: ListOp) {
    match op
    case OpInsert(_) => true
    case OpRemove(k) => k < |s.list.items|
    case OpWalk => s.list.items != []
  }

  function ApplyOp(s: ListRun, op: ListOp): ListRun
    requires s.list.Valid() && OpEnabled(s, op)
  {
    match op
    case OpInsert(v) =>
      ListRun(InsertAt(s.list, InsertPos(ArrivalValues(s.list.items), v), Arrival(v, s.clock)), s.clock + 1)
    case OpRemove(k) => s.(list := RemoveAt(s.list, k))
    case OpWalk => s.(list := Advance(s.list))
  }

  /** Smaller value first, and among equal values the earlier arrival first. */
  predicate Before(a: Arrival, b: Arrival) {
    a.value < b.value || (a.value == b.value && a.time < b.time)
  }

  predicate RunInv(s: ListRun) {
    && s.list.Valid()
    && (forall i :: 0 <= i < |s.list.items| ==> s.list.items[i].time < s.clock)
    && (forall i, j :: 0 <= i < j < |s.list.items| ==> Before(s.list.items[i], s.list.items[j]))
  }

  predicate RunFrom(s: ListRun, ops: seq<ListOp>, s': ListRun)
    requires s.list.Valid()
    decreases |ops|
  {
    if ops == [] then s' == s
    else OpEnabled(s, ops[0]) && ApplyOp(s, ops[0]).list.Valid() && RunFrom(ApplyOp(s, ops[0]), ops[1..], s')
  }

  lemma InsertKeepsInv(s: ListRun, v: nat)
    requires RunInv(s)
    ensures RunInv(ApplyOp(s, OpInsert(v)))
  {
    var a := s.list.items;
    var k := InsertPos(ArrivalValues(a), v);
    var x := Arrival(v, s.clock);
    var b := a[..k] + [x] + a[k..];
    assert forall i :: 0 <= i < |b| ==> b[i] == x || b[i] in a;
    forall i, j | 0 <= i < j < |b|
      ensures Before(b[i], b[j])
    {
      InsertedOrder(a, k, x, i, j);
    }
  }

  lemma InsertedOrder(a: seq<Arrival>, k: nat, x: Arrival, i: nat, j: nat)
    requires forall i, j :: 0 <= i < j < |a| ==> Before(a[i], a[j])
    requires k <= |a| && (forall i :: 0 <= i < k ==> Before(a[i], x)) && (k < |a| ==> Before(x, a[k]))
    requires i < j <= |a|
    ensures var b := a[..k] + [x] + a[k..]; Before(b[i], b[j])
  {
    if i == k {
      assert j - 1 == k || Before(a[k], a[j - 1]);
    }
  }

  lemma RemoveKeepsInv(s: ListRun, k: nat)
    requires RunInv(s) && k < |s.list.items|
    ensures RunInv(ApplyOp(s, OpRemove(k)))
  {
    var a := s.list.items;
    var b := a[..k] + a[k + 1..];
    assert forall i :: 0 <= i < |b| ==> b[i] == a[if i < k then i else i + 1];
  }

  lemma OpKeepsInv(s: ListRun, op: ListOp)
    requires RunInv(s) && OpEnabled(s, op)
    ensures RunInv(ApplyOp(s, op))
  {
    match op
    case OpInsert(v) => InsertKeepsInv(s, v);
    case OpRemove(k) => RemoveKeepsInv(s, k);
    case OpWalk =>
  }

  /** Under every sequence of sorted inserts, removals and walks from the empty list, the list
      is ordered by value with ties in order of arrival, and the cursor stays inside it. */
  lemma {:induction false} SortedInEveryRun(s: ListRun, ops: seq<ListOp>, s': ListRun)
    requires RunInv(s) && RunFrom(s, ops, s')
    ensures RunInv(s')
    ensures Sorted(ArrivalValues(s'.list.items))
    decreases |ops|
  {
    if ops == [] {
      var a := s'.list.items;
      assert forall i, j :: 0 <= i < j < |a| ==> Before(a[i], a[j]);
    } else {
      OpKeepsInv(s, ops[0]);
      SortedInEveryRun(ApplyOp(s, ops[0]), ops[1..], s');
    }
  }

  // ---------------------------------------------------------------- walking

  function AdvanceN<T>(l: ListVal<T>, n: nat): (r: ListVal<T>)
    requires l.Valid() && l.items != []
    ensures r.Valid() && r.items == l.items
  {
    if n == 0 then l else Advance(AdvanceN(l, n - 1))
  }

  /** The items handed out by n walks. */
  function Visited<T>(l: ListVal<T>, n: nat): (v: seq<T>)
    requires l.Valid() && l.items != []
    ensures |v| == n
  {
    if n == 0 then [] else Visited(l, n - 1) + [Current(AdvanceN(l, n))]
  }

  lemma {:induction false} AdvanceNCursor<T>(l: ListVal<T>, n: nat)
    requires l.Valid() && l.items != [] && n <= |l.items|
    ensures AdvanceN(l, n).cursor == (if l.cursor + n <= |l.items| then l.cursor + n else l.cursor + n - |l.items|)
  {
    if n > 0 {
      AdvanceNCursor(l, n - 1);
    }
  }

  lemma {:induction false} VisitedIsRotation<T>(l: ListVal<T>, n: nat)
    requires l.Valid() && l.items != [] && n <= |l.items|
    ensures Visited(l, n) == (l.items[l.cursor..] + l.items[..l.cursor])[..n]
  {
    if n > 0 {
      VisitedIsRotation(l, n - 1);
      AdvanceNCursor(l, n);
      var rot := l.items[l.cursor..] + l.items[..l.cursor];
      assert rot[..n] == rot[..n - 1] + [rot[n - 1]];
    }
  }

  lemma RotationPermutes<T>(s: seq<T>, c: nat)
    requires c <= |s|
    ensures multiset((s[c..] + s[..c])[..|s|]) == multiset(s)
  {
    assert (s[c..] + s[..c])[..|s|] == s[c..] + s[..c];
    assert s == s[..c] + s[c..];
  }

  /** While nothing joins or leaves, n walks over n items hand out every item exactly once. */
  lemma RoundRobin<T>(l: ListVal<T>)
    requires l.Valid() && l.items != []
    ensures multiset(Visited(l, |l.items|)) == multiset(l.items)
    ensures AdvanceN(l, |l.items|).cursor == (if l.cursor == 0 then |l.items| else l.cursor)
  {
    VisitedIsRotation(l, |l.items|);
    AdvanceNCursor(l, |l.items|);
    RotationPermutes(l.items, l.cursor);
  }

  /** A new item is handed out after every other item except the one the cursor is on, which is
      the one handed out last unless that has left; with the cursor on the end marker it is
      handed out after all of them. */
  lemma NewcomerWaitsItsTurn<T>(l: ListVal<T>, x: T)
    requires l.Valid()
    ensures var n := |l.items|;
            if l.cursor == 0 then Visited(InsertEnd(l, x), n + 1) == l.items + [x]
            else
              var v := Visited(InsertEnd(l, x), n);
              v[n - 1] == x && multiset(v[..n - 1]) + multiset{Current(l)} == multiset(l.items)
  {
    var n, c := |l.items|, l.cursor;
    var m := InsertEnd(l, x);
    if c == 0 {
      assert m.items == l.items + [x];
      hide Visited;
      VisitedIsRotation(m, n + 1);
    } else {
      InsertedBehind(l, x);
      hide Visited, InsertEnd;
      VisitedIsRotation(m, n);
      var after, upto, now := l.items[c..], l.items[..c - 1], Current(l);
      var v := Visited(m, n);
      assert v == (after + (upto + [x] + [now]))[..n] == after + upto + [x];
      assert v[..n - 1] == after + upto;
      assert l.items == upto + [now] + after;
    }
  }

  lemma InsertedBehind<T>(l: ListVal<T>, x: T)
    requires l.Valid() && l.cursor >= 1
    ensures var m := InsertEnd(l, x);
            && m.items[m.cursor..] == l.items[l.cursor..] && |m.items| == |l.items| + 1
            && m.items[..m.cursor] == l.items[..l.cursor - 1] + [x] + [Current(l)]
  {
  }

  // ---------------------------------------------------------------- the ring of nodes

  class ListItem {
    var value: Tick
    var next: ListItem?
    var prev: ListItem?
    var container: List?

    /** vListInitialiseItem, with the item value its owner then sets. */
    constructor (v: Tick)
      ensures value == v && container == null && next == null && prev == null
    {
      value, container, next, prev := v, null, null, null;
    }
  }

  /** Consecutive nodes of r point at each other, and so do the last and the first. */
  ghost predicate Linked(r: seq<ListItem>)
    reads r
  {
    && r != []
    && (forall i {:trigger r[i].next} :: 0 <= i < |r| - 1 ==> r[i].next == r[i + 1])
    && r[|r| - 1].next == r[0]
    && (forall i {:trigger r[i].prev} :: 1 <= i < |r| ==> r[i].prev == r[i - 1])
    && r[0].prev == r[|r| - 1]
  }

  /** Every node but the first, the end marker, names l as its container. */
  ghost predicate Contained(r: seq<ListItem>, l: List)
    reads r
  {
    forall i :: 1 <= i < |r| ==> r[i].container == l
  }

  function Succ<T>(r: seq<T>, k: nat): (s: nat)
    requires k < |r|
    ensures s < |r|
  {
    if k + 1 == |r| then 0 else k + 1
  }

  function Pred<T>(r: seq<T>, k: nat): (s: nat)
    requires k < |r|
    ensures s < |r|
  {
    if k == 0 then |r| - 1 else k - 1
  }

  ghost function ValuesOf(s: seq<ListItem>): (vs: seq<nat>)
    reads s
    ensures |vs| == |s| && forall i :: 0 <= i < |s| ==> vs[i] == s[i].value
  {
    if s == [] then [] else [s[0].value as nat] + ValuesOf(s[1..])
  }

  // t is r with x behind node k
  ghost predicate Longer<T>(r: seq<T>, k: nat, x: T, t: seq<T>) {
    && k < |r| && |t| == |r| + 1 && t[k + 1] == x
    && (forall i {:trigger t[i]} :: 0 <= i <= k ==> t[i] == r[i])
    && (forall i {:trigger t[i]} :: k + 1 < i < |t| ==> t[i] == r[i - 1])
  }

  // t is r without node k
  ghost predicate Shorter<T>(r: seq<T>, k: nat, t: seq<T>) {
    && 1 <= k < |r| && |t| == |r| - 1
    && (forall i {:trigger t[i]} :: 0 <= i < k ==> t[i] == r[i])
    && (forall i {:trigger t[i]} :: k <= i < |t| ==> t[i] == r[i + 1])
  }

  /** A ring with a node put in behind node k, as a sequence and as the value of the list. */
  lemma RingInsert(r: seq<ListItem>, c: nat, k: nat, x: ListItem) returns (t: seq<ListItem>)
    requires Distinct(r) && x !in r && k < |r| && c < |r|
    ensures Longer(r, k, x, t) && Distinct(t) && |t| == |r| + 1 && t[0] == r[0] && t[CursorAfterInsert(c, k)] == r[c]
    ensures ListVal(t[1..], CursorAfterInsert(c, k)) == InsertAt(ListVal(r[1..], c), k, x)
  {
    t := r[..k + 1] + [x] + r[k + 1..];
    assert t[1..] == r[1..][..k] + [x] + r[1..][k..];
  }

  lemma RingRemove(r: seq<ListItem>, c: nat, k: nat) returns (t: seq<ListItem>)
    requires Distinct(r) && 1 <= k < |r| && c < |r|
    ensures Shorter(r, k, t) && Distinct(t) && |t| == |r| - 1 && t[0] == r[0]
    ensures t[CursorAfterRemove(c, k - 1)] == if c == k then r[k - 1] else r[c]
    ensures ListVal(t[1..], CursorAfterRemove(c, k - 1)) == RemoveAt(ListVal(r[1..], c), k - 1)
  {
    t := r[..k] + r[k + 1..];
    assert t[1..] == r[1..][..k - 1] + r[1..][k..];
  }

  // the neighbours of a node that is in r
  ghost function NextIn(r: seq<ListItem>, x: ListItem): ListItem
    requires x in r
  {
    var i :| 0 <= i < |r| && r[i] == x;
    r[Succ(r, i)]
  }

  ghost function PrevIn(r: seq<ListItem>, x: ListItem): ListItem
    requires x in r
  {
    var i :| 0 <= i < |r| && r[i] == x;
    r[Pred(r, i)]
  }

  lemma LinkedNodes(r: seq<ListItem>)
    requires Linked(r)
    ensures forall x :: x in r ==> x.next == NextIn(r, x) && x.prev == PrevIn(r, x)
  {
  }

  lemma NeighboursIn(r: seq<ListItem>, i: nat)
    requires Distinct(r) && i < |r|
    ensures NextIn(r, r[i]) == r[Succ(r, i)] && PrevIn(r, r[i]) == r[Pred(r, i)]
  {
  }

  ghost predicate NextsFit(t: seq<ListItem>)
    reads t
  {
    forall i {:trigger t[i].next} :: 0 <= i < |t| ==> t[i].next == t[Succ(t, i)]
  }

  ghost predicate PrevsFit(t: seq<ListItem>)
    reads t
  {
    forall i {:trigger t[i].prev} :: 0 <= i < |t| ==> t[i].prev == t[Pred(t, i)]
  }

  lemma FitIsLinked(t: seq<ListItem>)
    requires t != [] && NextsFit(t) && PrevsFit(t)
    ensures Linked(t)
  {
  }

  /** Relinking two neighbours to a new node links the longer ring. */
  lemma SpliceIn(l: List, r: seq<ListItem>, k: nat, item: ListItem, t: seq<ListItem>)
    requires Distinct(r) && Longer(r, k, item, t)
    requires item.container == l && item.prev == r[k] && item.next == r[Succ(r, k)]
    requires r[k].next == item && r[Succ(r, k)].prev == item
    requires forall x :: x in r && x != r[0] ==> x.container == l
    requires forall x :: x in r && x != r[k] ==> x.next == NextIn(r, x)
    requires forall x :: x in r && x != r[Succ(r, k)] ==> x.prev == PrevIn(r, x)
    ensures Linked(t) && Contained(t, l)
  {
    hide NextIn, PrevIn, Linked, NextsFit, PrevsFit;
    SplicedNexts(r, k, item, t);
    SplicedPrevs(r, k, item, t);
    FitIsLinked(t);
  }

  lemma SplicedNexts(r: seq<ListItem>, k: nat, item: ListItem, t: seq<ListItem>)
    requires Distinct(r) && Longer(r, k, item, t)
    requires item.next == r[Succ(r, k)] && r[k].next == item
    requires forall x :: x in r && x != r[k] ==> x.next == NextIn(r, x)
    ensures NextsFit(t)
  {
    hide NextIn;
    forall i | 0 <= i < |t|
      ensures t[i].next == t[Succ(t, i)]
    {
      if i <= k {
        NeighboursIn(r, i);
      } else if i > k + 1 {
        NeighboursIn(r, i - 1);
      }
    }
  }

  lemma SplicedPrevs(r: seq<ListItem>, k: nat, item: ListItem, t: seq<ListItem>)
    requires Distinct(r) && Longer(r, k, item, t)
    requires item.prev == r[k] && r[Succ(r, k)].prev == item
    requires forall x :: x in r && x != r[Succ(r, k)] ==> x.prev == PrevIn(r, x)
    ensures PrevsFit(t)
  {
    hide PrevIn;
    forall i | 0 <= i < |t|
      ensures t[i].prev == t[Pred(t, i)]
    {
      if i <= k {
        NeighboursIn(r, i);
      } else if i > k + 1 {
        NeighboursIn(r, i - 1);
      }
    }
  }

  /** Linking the two neighbours of a node to each other links the shorter ring. */
  lemma SpliceOut(l: List, r: seq<ListItem>, k: nat, t: seq<ListItem>)
    requires Distinct(r) && Shorter(r, k, t)
    requires r[k - 1].next == r[Succ(r, k)] && r[Succ(r, k)].prev == r[k - 1]
    requires forall x :: x in r && x != r[0] && x != r[k] ==> x.container == l
    requires forall x :: x in r && x != r[k - 1] ==> x.next == NextIn(r, x)
    requires forall x :: x in r && x != r[Succ(r, k)] ==> x.prev == PrevIn(r, x)
    ensures Linked(t) && Contained(t, l)
  {
    hide NextIn, PrevIn, Linked, NextsFit, PrevsFit;
    BypassedNexts(r, k, t);
    BypassedPrevs(r, k, t);
    FitIsLinked(t);
  }

  lemma BypassedNexts(r: seq<ListItem>, k: nat, t: seq<ListItem>)
    requires Distinct(r) && Shorter(r, k, t) && r[k - 1].next == r[Succ(r, k)]
    requires forall x :: x in r && x != r[k - 1] ==> x.next == NextIn(r, x)
    ensures NextsFit(t)
  {
    hide NextIn;
    forall i | 0 <= i < |t|
      ensures t[i].next == t[Succ(t, i)]
    {
      NeighboursIn(r, if i < k then i else i + 1);
    }
  }

  lemma BypassedPrevs(r: seq<ListItem>, k: nat, t: seq<ListItem>)
    requires Distinct(r) && Shorter(r, k, t) && r[Succ(r, k)].prev == r[k - 1]
    requires forall x :: x in r && x != r[Succ(r, k)] ==> x.prev == PrevIn(r, x)
    ensures PrevsFit(t)
  {
    hide PrevIn;
    forall i | 0 <= i < |t|
      ensures t[i].prev == t[Pred(t, i)]
    {
      NeighboursIn(r, if i < k then i else i + 1);
    }
  }

  lemma ContainedIn(r: seq<ListItem>, l: List)
    requires Contained(r, l) && r != []
    ensures forall x :: x in r && x != r[0] ==> x.container == l
  {
  }

  lemma Neighbours(r: seq<ListItem>, k: nat)
    requires Linked(r) && k < |r|
    ensures r[k].next == r[Succ(r, k)] && r[Succ(r, k)].prev == r[k]
  {
  }

  lemma OnlyOne(r: seq<ListItem>, j: nat, k: nat)
    requires Distinct(r) && j < |r| && k < |r|
    ensures r[j] == r[k] <==> j == k
  {
  }

  class List {
    const end: ListItem
    var index: ListItem
    var count: nat
    // the end marker followed by the items from head to tail
    ghost var ring: seq<ListItem>
    // where in the ring `index` points
    ghost var cursor: nat

    ghost predicate Valid()
      reads this, ring
    {
      && Linked(ring) && Distinct(ring)
      && ring[0] == end && end.value == MAX_DELAY
      && Contained(ring, this)
      && count == |ring| - 1
      && cursor < |ring| && index == ring[cursor]
    }

    ghost function Abs(): (l: ListVal<ListItem>)
      reads this, ring
      requires Valid()
      ensures l.Valid()
    {
      ListVal(ring[1..], cursor)
    }

    ghost function Values(): (vs: seq<nat>)
      reads this, ring
      requires Valid()
    {
      ValuesOf(ring[1..])
    }

    /** vListInitialise */
    constructor ()
      ensures Valid() && fresh(end) && Abs() == ListVal([], 0)
    {
      var e := new ListItem(MAX_DELAY);
      end := e;
      index := e;
      count := 0;
      ring := [e];
      cursor := 0;
      new;
      end.next := end;
      end.prev := end;
    }

    /** vListInsertEnd */
    method InsertItemEnd(item: ListItem)
      requires Valid() && item !in ring
      modifies this, ring`next, ring`prev, item`next, item`prev, item`container
      ensures Valid() && Abs() == InsertEnd(old(Abs()), item)
    {
      ghost var k := BehindCursor(Abs());
      assert index == ring[Succ(ring, k)];
      LinkBefore(k, item);
    }

    // the body of vListInsertEnd, with k the node before the one `index` points at
    method LinkBefore(ghost k: nat, item: ListItem)
      requires Valid() && item !in ring && k < |ring| && index == ring[Succ(ring, k)]
      modifies this, ring`next, ring`prev, item`next, item`prev, item`container
      ensures Valid() && Abs() == InsertAt(old(Abs()), k, item)
    {
      ghost var r := ring;
      hide Linked, NextIn, PrevIn, Distinct, Contained, Longer, Shorter, InsertAt, RemoveAt;
      LinkedNodes(r);
      ContainedIn(r, this);
      assert index == r[Succ(r, k)];
      Neighbours(r, k);
      ring := RingInsert(r, cursor, k, item);
      cursor := CursorAfterInsert(cursor, k);
      item.next := index;
      item.prev := index.prev;
      index.prev.next := item;
      index.prev := item;
      item.container := this;
      count := count + 1;
      SpliceIn(this, r, k, item, ring);
    }

    /** vListInsert */
    method InsertItem(item: ListItem)
      requires Valid() && item !in ring
      modifies this, ring`next, ring`prev, item`next, item`prev, item`container
      ensures Valid()
      ensures Abs() == InsertAt(old(Abs()), InsertPos(old(Values()), old(item.value)), item)
    {
      hide Linked, Contained, Distinct, InsertAt, InsertPos, ValuesOf;
      var iter, k := FindPosition(item.value);
      LinkAfter(iter, k, item);
    }

    // the second half of vListInsert
    method LinkAfter(iter: ListItem, ghost k: nat, item: ListItem)
      requires Valid() && item !in ring && k < |ring| && iter == ring[k]
      modifies this, ring`next, ring`prev, item`next, item`prev, item`container
      ensures Valid() && Abs() == InsertAt(old(Abs()), k, item)
    {
      ghost var r := ring;
      hide Linked, NextIn, PrevIn, Distinct, Contained, Longer, Shorter, InsertAt, RemoveAt;
      LinkedNodes(r);
      ContainedIn(r, this);
      Neighbours(r, k);
      ring := RingInsert(r, cursor, k, item);
      cursor := CursorAfterInsert(cursor, k);
      item.next := iter.next;
      item.next.prev := item;
      item.prev := iter;
      iter.next := item;
      item.container := this;
      count := count + 1;
      SpliceIn(this, r, k, item, ring);
    }

    // the search at the head of vListInsert
    method FindPosition(v: Tick) returns (iter: ListItem, ghost k: nat)
      requires Valid()
      ensures k == InsertPos(Values(), v) && iter == ring[k] && iter.next != null
    {
      k := 0;
      if v == MAX_DELAY {
        iter := end.prev;
        k := |ring| - 1;
      } else {
        iter := end;
        while iter.next.value <= v
          invariant k < |ring| && iter == ring[k] && iter.next != null
          invariant forall i :: 1 <= i <= k ==> ring[i].value <= v
          decreases |ring| - k
        {
          iter := iter.next;
          k := k + 1;
        }
      }
      InsertPosUnique(Values(), v, k);
    }

    /** uxListRemove: the list is found through the item's container field. */
    static method Remove(item: ListItem, ghost k: nat) returns (remaining: nat)
      requires item.container != null && item.container.Valid()
      requires 1 <= k < |item.container.ring| && item.container.ring[k] == item
      modifies item.container, item.container.ring`next, item.container.ring`prev, item`container
      ensures var l := old(item.container);
              && l.Valid() && l.Abs() == RemoveAt(old(item.container.Abs()), k - 1)
              && remaining == l.count && item.container == null
    {
      var l := item.container;
      remaining := l.Unlink(item, k);
    }

    // the body of uxListRemove once the list is known
    method Unlink(item: ListItem, ghost k: nat) returns (remaining: nat)
      requires Valid() && 1 <= k < |ring| && ring[k] == item
      modifies this, ring`next, ring`prev, item`container
      ensures Valid() && Abs() == RemoveAt(old(Abs()), k - 1)
      ensures remaining == count && item.container == null
    {
      ghost var r := ring;
      hide Linked, NextIn, PrevIn, Distinct, Contained, Longer, Shorter, InsertAt, RemoveAt;
      ContainedIn(r, this);
      OnlyOne(r, cursor, k);
      Bypass(item, k);
      if index == item {
        index := item.prev;
      }
      item.container := null;
      count := count - 1;
      ring := RingRemove(r, cursor, k);
      cursor := CursorAfterRemove(cursor, k - 1);
      SpliceOut(this, r, k, ring);
      remaining := count;
    }

    // the neighbours of the item are linked to each other
    method Bypass(item: ListItem, ghost k: nat)
      requires Linked(ring) && Distinct(ring) && 1 <= k < |ring| && ring[k] == item
      modifies ring`next, ring`prev
      ensures ring[k - 1].next == ring[Succ(ring, k)] && ring[Succ(ring, k)].prev == ring[k - 1]
      ensures item.prev == ring[k - 1]
      ensures forall x :: x in ring && x != ring[k - 1] ==> x.next == NextIn(ring, x)
      ensures forall x :: x in ring && x != ring[Succ(ring, k)] ==> x.prev == PrevIn(ring, x)
    {
      hide Linked, NextIn, PrevIn, Distinct;
      LinkedNodes(ring);
      Neighbours(ring, k);
      Neighbours(ring, k - 1);
      OnlyOne(ring, Succ(ring, k), k);
      OnlyOne(ring, k - 1, k);
      item.next.prev := item.prev;
      item.prev.next := item.next;
    }

    /** listGET_OWNER_OF_NEXT_ENTRY */
    method NextEntry() returns (item: ListItem)
      requires Valid() && count > 0
      modifies this`index, this`cursor
      ensures Valid() && Abs() == Advance(old(Abs())) && item == Current(Abs())
    {
      index := index.next;
      cursor := if cursor == |ring| - 1 then 0 else cursor + 1;
      if index == end {
        assert cursor == 0;
        index := index.next;
        cursor := 1;
      }
      item := index;
    }
  }
}
