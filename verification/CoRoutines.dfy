/**
 The co-routine scheduler (supports/rtos/croutine.c).

 A co-routine is a number.  It owns a generic item, which is on a ready list or on one of the
 two delay lists, and an event item, which is on an event list or on the pending list; a `Rack`
 holds such a family of lists with the container of every item.  `Sys` adds the priorities,
 the 32-bit tick counter and, for the specification only, an unbounded clock with every
 co-routine's true wake time.  `Core` holds at every point where an interrupt may strike; the
 lemmas say that each elementary step keeps it.  Class `Scheduler` holds the functions of the
 source; interrupts strike in the middle of them as an arbitrary oracle says.
 */
module CoRoutines {
  import opened Common
  import opened Lists

  const M: nat := 0x1_0000_0000

  // ---------------------------------------------------------------- lists and containers

  /** home[c] is the list that c's item is on, or |lists| when it is on none. */
  datatype Rack = Rack(home: seq<nat>, lists: seq<ListVal<nat>>)

  predicate AllAtHome(items: seq<nat>, home: seq<nat>, k: nat) {
    forall c :: c in items ==> c < |home| && home[c] == k
  }

  /** Container and list contents agree: every item is on exactly the list it says, once. */
  predicate Placed(r: Rack) {
    && (forall k :: 0 <= k < |r.lists| ==> r.lists[k].Valid() && Distinct(r.lists[k].items))
    && (forall k :: 0 <= k < |r.lists| ==> AllAtHome(r.lists[k].items, r.home, k))
    && (forall c :: 0 <= c < |r.home| ==>
          r.home[c] <= |r.lists| && (r.home[c] < |r.lists| ==> c in r.lists[r.home[c]].items))
  }

  predicate On(r: Rack, c: nat) {
    c < |r.home| && r.home[c] < |r.lists|
  }

  function IndexOf(s: seq<nat>, x: nat): (i: nat)
    requires x in s
    ensures i < |s| && s[i] == x
  {
    if s[0] == x then 0 else 1 + IndexOf(s[1..], x)
  }

  /** uxListRemove: the container says which list the item leaves. */
  function Take(r: Rack, c: nat): Rack
    requires Placed(r) && On(r, c)
  {
    var k := r.home[c];
    Rack(r.home[c := |r.lists|], r.lists[k := RemoveAt(r.lists[k], IndexOf(r.lists[k].items, c))])
  }

  function Put(r: Rack, c: nat, k: nat, pos: nat): Rack
    requires Placed(r) && c < |r.home| && k < |r.lists| && pos <= |r.lists[k].items|
  {
    Rack(r.home[c := k], r.lists[k := InsertAt(r.lists[k], pos, c)])
  }

  lemma RemovedItems(s: seq<nat>, i: nat)
    requires i < |s| && Distinct(s)
    ensures var t := s[..i] + s[i + 1..];
            Distinct(t) && forall x: nat :: x in t <==> x in s && x != s[i]
  {
    var t := s[..i] + s[i + 1..];
    assert forall j :: 0 <= j < |t| ==> t[j] == s[if j < i then j else j + 1];
    forall x: nat | x in s && x != s[i]
      ensures x in t
    {
      var j := IndexOf(s, x);
      assert t[if j < i then j else j - 1] == x;
    }
  }

  lemma InsertedItems(s: seq<nat>, c: nat, pos: nat)
    requires pos <= |s| && Distinct(s) && c !in s
    ensures var t := s[..pos] + [c] + s[pos..];
            Distinct(t) && forall x: nat :: x in t <==> x in s || x == c
  {
    var t := s[..pos] + [c] + s[pos..];
    assert t[pos] == c;
    assert forall j :: 0 <= j < |t| && j != pos ==> t[j] == s[if j < pos then j else j - 1];
    forall x: nat | x in s
      ensures x in t
    {
      var j := IndexOf(s, x);
      assert t[if j < pos then j else j + 1] == x;
    }
  }

  lemma TakeKeepsPlaced(r: Rack, c: nat)
    requires Placed(r) && On(r, c)
    ensures Placed(Take(r, c))
    ensures c in r.lists[r.home[c]].items
    ensures var s := r.lists[r.home[c]].items;
            Take(r, c).lists[r.home[c]].items == s[..IndexOf(s, c)] + s[IndexOf(s, c) + 1..]
  {
    hide IndexOf, Distinct;
    var k := r.home[c];
    var s := r.lists[k].items;
    RemovedItems(s, IndexOf(s, c));
    assert Take(r, c).lists[k].items == s[..IndexOf(s, c)] + s[IndexOf(s, c) + 1..];
  }

  lemma PutKeepsPlaced(r: Rack, c: nat, k: nat, pos: nat)
    requires Placed(r) && c < |r.home| && !On(r, c) && k < |r.lists| && pos <= |r.lists[k].items|
    ensures Placed(Put(r, c, k, pos))
    ensures var s := r.lists[k].items; Put(r, c, k, pos).lists[k].items == s[..pos] + [c] + s[pos..]
    ensures c !in r.lists[k].items
  {
    hide Distinct;
    var s := r.lists[k].items;
    InsertedItems(s, c, pos);
    var r' := Put(r, c, k, pos);
    assert r'.lists[k].items == s[..pos] + [c] + s[pos..];
    forall j | 0 <= j < |r.lists| ensures AllAtHome(r'.lists[j].items, r'.home, j) {
      assert AllAtHome(r.lists[j].items, r.home, j);
    }
  }

  // ---------------------------------------------------------------- orders

  predicate SortedBy(s: seq<nat>, key: seq<nat>) {
    && (forall i :: 0 <= i < |s| ==> s[i] < |key|)
    && (forall i, j :: 0 <= i < j < |s| ==> key[s[i]] <= key[s[j]])
  }

  function Keys(s: seq<nat>, key: seq<nat>): (ks: seq<nat>)
    requires forall i :: 0 <= i < |s| ==> s[i] < |key|
    ensures |ks| == |s| && forall i :: 0 <= i < |s| ==> ks[i] == key[s[i]]
  {
    seq(|s|, i requires 0 <= i < |s| => key[s[i]])
  }

  /** Higher priority first, and among equals the one that has waited longer. */
  predicate Sooner(a: nat, b: nat, prio: seq<nat>, since: seq<nat>)
    requires a < |prio| == |since| && b < |prio|
  {
    prio[a] > prio[b] || (prio[a] == prio[b] && since[a] < since[b])
  }

  predicate InWakeOrder(s: seq<nat>, prio: seq<nat>, since: seq<nat>) {
    && |prio| == |since|
    && (forall i :: 0 <= i < |s| ==> s[i] < |prio|)
    && (forall i, j :: 0 <= i < j < |s| ==> Sooner(s[i], s[j], prio, since))
  }

  lemma SortedRemove(s: seq<nat>, i: nat, key: seq<nat>)
    requires i < |s| && SortedBy(s, key)
    ensures SortedBy(s[..i] + s[i + 1..], key)
  {
    var t := s[..i] + s[i + 1..];
    assert forall j :: 0 <= j < |t| ==> t[j] == s[if j < i then j else j + 1];
  }

  lemma SortedInsertAt(s: seq<nat>, c: nat, p: nat, key: seq<nat>)
    requires SortedBy(s, key) && c < |key| && p <= |s|
    requires forall i :: 0 <= i < p ==> key[s[i]] <= key[c]
    requires p < |s| ==> key[c] <= key[s[p]]
    ensures SortedBy(s[..p] + [c] + s[p..], key)
  {
    var t := s[..p] + [c] + s[p..];
    forall i, j | 0 <= i < j < |t|
      ensures key[t[i]] <= key[t[j]]
    {
      if i == p {
        assert key[s[p]] <= key[s[j - 1]];
      }
    }
  }

  lemma SortedInsert(s: seq<nat>, c: nat, key: seq<nat>)
    requires SortedBy(s, key) && c < |key|
    ensures var p := InsertPos(Keys(s, key), key[c]); SortedBy(s[..p] + [c] + s[p..], key)
  {
    hide InsertPos, Keys;
    var ks := Keys(s, key);
    var p := InsertPos(ks, key[c]);
    forall i | 0 <= i < p ensures key[s[i]] <= key[c] {
      assert ks[i] <= key[c];
    }
    SortedInsertAt(s, c, p, key);
  }

  lemma OrderRemove(s: seq<nat>, i: nat, prio: seq<nat>, since: seq<nat>)
    requires i < |s| && InWakeOrder(s, prio, since)
    ensures InWakeOrder(s[..i] + s[i + 1..], prio, since)
  {
    var t := s[..i] + s[i + 1..];
    assert forall j :: 0 <= j < |t| ==> t[j] == s[if j < i then j else j + 1];
  }

  /** The value of an event item: the priority turned round, so that sorted insertion puts
      high priorities first. */
  function EventKey(P: nat, prio: nat): nat
    requires prio < P
  {
    P - prio
  }

  function EventKeys(P: nat, s: seq<nat>, prio: seq<nat>): (ks: seq<nat>)
    requires forall i :: 0 <= i < |s| ==> s[i] < |prio| && prio[s[i]] < P
    ensures |ks| == |s| && forall i :: 0 <= i < |s| ==> ks[i] == EventKey(P, prio[s[i]])
  {
    seq(|s|, i requires 0 <= i < |s| => EventKey(P, prio[s[i]]))
  }

  lemma OrderInsertAt(s: seq<nat>, c: nat, p: nat, prio: seq<nat>, since: seq<nat>)
    requires InWakeOrder(s, prio, since) && c < |prio| && p <= |s|
    requires forall i :: 0 <= i < p ==> Sooner(s[i], c, prio, since)
    requires p < |s| ==> Sooner(c, s[p], prio, since)
    ensures InWakeOrder(s[..p] + [c] + s[p..], prio, since)
  {
    var t := s[..p] + [c] + s[p..];
    forall i, j | 0 <= i < j < |t|
      ensures Sooner(t[i], t[j], prio, since)
    {
      if i == p {
        assert j == p + 1 || Sooner(s[p], s[j - 1], prio, since);
      }
    }
  }

  lemma OrderInsert(P: nat, s: seq<nat>, c: nat, prio: seq<nat>, since: seq<nat>)
    requires InWakeOrder(s, prio, since) && c < |prio| && (forall x :: 0 <= x < |prio| ==> prio[x] < P)
    requires forall i :: 0 <= i < |s| ==> since[s[i]] < since[c]
    ensures var p := InsertPos(EventKeys(P, s, prio), EventKey(P, prio[c]));
            InWakeOrder(s[..p] + [c] + s[p..], prio, since)
  {
    var ks := EventKeys(P, s, prio);
    var p := InsertPos(ks, EventKey(P, prio[c]));
    forall i | 0 <= i < p ensures Sooner(s[i], c, prio, since) {
      assert ks[i] <= EventKey(P, prio[c]);
    }
    if p < |s| {
      assert EventKey(P, prio[c]) < ks[p];
    }
    OrderInsertAt(s, c, p, prio, since);
  }

  // ---------------------------------------------------------------- the state and its invariant

  /** generic.lists holds the P ready lists and then the two delay lists, of which cur is the
      one in use; event.lists[0] is the pending list.  The clock stands at base + tick. */
  datatype Sys = Sys(
    P: nat, generic: Rack, event: Rack, prio: seq<nat>, value: seq<nat>,
    cur: nat, top: nat, tick: nat,
    base: nat, wake: seq<nat>, since: seq<nat>, stamp: nat, fired: set<nat>)
  {
    function Other(): nat {
      if cur == P then P + 1 else P
    }
    function Clock(): nat {
      base + tick
    }
  }

  predicate Shape(s: Sys) {
    && s.P >= 1 && |s.generic.lists| == s.P + 2 && |s.event.lists| >= 1
    && |s.generic.home| == |s.event.home| == |s.prio| == |s.value| == |s.wake| == |s.since|
    && (s.cur == s.P || s.cur == s.P + 1) && s.top < s.P
    && s.tick < M && s.base % M == 0
  }

  predicate Delayed(s: Sys, c: nat) {
    c < |s.generic.home| && (s.generic.home[c] == s.P || s.generic.home[c] == s.P + 1)
  }

  predicate ReadyOk(s: Sys)
    requires Shape(s)
  {
    forall c :: 0 <= c < |s.prio| ==>
      s.prio[c] < s.P && (s.generic.home[c] < s.P ==> s.generic.home[c] == s.prio[c] <= s.top)
  }

  /** A value on the delay list in use counts from the start of this period of the tick
      counter, one on the other list from the start of the next. */
  predicate TimeOk(s: Sys)
    requires Shape(s)
  {
    && (forall c :: 0 <= c < |s.value| ==>
         && s.value[c] < M
         && (s.generic.home[c] == s.cur ==> s.wake[c] == s.base + s.value[c] && s.value[c] >= s.tick)
         && (s.generic.home[c] == s.Other() ==> s.wake[c] == s.base + M + s.value[c]))
    && SortedBy(s.generic.lists[s.P].items, s.value)
    && SortedBy(s.generic.lists[s.P + 1].items, s.value)
  }

  predicate WaitOk(s: Sys)
    requires Shape(s)
  {
    && (forall c :: 0 <= c < |s.since| ==>
         && s.since[c] < s.stamp
         && (On(s.event, c) ==> Delayed(s, c))
         && (s.event.home[c] == 0 ==> c in s.fired))
    && forall k :: 1 <= k < |s.event.lists| ==> InWakeOrder(s.event.lists[k].items, s.prio, s.since)
  }

  /** Holds wherever an interrupt may strike. */
  ghost predicate Core(s: Sys) {
    Shape(s) && Placed(s.generic) && Placed(s.event) && ReadyOk(s) && TimeOk(s) && WaitOk(s)
  }

  lemma HasShape(s: Sys)
    requires Core(s)
    ensures Shape(s)
  {
  }

  // what the assignments below need of Core
  lemma ArePlaced(s: Sys)
    requires Core(s)
    ensures Shape(s) && Placed(s.generic) && Placed(s.event)
    ensures SortedBy(s.generic.lists[s.P].items, s.value) && SortedBy(s.generic.lists[s.P + 1].items, s.value)
    ensures forall c :: 0 <= c < |s.prio| ==> s.prio[c] < s.P
    ensures forall k, c :: 0 <= k < |s.event.lists| && c in s.event.lists[k].items ==> c < |s.prio|
  {
  }

  lemma ReadyIsFree(s: Sys, c: nat)
    requires Core(s) && c < |s.prio| && s.generic.home[c] < s.P
    ensures Shape(s) && On(s.generic, c) && !On(s.event, c)
  {
  }

  lemma PendingHead(s: Sys)
    requires Core(s) && s.event.lists[0].items != []
    ensures Shape(s)
    ensures var c := s.event.lists[0].items[0];
            On(s.event, c) && s.event.home[c] == 0 && c < |s.prio| && Delayed(s, c) && On(s.generic, c) && c in s.fired
  {
    HeadOn(s.event, 0);
  }

  lemma DelayHead(s: Sys)
    requires Core(s) && s.generic.lists[s.cur].items != []
    ensures Shape(s)
    ensures var c := s.generic.lists[s.cur].items[0];
            && On(s.generic, c) && s.generic.home[c] == s.cur && Delayed(s, c) && c < |s.prio|
            && s.wake[c] == s.base + s.value[c]
  {
    HeadOn(s.generic, s.cur);
  }

  lemma SameBacklog(s0: Sys, s: Sys)
    requires Shape(s0) && Shape(s) && s.generic == s0.generic && s.P == s0.P
    ensures Backlog(s) == Backlog(s0)
  {
  }

  lemma SameTimes(s0: Sys, s: Sys)
    requires Shape(s0) && Shape(s) && s == s0.(event := s.event, since := s.since, stamp := s.stamp)
    ensures (OnTime(s) <==> OnTime(s0)) && (Settled(s) <==> Settled(s0))
  {
  }

  function Backlog(s: Sys): nat
    requires Shape(s)
  {
    |s.generic.lists[s.P].items| + |s.generic.lists[s.P + 1].items|
  }

  /** No delayed co-routine is due. */
  predicate OnTime(s: Sys)
    requires Shape(s)
  {
    forall c :: 0 <= c < |s.wake| && Delayed(s, c) ==> s.wake[c] > s.Clock()
  }

  predicate Settled(s: Sys) {
    forall c :: 0 <= c < |s.generic.home| ==> On(s.generic, c)
  }

  // ---------------------------------------------------------------- elementary steps

  function LeaveEvent(s: Sys, c: nat): Sys
    requires Core(s) && On(s.event, c)
  {
    s.(event := Take(s.event, c))
  }

  lemma LeaveEventKeeps(s: Sys, c: nat)
    requires Core(s) && On(s.event, c)
    ensures Core(LeaveEvent(s, c))
  {
    hide Placed;
    TakeKeepsPlaced(s.event, c);
    var items := s.event.lists[s.event.home[c]].items;
    if s.event.home[c] >= 1 {
      OrderRemove(items, IndexOf(items, c), s.prio, s.since);
    }
  }

  lemma ListsValid(r: Rack)
    requires Placed(r)
    ensures forall k :: 0 <= k < |r.lists| ==> r.lists[k].Valid()
  {
  }

  /** The event that c waits for has happened: its event item moves to the pending list. */
  function Fire(s: Sys, c: nat): Sys
    requires Core(s) && On(s.event, c) && Core(LeaveEvent(s, c))
  {
    var e := Take(s.event, c);
    s.(event := Put(e, c, 0, BehindCursor(e.lists[0])), fired := s.fired + {c})
  }

  lemma FireKeeps(s: Sys, c: nat)
    requires Core(s) && On(s.event, c)
    ensures Core(LeaveEvent(s, c)) && Core(Fire(s, c))
    ensures Fire(s, c).event.home == s.event.home[c := 0]
    ensures s.event.home[c] > 0 ==>
      s.event.lists[0].Valid() && Fire(s, c).event.lists[0] == InsertEnd(s.event.lists[0], c)
  {
    hide InWakeOrder, SortedBy, IndexOf, Placed;
    LeaveEventKeeps(s, c);
    var e := LeaveEvent(s, c).event;
    ListsValid(e);
    ListsValid(s.event);
    PutKeepsPlaced(e, c, 0, BehindCursor(e.lists[0]));
  }

  function LeaveGeneric(s: Sys, c: nat): Sys
    requires Core(s) && On(s.generic, c)
  {
    s.(generic := Take(s.generic, c))
  }

  lemma LeaveGenericKeeps(s: Sys, c: nat)
    requires Core(s) && On(s.generic, c) && !On(s.event, c)
    ensures Core(LeaveGeneric(s, c))
    ensures LeaveGeneric(s, c).generic.home == s.generic.home[c := s.P + 2]
    ensures Delayed(s, c) ==> Backlog(LeaveGeneric(s, c)) == Backlog(s) - 1
    ensures Delayed(s, c) ==> LeaveGeneric(s, c).generic.lists[..s.P] == s.generic.lists[..s.P]
  {
    hide Placed, InWakeOrder, IndexOf, SortedBy;
    TakeKeepsPlaced(s.generic, c);
    var items := s.generic.lists[s.generic.home[c]].items;
    if s.generic.home[c] >= s.P {
      SortedRemove(items, IndexOf(items, c), s.value);
    }
  }

  // both items of c leave their lists
  function Unlink(s: Sys, c: nat): Sys
    requires Core(s) && On(s.generic, c)
  {
    s.(generic := Take(s.generic, c), event := if On(s.event, c) then Take(s.event, c) else s.event)
  }

  lemma UnlinkKeeps(s: Sys, c: nat)
    requires Core(s) && Delayed(s, c) && On(s.generic, c)
    ensures Core(Unlink(s, c)) && Backlog(Unlink(s, c)) == Backlog(s) - 1
    ensures Unlink(s, c).generic.lists[..s.P] == s.generic.lists[..s.P]
    ensures Unlink(s, c).generic.home == s.generic.home[c := s.P + 2]
    ensures Unlink(s, c).event.home == s.event.home[c := |s.event.lists|] && |Unlink(s, c).event.lists| == |s.event.lists|
  {
    hide ReadyOk, TimeOk, WaitOk;
    if On(s.event, c) {
      LeaveEventKeeps(s, c);
      LeaveGenericKeeps(LeaveEvent(s, c), c);
      assert Unlink(s, c) == LeaveGeneric(LeaveEvent(s, c), c);
    } else {
      LeaveGenericKeeps(s, c);
      assert Unlink(s, c) == LeaveGeneric(s, c);
    }
  }

  /** prvAddCoRoutineToReadyQueue */
  function MakeReady(s: Sys, c: nat): Sys
    requires Core(s) && c < |s.prio|
  {
    var p := s.prio[c];
    s.(generic := Put(s.generic, c, p, BehindCursor(s.generic.lists[p])), top := if p > s.top then p else s.top)
  }

  lemma MakeReadyKeeps(s: Sys, c: nat)
    requires Core(s) && c < |s.prio| && !On(s.generic, c)
    ensures Core(MakeReady(s, c))
    ensures MakeReady(s, c).generic.home == s.generic.home[c := s.prio[c]]
    ensures Backlog(MakeReady(s, c)) == Backlog(s)
    ensures MakeReady(s, c).generic.lists[s.prio[c]] == InsertEnd(s.generic.lists[s.prio[c]], c)
  {
    hide InWakeOrder, SortedBy;
    var p := s.prio[c];
    PutKeepsPlaced(s.generic, c, p, BehindCursor(s.generic.lists[p]));
  }

  // c goes on delay list k with value v, to wake at w
  function Asleep(s: Sys, c: nat, k: nat, v: nat, w: nat): Sys
    requires Core(s) && c < |s.prio| && (k == s.P || k == s.P + 1)
  {
    var value := s.value[c := v];
    var pos := InsertPos(Keys(s.generic.lists[k].items, value), v);
    s.(value := value, wake := s.wake[c := w], generic := Put(s.generic, c, k, pos))
  }

  /** Addition of unsigned 32-bit tick counts. */
  function AddTicks(t: nat, d: nat): nat {
    (t + d) % M
  }

  /** The list part of vCoRoutineAddToDelayedList, once c has left its ready list. */
  function Delay(s: Sys, c: nat, d: nat): Sys
    requires Core(s) && c < |s.prio|
  {
    var v := AddTicks(s.tick, d);
    Asleep(s, c, if v < s.tick then s.Other() else s.cur, v, s.Clock() + d).(fired := s.fired - {c})
  }

  lemma SortedFrame(items: seq<nat>, key: seq<nat>, c: nat, v: nat)
    requires SortedBy(items, key) && c < |key| && c !in items
    ensures SortedBy(items, key[c := v])
  {
  }

  // the delay lists stay sorted
  lemma AsleepSorted(s: Sys, c: nat, k: nat, v: nat, w: nat)
    requires Core(s) && c < |s.prio| && !On(s.generic, c) && (k == s.P || k == s.P + 1)
    ensures var s' := Asleep(s, c, k, v, w);
      && SortedBy(s'.generic.lists[s.P].items, s'.value)
      && SortedBy(s'.generic.lists[s.P + 1].items, s'.value)
      && Placed(s'.generic)
  {
    hide InWakeOrder, InsertPos, SortedBy;
    var g, value := s.generic, s.value[c := v];
    assert c !in g.lists[s.P].items && c !in g.lists[s.P + 1].items;
    hide Placed;
    SortedFrame(g.lists[s.P].items, s.value, c, v);
    SortedFrame(g.lists[s.P + 1].items, s.value, c, v);
    SortedInsert(g.lists[k].items, c, value);
    PutKeepsPlaced(g, c, k, InsertPos(Keys(g.lists[k].items, value), v));
  }

  lemma AsleepKeeps(s: Sys, c: nat, k: nat, v: nat, w: nat)
    requires Core(s) && c < |s.prio| && !On(s.generic, c) && !On(s.event, c) && v < M
    requires (k == s.cur && w == s.base + v && v >= s.tick) || (k == s.Other() && w == s.base + M + v)
    ensures Core(Asleep(s, c, k, v, w))
  {
    hide InWakeOrder, InsertPos, SortedBy, Placed;
    AsleepSorted(s, c, k, v, w);
    var s' := Asleep(s, c, k, v, w);
    assert s'.generic.home == s.generic.home[c := k];
  }

  lemma Wrapped(t: nat, d: nat)
    requires t < M && d < M
    ensures AddTicks(t, d) == if t + d < M then t + d else t + d - M
    ensures AddTicks(t, d) < t <==> t + d >= M
  {
  }

  lemma TimeFrame(s: Sys, fired: set<nat>)
    requires Shape(s)
    ensures var s' := s.(fired := fired); (TimeOk(s') <==> TimeOk(s)) && (ReadyOk(s') <==> ReadyOk(s))
  {
    hide SortedBy;
  }

  lemma DelayKeeps(s: Sys, c: nat, d: nat)
    requires Core(s) && c < |s.prio| && !On(s.generic, c) && !On(s.event, c) && d < M
    ensures Core(Delay(s, c, d))
    ensures Delay(s, c, d).generic.home ==
      s.generic.home[c := if s.tick + d < M then s.cur else s.Other()]
  {
    hide Placed, SortedBy, InWakeOrder, InsertPos, TimeOk, ReadyOk;
    Wrapped(s.tick, d);
    var v := AddTicks(s.tick, d);
    var k := if v < s.tick then s.Other() else s.cur;
    AsleepKeeps(s, c, k, v, s.Clock() + d);
    assert Asleep(s, c, k, v, s.Clock() + d).event == s.event;
    TimeFrame(Asleep(s, c, k, v, s.Clock() + d), s.fired - {c});
  }

  /** ... and its event part: k >= 1 is an event list. */
  function WaitFor(s: Sys, c: nat, k: nat): Sys
    requires Core(s) && c < |s.prio| && 1 <= k < |s.event.lists|
  {
    var pos := InsertPos(EventKeys(s.P, s.event.lists[k].items, s.prio), EventKey(s.P, s.prio[c]));
    s.(event := Put(s.event, c, k, pos), since := s.since[c := s.stamp], stamp := s.stamp + 1)
  }

  lemma OrderFrame(items: seq<nat>, prio: seq<nat>, since: seq<nat>, c: nat, t: nat)
    requires InWakeOrder(items, prio, since) && c < |prio| && c !in items
    ensures InWakeOrder(items, prio, since[c := t])
  {
  }

  lemma SameLists(s: Sys, c: nat, k: nat)
    requires Core(s) && c < |s.prio| && 1 <= k < |s.event.lists|
    ensures |WaitFor(s, c, k).event.lists| == |s.event.lists|
  {
  }

  lemma WaitForKeeps(s: Sys, c: nat, k: nat)
    requires Core(s) && Delayed(s, c) && !On(s.event, c) && 1 <= k < |s.event.lists|
    ensures Core(WaitFor(s, c, k))
    ensures WaitFor(s, c, k).event.home == s.event.home[c := k]
  {
    hide SortedBy, InsertPos;
    var s' := WaitFor(s, c, k);
    var items := s.event.lists[k].items;
    forall j | 1 <= j < |s.event.lists| ensures InWakeOrder(s.event.lists[j].items, s.prio, s'.since) {
      OrderFrame(s.event.lists[j].items, s.prio, s.since, c, s.stamp);
    }
    OrderInsert(s.P, items, c, s.prio, s'.since);
    PutKeepsPlaced(s.event, c, k, InsertPos(EventKeys(s.P, items, s.prio), EventKey(s.P, s.prio[c])));
    hide InWakeOrder, Placed;
  }

  /** One tick; when the counter wraps round the delay lists change places. */
  function Ticked(s: Sys): Sys {
    if s.tick + 1 < M then s.(tick := s.tick + 1)
    else s.(tick := 0, base := s.base + M, cur := s.Other())
  }

  /** The list in use is empty whenever the lists are swapped. */
  lemma EmptyAtSwap(s: Sys)
    requires Core(s) && OnTime(s) && s.tick + 1 == M
    ensures s.generic.lists[s.cur].items == []
  {
    if s.generic.lists[s.cur].items != [] {
      var c := s.generic.lists[s.cur].items[0];
      assert c in s.generic.lists[s.cur].items;
      assert Delayed(s, c);
    }
  }

  lemma TickKeeps(s: Sys)
    requires Core(s) && OnTime(s)
    ensures Core(Ticked(s)) && Ticked(s).Clock() == s.Clock() + 1
  {
    hide SortedBy, InWakeOrder;
    if s.tick + 1 == M {
      EmptyAtSwap(s);
      forall c | 0 <= c < |s.value| ensures s.generic.home[c] != s.cur {
        assert c !in s.generic.lists[s.cur].items;
      }
    }
    hide Placed;
  }

  /** A delay of 0 ticks on the last tick of a period sleeps through two further periods:
      the value it was sorted in under is reached two periods after its wake time. */
  lemma ZeroDelayOversleeps(s: Sys, c: nat)
    requires Core(s) && c < |s.prio| && !On(s.generic, c) && !On(s.event, c) && s.tick == M - 1
    ensures var s' := Ticked(Delay(s, c, 0));
            && s'.wake[c] < s'.Clock() && s'.generic.home[c] == s'.Other()
            && s'.base + M + s'.value[c] == s'.wake[c] + 2 * M
  {
    hide Placed, SortedBy, InWakeOrder, InsertPos, TimeOk, ReadyOk, WaitOk;
    DelayKeeps(s, c, 0);
  }

  function Born(s: Sys, p: nat): Sys {
    s.(prio := s.prio + [p], value := s.value + [0], wake := s.wake + [0], since := s.since + [0],
       generic := s.generic.(home := s.generic.home + [|s.generic.lists|]),
       event := s.event.(home := s.event.home + [|s.event.lists|]))
  }

  lemma BornPlaced(r: Rack)
    requires Placed(r)
    ensures Placed(r.(home := r.home + [|r.lists|]))
  {
    var r' := r.(home := r.home + [|r.lists|]);
    forall k | 0 <= k < |r.lists| ensures AllAtHome(r'.lists[k].items, r'.home, k) {
      assert AllAtHome(r.lists[k].items, r.home, k);
    }
  }

  lemma BornKeeps(s: Sys, p: nat)
    requires Core(s) && p < s.P && s.stamp > 0
    ensures Core(Born(s, p))
  {
    BornPlaced(s.generic);
    BornPlaced(s.event);
    hide Placed;
    assert SortedBy(s.generic.lists[s.P].items, s.value + [0]);
    assert SortedBy(s.generic.lists[s.P + 1].items, s.value + [0]);
    forall k | 1 <= k < |s.event.lists|
      ensures InWakeOrder(s.event.lists[k].items, s.prio + [p], s.since + [0])
    {
      assert InWakeOrder(s.event.lists[k].items, s.prio, s.since);
    }
    hide SortedBy, InWakeOrder;
  }

  lemma HeadOn(r: Rack, k: nat)
    requires Placed(r) && k < |r.lists| && r.lists[k].items != []
    ensures var c := r.lists[k].items[0]; On(r, c) && r.home[c] == k
  {
    assert AllAtHome(r.lists[k].items, r.home, k);
  }

  /** The head of the delay list in use tells whether anyone is due. */
  lemma HeadTells(s: Sys)
    requires Core(s)
    ensures var due := s.generic.lists[s.cur].items;
            && (due != [] ==> due[0] < |s.value|)
            && (OnTime(s) <==> due == [] || s.value[due[0]] > s.tick)
  {
    hide InWakeOrder;
    var due := s.generic.lists[s.cur].items;
    if due != [] {
      HeadOn(s.generic, s.cur);
    }
    if due == [] || s.value[due[0]] > s.tick {
      forall c | 0 <= c < |s.wake| && Delayed(s, c) ensures s.wake[c] > s.Clock() {
        if s.generic.home[c] == s.cur {
          assert c in due;
        }
      }
    }
  }

  // ---------------------------------------------------------------- what a call changes

  /** Where an event item may be after interrupts have struck: where it was, or moved from its
      event list to the pending list. */
  predicate Shifted(s0: Sys, s: Sys, c: nat) {
    && c < |s0.event.home| && c < |s.event.home|
    && (s.event.home[c] == s0.event.home[c]
        || (1 <= s0.event.home[c] < |s0.event.lists| && s.event.home[c] == 0 && c in s.fired))
  }

  /** The fixed part of the state, and that an event that fired was being waited for. */
  predicate SameClock(s0: Sys, s: Sys) {
    && s.P == s0.P && s.prio == s0.prio && s.value == s0.value && s.wake == s0.wake
    && s.since == s0.since && s.stamp == s0.stamp && |s.event.lists| == |s0.event.lists|
    && s0.fired <= s.fired
    && |s.event.home| == |s0.event.home| == |s.generic.home| == |s0.generic.home| == |s.prio|
    && forall c :: c in s.fired && c !in s0.fired ==>
         c < |s0.event.home| && 1 <= s0.event.home[c] < |s0.event.lists|
  }

  predicate EventMoved(s0: Sys, s: Sys) {
    SameClock(s0, s) && forall c :: 0 <= c < |s0.event.home| ==> Shifted(s0, s, c)
  }

  predicate Interrupted(s0: Sys, s: Sys) {
    && EventMoved(s0, s) && s.generic == s0.generic && s.top == s0.top
    && s.cur == s0.cur && s.tick == s0.tick && s.base == s0.base
  }

  /** Only c has become ready, and its event item is on no list any more. */
  predicate Woken(s0: Sys, s: Sys, c: nat) {
    && SameClock(s0, s) && Delayed(s0, c) && c < |s.prio|
    && s.cur == s0.cur && s.tick == s0.tick && s.base == s0.base
    && s.generic.home == s0.generic.home[c := s.prio[c]]
    && c < |s.event.home| && s.event.home[c] == |s.event.lists|
    && forall x :: 0 <= x < |s0.event.home| && x != c ==> Shifted(s0, s, x)
  }

  /** Several co-routines may have become ready: each of them was due or had its event; the
      others keep their places. */
  predicate Advanced(s0: Sys, s: Sys) {
    && SameClock(s0, s)
    && forall c :: 0 <= c < |s0.event.home| ==>
         || (s.generic.home[c] == s0.generic.home[c] && Shifted(s0, s, c))
         || (&& Delayed(s0, c) && s.generic.home[c] == s.prio[c] && s.event.home[c] == |s.event.lists|
             && (c in s.fired || (c < |s.wake| && s.wake[c] <= s.Clock())))
  }

  /** Somebody of priority p has become ready. */
  predicate WokeAt(s0: Sys, s: Sys, p: nat) {
    exists c :: 0 <= c < |s0.prio| && s0.prio[c] == p && Delayed(s0, c) && !Delayed(s, c)
  }

  /** A ready list is as it was unless somebody has joined it. */
  predicate ListsKept(s0: Sys, s: Sys) {
    && s.P == s0.P <= |s0.generic.lists| == |s.generic.lists|
    && forall p :: 0 <= p < s0.P ==> s.generic.lists[p] == s0.generic.lists[p] || WokeAt(s0, s, p)
  }

  // only the ready list of c has changed
  predicate OneListJoined(s0: Sys, s: Sys, c: nat) {
    && s.P == s0.P <= |s0.generic.lists| == |s.generic.lists| && c < |s.prio|
    && forall p :: 0 <= p < s0.P && p != s.prio[c] ==> s.generic.lists[p] == s0.generic.lists[p]
  }

  lemma JoinedAfter(s0: Sys, s1: Sys, s2: Sys, c: nat)
    requires OneListJoined(s1, s2, c) && s1.P == s0.P <= |s0.generic.lists| == |s1.generic.lists|
    requires s1.generic.lists[..s0.P] == s0.generic.lists[..s0.P]
    ensures OneListJoined(s0, s2, c)
  {
    forall p | 0 <= p < s0.P ensures s1.generic.lists[p] == s0.generic.lists[p] {
      assert s1.generic.lists[..s0.P][p] == s0.generic.lists[..s0.P][p];
    }
  }

  lemma KeptSame(s0: Sys, s: Sys)
    requires s.P == s0.P <= |s0.generic.lists| && s.generic == s0.generic
    ensures ListsKept(s0, s)
  {
  }

  lemma KeptMore(s0: Sys, s1: Sys, s2: Sys, c: nat)
    requires Shape(s0) && Core(s1) && Advanced(s0, s1) && ListsKept(s0, s1)
    requires Woken(s1, s2, c) && OneListJoined(s1, s2, c)
    ensures ListsKept(s0, s2)
  {
    hide Placed, TimeOk, WaitOk, Shifted;
    assert Delayed(s0, c);
    forall p | 0 <= p < s0.P && s2.generic.lists[p] != s0.generic.lists[p] ensures WokeAt(s0, s2, p) {
      if p != s2.prio[c] {
        var x :| 0 <= x < |s0.prio| && s0.prio[x] == p && Delayed(s0, x) && !Delayed(s1, x);
        assert !Delayed(s2, x);
      }
    }
  }

  lemma KeptOn(s0: Sys, s1: Sys, s2: Sys)
    requires Shape(s0) && Core(s1) && Advanced(s0, s1) && Advanced(s1, s2) && ListsKept(s0, s1) && ListsKept(s1, s2)
    ensures ListsKept(s0, s2)
  {
    hide Placed, TimeOk, WaitOk, Shifted;
    assert forall c :: 0 <= c < |s1.prio| ==> s1.prio[c] < s1.P;
    forall p | 0 <= p < s0.P && s2.generic.lists[p] != s0.generic.lists[p] ensures WokeAt(s0, s2, p) {
      if s1.generic.lists[p] != s0.generic.lists[p] {
        var x :| 0 <= x < |s0.prio| && s0.prio[x] == p && Delayed(s0, x) && !Delayed(s1, x);
        assert !Delayed(s2, x);
      } else {
        var x :| 0 <= x < |s1.prio| && s1.prio[x] == p && Delayed(s1, x) && !Delayed(s2, x);
        assert Delayed(s0, x);
      }
    }
  }

  lemma KeptTick(s0: Sys, s1: Sys)
    requires ListsKept(s0, s1)
    ensures ListsKept(s0, Ticked(s1))
  {
    forall p | 0 <= p < s0.P && WokeAt(s0, s1, p) ensures WokeAt(s0, Ticked(s1), p) {
      var x :| 0 <= x < |s0.prio| && s0.prio[x] == p && Delayed(s0, x) && !Delayed(s1, x);
      assert !Delayed(Ticked(s1), x);
    }
  }

  lemma AdvancedSame(s: Sys)
    requires Shape(s)
    ensures Advanced(s, s)
  {
    EventSame(s, s);
  }

  lemma SettledMore(s0: Sys, s: Sys, c: nat)
    requires Shape(s0) && Shape(s) && Settled(s0) && Woken(s0, s, c)
    requires Core(s0)
    ensures Settled(s)
  {
    hide Placed, TimeOk, WaitOk;
    forall x | 0 <= x < |s.generic.home| ensures On(s.generic, x) {
      assert On(s0.generic, x);
    }
  }

  lemma AdvancedMore(s0: Sys, s1: Sys, s2: Sys, c: nat)
    requires Shape(s0) && Core(s1) && Advanced(s0, s1) && Woken(s1, s2, c)
    requires c in s2.fired || s2.wake[c] <= s2.Clock()
    ensures Advanced(s0, s2)
  {
    hide Placed, TimeOk, WaitOk;
    forall x | 0 <= x < |s0.event.home|
      ensures
        || (s2.generic.home[x] == s0.generic.home[x] && Shifted(s0, s2, x))
        || (&& Delayed(s0, x) && s2.generic.home[x] == s2.prio[x] && s2.event.home[x] == |s2.event.lists|
            && (x in s2.fired || (x < |s2.wake| && s2.wake[x] <= s2.Clock())))
    {
      if x != c {
        assert Shifted(s1, s2, x);
      }
    }
  }

  lemma EventMovedMore(s0: Sys, s1: Sys, s2: Sys)
    requires EventMoved(s0, s1) && EventMoved(s1, s2)
    ensures EventMoved(s0, s2)
  {
    forall c | 0 <= c < |s0.event.home| ensures Shifted(s0, s2, c) {
      assert Shifted(s0, s1, c) && Shifted(s1, s2, c);
    }
    forall c | c in s2.fired && c !in s0.fired
      ensures c < |s0.event.home| && 1 <= s0.event.home[c] < |s0.event.lists|
    {
      if c !in s1.fired {
        assert Shifted(s0, s1, c);
      }
    }
  }

  lemma EventSame(s0: Sys, s: Sys)
    requires Shape(s0) && Shape(s) && s == s0.(generic := s.generic, top := s.top)
    ensures EventMoved(s0, s)
  {
  }

  lemma EventStays(s0: Sys, s: Sys, c: nat)
    requires EventMoved(s0, s) && c < |s0.event.home| && s0.event.home[c] == |s0.event.lists|
    ensures s.event.home[c] == |s.event.lists|
  {
    assert Shifted(s0, s, c);
  }

  // interrupts, then c's items leave their lists and c becomes ready, then more interrupts
  lemma WokenFrom(s0: Sys, s1: Sys, s2: Sys, s3: Sys, c: nat)
    requires EventMoved(s0, s1) && SameClock(s1, s2) && EventMoved(s2, s3)
    requires c < |s1.event.home| && s2.event.home == s1.event.home[c := |s1.event.lists|] && s2.fired == s1.fired
    requires s3.cur == s0.cur && s3.tick == s0.tick && s3.base == s0.base
    requires Delayed(s0, c) && s3.generic.home == s0.generic.home[c := s3.prio[c]]
    ensures Woken(s0, s3, c) && s0.fired <= s3.fired
  {
    assert Shifted(s2, s3, c);
    forall x | 0 <= x < |s0.event.home| && x != c ensures Shifted(s0, s3, x) {
      assert Shifted(s0, s1, x) && Shifted(s2, s3, x);
    }
    forall x | x in s3.fired && x !in s0.fired
      ensures x < |s0.event.home| && 1 <= s0.event.home[x] < |s0.event.lists|
    {
      if x !in s1.fired {
        assert Shifted(s0, s1, x);
      }
    }
  }

  /** c has left its ready list for a delay list, d ticks ahead of the clock, and stands behind
      the earlier waiters of list k when there is one. */
  predicate FellAsleep(s0: Sys, s: Sys, c: nat, d: nat, k: nat) {
    && c < |s0.generic.home| == |s0.wake| == |s0.event.home| == |s0.since|
    && s.P == s0.P && s.prio == s0.prio && s.Clock() == s0.Clock()
    && s.generic.home == s0.generic.home[c := if s0.tick + d < M then s0.cur else s0.Other()]
    && s.wake == s0.wake[c := s0.Clock() + d] && s.fired == s0.fired - {c}
    && s.event.home == (if k > 0 then s0.event.home[c := k] else s0.event.home)
    && s.since == (if k > 0 then s0.since[c := s0.stamp] else s0.since)
  }

  lemma AsleepAndWaiting(s0: Sys, s1: Sys, s2: Sys, c: nat, d: nat, k: nat)
    requires FellAsleep(s0, s1, c, d, 0) && k > 0 && s1.stamp == s0.stamp
    requires s2 == s1.(event := s2.event, since := s1.since[c := s1.stamp], stamp := s2.stamp)
    requires s2.event.home == s1.event.home[c := k]
    ensures FellAsleep(s0, s2, c, d, k)
  {
  }

  /** A co-routine that goes to sleep is the only one that may be due, and only for d == 0. */
  lemma SleepOnTime(s0: Sys, s: Sys, c: nat, d: nat)
    requires Shape(s0) && Shape(s) && s.P == s0.P && s.Clock() == s0.Clock()
    requires OnTime(s0) && Settled(s0) && c < |s0.generic.home| && Delayed(s, c)
    requires s.generic.home == s0.generic.home[c := s.generic.home[c]]
    requires s.wake == s0.wake[c := s0.Clock() + d]
    ensures Settled(s) && (OnTime(s) <==> d >= 1)
  {
    assert forall x :: 0 <= x < |s.wake| && x != c && Delayed(s, x) ==> Delayed(s0, x);
    forall x | 0 <= x < |s.generic.home| ensures On(s.generic, x) {
      assert On(s0.generic, x);
    }
  }

  predicate BlankRack(r: Rack) {
    forall k :: 0 <= k < |r.lists| ==> |r.lists[k].items| == 0 && r.lists[k].cursor == 0
  }

  function NewRack(n: nat): (r: Rack)
    ensures |r.lists| == n && |r.home| == 0 && BlankRack(r)
  {
    Rack([], seq(n, _ => ListVal([], 0)))
  }

  lemma BlankPlaced(r: Rack)
    requires BlankRack(r) && |r.home| == 0
    ensures Placed(r)
  {
  }

  lemma BlankOrders(r: Rack, k: nat, key: seq<nat>, since: seq<nat>)
    requires BlankRack(r) && k < |r.lists| && |key| == |since|
    ensures SortedBy(r.lists[k].items, key) && InWakeOrder(r.lists[k].items, key, since)
  {
  }

  /** The state before the first co-routine is created. */
  lemma BlankCore(s: Sys)
    requires Shape(s) && |s.prio| == 0 && BlankRack(s.generic) && BlankRack(s.event)
    ensures Core(s) && OnTime(s) && Settled(s)
  {
    hide BlankRack, Placed, SortedBy, InWakeOrder;
    BlankPlaced(s.generic);
    BlankPlaced(s.event);
    BlankOrders(s.generic, s.P, s.value, s.value);
    BlankOrders(s.generic, s.P + 1, s.value, s.value);
    forall k | 1 <= k < |s.event.lists| ensures InWakeOrder(s.event.lists[k].items, s.prio, s.since) {
      BlankOrders(s.event, k, s.prio, s.since);
    }
  }

  lemma NobodyBlank(s: Sys)
    requires Core(s) && |s.prio| == 0
    ensures Shape(s) && BlankRack(s.event)
  {
    forall k | 0 <= k < |s.event.lists|
      ensures |s.event.lists[k].items| == 0 && s.event.lists[k].cursor == 0
    {
      if |s.event.lists[k].items| > 0 {
        HeadOn(s.event, k);
      }
    }
  }

  lemma BlankHead(r: Rack, l: ListVal<nat>)
    requires BlankRack(r) && |r.lists| > 0 && l.items == [] && l.cursor == 0
    ensures BlankRack(Rack(r.home, r.lists[0 := l]))
  {
  }

  lemma NoOneYet(s: Sys)
    requires Core(s)
    ensures |s.prio| == 0 ==> s.generic.home == [] && s.event.home == [] && s.wake == []
  {
  }

  lemma BornOnTime(s0: Sys, s: Sys, p: nat)
    requires Shape(s0) && Shape(s) && OnTime(s0) && Settled(s0) && s.P == s0.P && p < s.P
    requires s.generic.home == s0.generic.home + [p] && s.wake == s0.wake + [0] && s.Clock() == s0.Clock()
    ensures OnTime(s) && Settled(s)
  {
    forall c | 0 <= c < |s0.wake| ensures On(s0.generic, c) && (Delayed(s, c) ==> Delayed(s0, c)) {
    }
    forall c | 0 <= c < |s.generic.home| ensures On(s.generic, c) {
      assert c < |s0.generic.home| ==> On(s0.generic, c);
    }
  }

  function NewSys(P: nat, E: nat): (s: Sys)
    requires P >= 1
    ensures Core(s) && OnTime(s) && Settled(s) && s.Clock() == 0 && s.stamp > 0
    ensures s.P == P && |s.prio| == 0 && |s.event.lists| == E + 1
  {
    var s := Sys(P, NewRack(P + 2), NewRack(E + 1), [], [], P, 0, 0, 0, [], [], 1, {});
    BlankCore(s);
    s
  }

  lemma Rem(n: nat, q: nat, r: nat)
    requires n == M * q + r && r < M
    ensures n % M == r
  {
    assert n / M == q;
  }

  /** The unsigned 32-bit difference between xTaskGetTickCount(), when the true count is now,
      and an earlier count. */
  function TicksSince(now: nat, last: nat): nat
    requires last < M
  {
    (now % M + M - last) % M
  }

  /** The wrapped difference is the true number of ticks since the last call, provided that
      less than a period has passed. */
  lemma PassedTicks(base: nat, tick: nat, now: nat)
    requires base % M == 0 && tick < M && base + tick <= now < base + tick + M
    ensures TicksSince(now, tick) == now - (base + tick)
  {
    var q := base / M;
    var r := now - base;
    if r < M {
      Rem(now, q, r);
      Rem(r + M - tick, 1, r - tick);
    } else {
      Rem(now, q + 1, r - M);
    }
  }

  /** Nobody will be due by time t. */
  predicate QuietUntil(s: Sys, t: nat) {
    forall c :: 0 <= c < |s.wake| && Delayed(s, c) ==> s.wake[c] > t
  }

  lemma QuietTick(s: Sys, t: nat)
    requires Shape(s) && QuietUntil(s, t) && s.Clock() < t
    ensures Shape(Ticked(s)) && OnTime(Ticked(s)) && QuietUntil(Ticked(s), t)
  {
    assert forall c :: 0 <= c < |s.wake| && Delayed(Ticked(s), c) ==> Delayed(s, c);
  }

  lemma SettledTick(s: Sys)
    requires Settled(s)
    ensures Settled(Ticked(s))
  {
  }

  lemma AdvancedTick(s0: Sys, s1: Sys)
    requires Shape(s0) && Shape(s1) && Advanced(s0, s1)
    ensures Advanced(s0, Ticked(s1))
  {
  }

  /** Whoever becomes ready no longer counts as delayed. */
  lemma StillOnTime(s0: Sys, s: Sys)
    requires Core(s0) && Core(s) && OnTime(s0) && Advanced(s0, s) && s.Clock() == s0.Clock()
    ensures OnTime(s)
  {
    hide Placed, SortedBy, InWakeOrder;
  }

  /** Once the pending list is empty, everyone who was on it has become ready. */
  lemma PendingServed(s0: Sys, s: Sys, c: nat)
    requires Core(s0) && Core(s) && Advanced(s0, s) && s.event.lists[0].items == []
    requires c < |s0.event.home| && s0.event.home[c] == 0
    ensures s.generic.home[c] == s.prio[c]
  {
    hide SortedBy, InWakeOrder, Distinct;
    assert c !in s.event.lists[0].items;
  }

  lemma AdvancedInterrupt(s0: Sys, s: Sys)
    requires Shape(s0) && Interrupted(s0, s)
    ensures Advanced(s0, s)
  {
  }

  lemma AdvancedWalk(s0: Sys, s: Sys, s': Sys)
    requires Advanced(s0, s) && s' == s.(generic := s'.generic, top := s'.top) && s'.generic.home == s.generic.home
    ensures Advanced(s0, s')
  {
  }

  lemma AdvancedOn(s0: Sys, s1: Sys, s2: Sys)
    requires Shape(s0) && Core(s1) && Advanced(s0, s1) && Advanced(s1, s2) && s1.Clock() <= s2.Clock()
    ensures Advanced(s0, s2)
  {
    hide Placed, TimeOk, WaitOk;
    assert forall c :: 0 <= c < |s1.prio| ==> s1.prio[c] < s1.P;
    forall c | c in s2.fired && c !in s0.fired
      ensures c < |s0.event.home| && 1 <= s0.event.home[c] < |s0.event.lists|
    {
      if c !in s1.fired {
        assert c < |s0.event.home|;
      }
    }
  }

  lemma KeepsTimes(s0: Sys, s: Sys, t: nat)
    requires Shape(s0) && Shape(s) && Interrupted(s0, s)
    ensures (OnTime(s) <==> OnTime(s0)) && (Settled(s) <==> Settled(s0)) && (QuietUntil(s, t) <==> QuietUntil(s0, t))
  {
    assert forall c :: Delayed(s, c) <==> Delayed(s0, c);
  }

  lemma Served(s0: Sys, s1: Sys, s2: Sys)
    requires Core(s0) && Core(s1) && Advanced(s0, s1) && Advanced(s1, s2) && s1.event.lists[0].items == []
    ensures Shape(s0) && |s2.prio| == |s2.generic.home| == |s0.event.home|
    ensures forall c :: 0 <= c < |s2.prio| && s0.event.home[c] == 0 ==> s2.generic.home[c] == s2.prio[c]
  {
    hide Placed, TimeOk, WaitOk;
    forall c | 0 <= c < |s2.prio| && s0.event.home[c] == 0
      ensures s2.generic.home[c] == s2.prio[c]
    {
      PendingServed(s0, s1, c);
    }
  }

  /** Each call wakes exactly on time: a delayed co-routine whose event has not happened is
      still delayed after a call if and only if its wake time lies after the clock. */
  lemma WakesExactly(s0: Sys, s: Sys, c: nat)
    requires Core(s0) && Core(s) && Advanced(s0, s) && OnTime(s)
    requires Delayed(s0, c) && c !in s.fired
    ensures Delayed(s, c) <==> s0.wake[c] > s.Clock()
    ensures !Delayed(s, c) ==> s.generic.home[c] == s.prio[c]
    ensures On(s0.event, c) && Delayed(s, c) ==> s.event.home[c] == s0.event.home[c]
  {
    hide Placed, SortedBy, InWakeOrder;
  }

  // ---------------------------------------------------------------- every sequence of calls

  /** A call of the scheduler, of a co-routine that goes to sleep for d ticks with or without an
      event list k, the events of interrupts, and the creation of a co-routine. */
  datatype Call = DoSchedule | DoSleep(x: nat, d: nat, k: nat) | DoEvents | DoCreate

  /** Everybody is as before and one more co-routine exists. */
  predicate Grew(s0: Sys, s: Sys) {
    && s.P == s0.P && s.Clock() == s0.Clock() && s.fired == s0.fired
    && |s0.generic.home| == |s0.wake| == |s0.prio| && |s.generic.home| == |s.wake| == |s.prio| == |s0.prio| + 1
    && s.generic.home[..|s0.prio|] == s0.generic.home && s.wake[..|s0.prio|] == s0.wake
    && s.prio[..|s0.prio|] == s0.prio
  }

  /** What the methods below promise of each kind of call. */
  ghost predicate Made(s0: Sys, call: Call, s: Sys) {
    && Core(s0) && Core(s)
    && match call
       case DoSchedule => Advanced(s0, s) && OnTime(s) && s0.Clock() <= s.Clock()
       case DoSleep(x, d, k) => x < |s0.prio| && s0.generic.home[x] < s0.P && FellAsleep(s0, s, x, d, k)
       case DoEvents => Interrupted(s0, s)
       case DoCreate => Grew(s0, s)
  }

  lemma SleepMade(s0: Sys, s: Sys, x: nat, d: nat, k: nat)
    requires Core(s0) && Core(s) && x < |s0.prio| && s0.generic.home[x] < s0.P && FellAsleep(s0, s, x, d, k)
    ensures Made(s0, DoSleep(x, d, k), s)
  {
  }

  // c sleeps until w
  predicate SleepsUntil(s: Sys, c: nat, w: nat) {
    c < |s.prio| && c < |s.wake| && Delayed(s, c) && s.wake[c] == w
  }

  lemma CallKeepsSleeper(s0: Sys, call: Call, s: Sys, c: nat, w: nat)
    requires Made(s0, call, s) && SleepsUntil(s0, c, w) && s0.Clock() < w && c !in s.fired
    ensures c < |s.prio| && c < |s.generic.home|
    ensures if s.Clock() < w then SleepsUntil(s, c, w) else s.generic.home[c] == s.prio[c]
  {
    hide Placed, ReadyOk, TimeOk, WaitOk, Shifted;
    match call
    case DoSchedule => WakesExactly(s0, s, c);
    case DoSleep(x, d, k) =>
    case DoEvents =>
    case DoCreate =>
      assert s.generic.home[..|s0.prio|][c] == s.generic.home[c] && s.wake[..|s0.prio|][c] == s.wake[c];
  }

  lemma SleepBegins(s0: Sys, s: Sys, c: nat, d: nat, k: nat)
    requires Made(s0, DoSleep(c, d, k), s)
    ensures SleepsUntil(s, c, s0.Clock() + d) && s.Clock() == s0.Clock()
    ensures c < |s.prio| && c < |s.generic.home|
  {
    hide Placed, ReadyOk, TimeOk, WaitOk;
  }

  /** Every co-routine sleeps exactly as long as it asked for.  It goes to sleep at the first
      call of any sequence, for d >= 1 ticks; then, unless its event happens, it is delayed
      after every call as long as the clock is short of that, and ready after the first call at
      which it is not, which is a call of the scheduler. */
  lemma {:induction false} SleepsExactly(ss: seq<Sys>, calls: seq<Call>, c: nat, d: nat, k: nat, j: nat)
    requires |ss| == |calls| + 1 && 1 <= j < |ss| && forall i :: 0 <= i < |calls| ==> Made(ss[i], calls[i], ss[i + 1])
    requires calls[0] == DoSleep(c, d, k) && d >= 1
    requires forall i :: 1 <= i <= j ==> c !in ss[i].fired
    requires forall i :: 1 <= i < j ==> ss[i].Clock() < ss[0].Clock() + d
    ensures c < |ss[j].prio| && c < |ss[j].generic.home|
    ensures if ss[j].Clock() < ss[0].Clock() + d then SleepsUntil(ss[j], c, ss[0].Clock() + d)
            else ss[j].generic.home[c] == ss[j].prio[c] && calls[j - 1] == DoSchedule
  {
    hide Made, SleepsUntil;
    var w := ss[0].Clock() + d;
    assert Made(ss[j - 1], calls[j - 1], ss[j - 1 + 1]);
    if j == 1 {
      SleepBegins(ss[0], ss[1], c, d, k);
    } else {
      SleepsExactly(ss, calls, c, d, k, j - 1);
      assert ss[j - 1].Clock() < w;
      CallKeepsSleeper(ss[j - 1], calls[j - 1], ss[j], c, w);
      ClockMoves(ss[j - 1], calls[j - 1], ss[j]);
    }
  }

  lemma ClockMoves(s0: Sys, call: Call, s: Sys)
    requires Made(s0, call, s)
    ensures s.Clock() == s0.Clock() || call == DoSchedule
  {
    hide Core, Shifted;
  }

  /** Every co-routine is on exactly one ready or delay list, at exactly one place; its event
      item is on at most one event or pending list, and only while it is delayed. */
  lemma OnExactlyOneList(s: Sys, c: nat)
    requires Core(s) && Settled(s) && c < |s.prio|
    ensures exists k: nat ::
      && k < |s.generic.lists| && multiset(s.generic.lists[k].items)[c] == 1
      && forall j: nat :: j < |s.generic.lists| && j != k ==> c !in s.generic.lists[j].items
    ensures forall k: nat :: k < |s.event.lists| && c in s.event.lists[k].items ==>
      && Delayed(s, c) && multiset(s.event.lists[k].items)[c] == 1
      && forall j: nat :: j < |s.event.lists| && j != k ==> c !in s.event.lists[j].items
  {
    hide SortedBy, InWakeOrder, Distinct;
    assert On(s.generic, c);
    var k := s.generic.home[c];
    OccursOnce(s.generic.lists[k].items, c);
    forall k: nat | k < |s.event.lists| && c in s.event.lists[k].items
      ensures multiset(s.event.lists[k].items)[c] == 1 && Delayed(s, c)
    {
      OccursOnce(s.event.lists[k].items, c);
    }
  }

  lemma {:induction false} OccursOnce(s: seq<nat>, c: nat)
    requires Distinct(s) && c in s
    ensures multiset(s)[c] == 1
  {
    assert s == [s[0]] + s[1..];
    if s[0] == c {
      assert c !in multiset(s[1..]);
    } else {
      OccursOnce(s[1..], c);
    }
  }

  // ---------------------------------------------------------------- dispatch

  datatype MaybeCr = NoCr | Cr(id: nat)

  /** The loop of vCoRoutineSchedule: the first non-empty list from top downwards. */
  function Highest(ls: seq<ListVal<nat>>, top: nat): (h: nat)
    requires top < |ls|
    ensures h <= top && forall p :: h < p <= top ==> ls[p].items == []
    ensures ls[h].items == [] ==> h == 0
  {
    if ls[top].items != [] || top == 0 then top else Highest(ls, top - 1)
  }

  lemma {:induction false} HighestIs(ls: seq<ListVal<nat>>, top: nat, h: nat)
    requires h <= top < |ls| && ls[h].items != [] && forall p :: h < p <= top ==> ls[p].items == []
    ensures Highest(ls, top) == h
  {
    if h < top {
      HighestIs(ls, top - 1, h);
    }
  }

  ghost predicate Dispatchable(ls: seq<ListVal<nat>>, P: nat) {
    1 <= P <= |ls| && (forall k :: 0 <= k < |ls| ==> ls[k].Valid()) && ls[Highest(ls, P - 1)].items != []
  }

  function Turn(ls: seq<ListVal<nat>>, P: nat): seq<ListVal<nat>>
    requires Dispatchable(ls, P)
  {
    var h := Highest(ls, P - 1);
    ls[h := Advance(ls[h])]
  }

  lemma TurnDispatchable(ls: seq<ListVal<nat>>, P: nat)
    requires Dispatchable(ls, P)
    ensures Dispatchable(Turn(ls, P), P) && Highest(Turn(ls, P), P - 1) == Highest(ls, P - 1)
  {
    hide Highest;
    HighestIs(Turn(ls, P), P - 1, Highest(ls, P - 1));
  }

  lemma EmptyMeansNone(r: Rack, P: nat)
    requires Placed(r) && P <= |r.lists| && forall p :: 0 <= p < P ==> r.lists[p].items == []
    ensures forall c :: 0 <= c < |r.home| ==> r.home[c] >= P
  {
    forall c: nat | c < |r.home|
      ensures r.home[c] >= P
    {
      var k := r.home[c];
      assert k < |r.lists| ==> c in r.lists[k].items;
    }
  }

  /** top bounds the ready lists, so the search may start there instead of at P - 1. */
  lemma TopSuffices(s: Sys)
    requires Core(s)
    ensures Highest(s.generic.lists, s.top) == Highest(s.generic.lists, s.P - 1)
    ensures s.generic.lists[Highest(s.generic.lists, s.top)].items == [] ==>
      forall c :: 0 <= c < |s.prio| ==> s.generic.home[c] >= s.P
  {
    hide Distinct, SortedBy, InWakeOrder;
    var ls := s.generic.lists;
    forall p | s.top < p < s.P ensures ls[p].items == [] {
      if ls[p].items != [] {
        HeadOn(s.generic, p);
      }
    }
    var h := Highest(ls, s.top);
    if ls[h].items != [] {
      HighestIs(ls, s.P - 1, h);
    } else {
      assert forall p :: 0 <= p < s.P ==> ls[p].items == [];
      EmptyMeansNone(s.generic, s.P);
    }
  }

  lemma HighestStep(ls: seq<ListVal<nat>>, top: nat)
    requires top < |ls|
    ensures Highest(ls, top) == if ls[top].items != [] || top == 0 then top else Highest(ls, top - 1)
  {
  }

  /** The lists went through one turn, which chose c. */
  ghost predicate TurnTaken(ls: seq<ListVal<nat>>, ls': seq<ListVal<nat>>, P: nat, c: nat) {
    && Dispatchable(ls, P) && ls' == Turn(ls, P)
    && var h := Highest(ls, P - 1); ls'[h].Valid() && ls'[h].cursor >= 1 && c == Current(ls'[h])
  }

  lemma NoneReady(s: Sys)
    requires Core(s) && Highest(s.generic.lists, s.P - 1) == 0 && s.generic.lists[0].items == []
    ensures Core(s.(top := 0)) && forall c :: 0 <= c < |s.prio| ==> s.generic.home[c] >= s.P
    ensures OnTime(s) ==> OnTime(s.(top := 0))
    ensures Settled(s) ==> Settled(s.(top := 0))
  {
    hide Placed, SortedBy, InWakeOrder, Highest;
    TopSuffices(s);
  }

  // pxIndex of ready list h has moved on, and top has come down to h
  function Walked(s: Sys, h: nat): Sys
    requires Core(s) && h <= s.top && s.generic.lists[h].items != []
  {
    s.(generic := Rack(s.generic.home, s.generic.lists[h := Advance(s.generic.lists[h])]), top := h)
  }

  lemma WalkedPlaced(r: Rack, h: nat)
    requires Placed(r) && h < |r.lists| && r.lists[h].items != []
    ensures Placed(Rack(r.home, r.lists[h := Advance(r.lists[h])]))
  {
    var r' := Rack(r.home, r.lists[h := Advance(r.lists[h])]);
    forall k | 0 <= k < |r.lists| ensures r'.lists[k].items == r.lists[k].items && r'.lists[k].Valid() {
      assert r.lists[k].Valid() && AllAtHome(r.lists[k].items, r.home, k);
    }
  }

  lemma WalkedKeeps(s: Sys, h: nat)
    requires Core(s) && h <= s.top && s.generic.lists[h].items != []
    requires forall p :: h < p < s.P ==> s.generic.lists[p].items == []
    ensures Core(Walked(s, h))
    ensures forall c :: 0 <= c < |s.prio| && s.generic.home[c] < s.P ==> s.prio[c] <= h
  {
    hide SortedBy, InWakeOrder, Distinct;
    WalkedPlaced(s.generic, h);
    forall c | 0 <= c < |s.prio| && s.generic.home[c] < s.P ensures s.prio[c] <= h {
      assert c in s.generic.lists[s.generic.home[c]].items;
    }
    hide Placed;
  }

  lemma WalkTop(s: Sys, h: nat)
    requires Core(s) && h <= s.top && h == Highest(s.generic.lists, s.P - 1)
    requires s.generic.lists[h].items != []
    ensures Core(Walked(s, h)) && Dispatchable(s.generic.lists, s.P)
    ensures var ls := s.generic.lists[h := Advance(s.generic.lists[h])];
            var c := Current(ls[h]);
            && ls == Turn(s.generic.lists, s.P) && TurnTaken(s.generic.lists, ls, s.P, c)
            && c < |s.prio| && s.generic.home[c] == s.prio[c] == h
    ensures forall c :: 0 <= c < |s.prio| && s.generic.home[c] < s.P ==> s.prio[c] <= h
    ensures OnTime(s) ==> OnTime(Walked(s, h))
    ensures Settled(s) ==> Settled(Walked(s, h))
  {
    hide SortedBy, InWakeOrder, Distinct, Highest;
    WalkedKeeps(s, h);
    var c := Current(Advance(s.generic.lists[h]));
    assert c in s.generic.lists[h].items;
    var ls := s.generic.lists[h := Advance(s.generic.lists[h])];
    assert ls[h] == Advance(s.generic.lists[h]) && ls == Turn(s.generic.lists, s.P);
    assert s.generic.home[c] == h && s.prio[c] == h;
    hide Placed;
    if Settled(s) {
      forall x | 0 <= x < |s.generic.home| ensures On(Walked(s, h).generic, x) {
        assert On(s.generic, x);
      }
    }
  }

  /** Nobody of priority h or above has become ready. */
  predicate NobodyFrom(s0: Sys, s: Sys, h: nat) {
    forall c :: 0 <= c < |s0.prio| && s0.prio[c] >= h && Delayed(s0, c) ==> Delayed(s, c)
  }

  /** What a call does for the top ready list: unless somebody of its priority or above becomes
      ready, whoever else does, the next co-routine of that list runs. */
  ghost predicate InTurn(s0: Sys, s: Sys, res: MaybeCr) {
    Dispatchable(s0.generic.lists, s0.P) && NobodyFrom(s0, s, Highest(s0.generic.lists, s0.P - 1)) ==>
      && |s.generic.lists| == |s0.generic.lists|
      && var h := Highest(s0.generic.lists, s0.P - 1);
      && s.generic.lists[h] == Advance(s0.generic.lists[h]) && res == Cr(Current(s.generic.lists[h]))
      && Dispatchable(s.generic.lists, s0.P) && Highest(s.generic.lists, s0.P - 1) == h
  }

  lemma TurnComes(s0: Sys, s1: Sys, s2: Sys, res: MaybeCr)
    requires Core(s0) && Core(s1) && ListsKept(s0, s1) && s1.prio == s0.prio
    requires s2 == s1.(generic := s2.generic, top := s2.top) && s2.generic.home == s1.generic.home
    requires res.NoCr? ==> forall c :: 0 <= c < |s1.prio| ==> s1.generic.home[c] >= s1.P
    requires res.Cr? ==> TurnTaken(s1.generic.lists, s2.generic.lists, s1.P, res.id)
    ensures InTurn(s0, s2, res)
  {
    hide TimeOk, WaitOk, ReadyOk, Distinct, Highest;
    var ls, ls1, P := s0.generic.lists, s1.generic.lists, s0.P;
    if Dispatchable(ls, P) && NobodyFrom(s0, s2, Highest(ls, P - 1)) {
      var h := Highest(ls, P - 1);
      assert forall c :: Delayed(s2, c) <==> Delayed(s1, c);
      forall p | h <= p < P ensures ls1[p] == ls[p] {
        assert !WokeAt(s0, s1, p);
      }
      HighestIs(ls1, P - 1, h);
      HeadOn(s1.generic, h);
      TurnDispatchable(ls1, P);
    }
  }

  // list h is the top ready list
  ghost predicate TopIs(s: Sys, h: nat) {
    Dispatchable(s.generic.lists, s.P) && h < |s.generic.lists| && Highest(s.generic.lists, s.P - 1) == h
  }

  // nothing has joined or left list h
  predicate SameList(s0: Sys, s: Sys, h: nat) {
    h < |s0.generic.lists| && h < |s.generic.lists| && s.generic.lists[h] == s0.generic.lists[h]
  }

  lemma {:induction false} WalksInARow(before: seq<ListVal<nat>>, after: seq<ListVal<nat>>, ran: seq<nat>, n: nat)
    requires 1 <= n <= |before| == |after| == |ran|
    requires forall i :: 0 <= i < n ==>
      before[i].Valid() && before[i].items != [] && after[i] == Advance(before[i]) && ran[i] == Current(after[i])
    requires forall i :: 0 < i < n ==> before[i] == after[i - 1]
    ensures after[n - 1] == AdvanceN(before[0], n) && ran[..n] == Visited(before[0], n)
  {
    var l := before[0];
    if n > 1 {
      WalksInARow(before, after, ran, n - 1);
      assert before[n - 1] == after[n - 2];
    } else {
      assert AdvanceN(l, 0) == l;
    }
    assert before[n - 1] == AdvanceN(l, n - 1);
    assert Visited(l, n) == Visited(l, n - 1) + [Current(AdvanceN(l, n))];
    assert ran[..n] == ran[..n - 1] + [ran[n - 1]];
  }

  /** Equal shares: while nothing joins or leaves the top ready list and nobody of its priority
      or above becomes ready, as many calls in a row as the list has items run each of them
      exactly once, whatever else happens: calls of the running co-routines, interrupts, and
      co-routines of lower priority that come and go.  befores and afters are the states before
      and after each call. */
  lemma EqualShares(befores: seq<Sys>, afters: seq<Sys>, ran: seq<nat>, h: nat)
    requires |befores| == |afters| == |ran| > 0
    requires forall i :: 0 <= i < |ran| ==>
      TopIs(befores[i], h) && InTurn(befores[i], afters[i], Cr(ran[i])) && NobodyFrom(befores[i], afters[i], h)
    requires forall i :: 0 < i < |ran| ==> SameList(afters[i - 1], befores[i], h)
    requires TopIs(befores[0], h) && |befores[0].generic.lists[h].items| == |ran|
    ensures multiset(ran) == multiset(befores[0].generic.lists[h].items)
  {
    hide Highest;
    var n := |ran|;
    forall i | 0 <= i < n
      ensures h < |befores[i].generic.lists| && h < |afters[i].generic.lists|
      ensures befores[i].generic.lists[h].Valid() && befores[i].generic.lists[h].items != []
      ensures afters[i].generic.lists[h] == Advance(befores[i].generic.lists[h])
      ensures ran[i] == Current(afters[i].generic.lists[h])
    {
      assert TopIs(befores[i], h) && InTurn(befores[i], afters[i], Cr(ran[i]));
    }
    var before := seq(n, i requires 0 <= i < n => befores[i].generic.lists[h]);
    var after := seq(n, i requires 0 <= i < n => afters[i].generic.lists[h]);
    forall i | 0 < i < n ensures before[i] == after[i - 1] {
      assert SameList(afters[i - 1], befores[i], h);
    }
    hide TopIs, InTurn, SameList;
    WalksInARow(before, after, ran, n);
    assert ran[..n] == ran;
    RoundRobin(before[0]);
  }

  // ---------------------------------------------------------------- the scheduler

  class Scheduler {
    const P: nat                        // configMAX_CO_ROUTINE_PRIORITIES
    var generic: Rack
    var event: Rack
    var prio: seq<nat>
    var value: seq<nat>
    var cur: nat
    var running: MaybeCr                // pxCurrentCoRoutine
    var top: nat
    var tickCount: nat
    var lastTick: nat
    var passed: nat
    var moment: nat                     // counts the points at which interrupts may strike
    ghost var base: nat
    ghost var wake: seq<nat>
    ghost var since: seq<nat>
    ghost var stamp: nat
    ghost var fired: set<nat>

    ghost function S(): Sys
      reads this
    {
      Sys(P, generic, event, prio, value, cur, top, tickCount, base, wake, since, stamp, fired)
    }

    ghost predicate Sane()
      reads this
    {
      Core(S()) && stamp > 0 && (running.Cr? <==> |prio| > 0) && (running.Cr? ==> running.id < |prio|)
    }

    ghost predicate Valid()
      reads this
    {
      Sane() && Settled(S()) && OnTime(S()) && lastTick == tickCount
    }

    /** The state before the first co-routine is created; event lists belong to queues. */
    constructor (priorities: nat, eventLists: nat)
      requires priorities >= 1
      ensures Valid() && P == priorities && |prio| == 0 && |event.lists| == eventLists + 1
      ensures base + tickCount == 0
    {
      hide NewSys, Core, OnTime, Settled;
      var s := NewSys(priorities, eventLists);
      P, generic, event, prio, value, cur := s.P, s.generic, s.event, s.prio, s.value, s.cur;
      top, tickCount, lastTick, passed, moment, running := s.top, s.tick, s.tick, 0, 0, NoCr;
      base, wake, since, stamp, fired := s.base, s.wake, s.since, s.stamp, s.fired;
      new;
      assert S() == s;
    }

    /** prvInitialiseCoRoutineLists: called while no co-routine exists. */
    method InitialiseLists()
      requires Valid() && running.NoCr?
      modifies this`generic, this`event, this`cur
      ensures Valid() && cur == P && |event.lists| == old(|event.lists|)
    {
      hide Core, OnTime, Settled, BlankRack, NewRack;
      NobodyBlank(S());
      generic := NewRack(P + 2);
      event := event.(lists := event.lists[0 := ListVal([], 0)]);
      cur := P;
      BlankHead(old(event), event.lists[0]);
      BlankCore(S());
    }

    /** xCoRoutineCreate; memory says whether the allocation succeeds. */
    method Create(priority: nat, memory: bool) returns (created: bool)
      requires Valid()
      modifies this`generic, this`event, this`cur, this`prio, this`value, this`running, this`top
      modifies this`wake, this`since
      ensures Valid() && created == memory
      ensures !created ==> S() == old(S()) && running == old(running)
      ensures created ==>
        && var p := if priority >= P then P - 1 else priority;
        && prio == old(prio) + [p] && generic.home == old(generic.home) + [p]
        && event.home == old(event.home) + [|event.lists|] && wake[..|old(prio)|] == old(wake)
        && running == (if old(running).NoCr? then Cr(|old(prio)|) else old(running))
        && Made(old(S()), DoCreate, S())
    {
      hide Core, OnTime, Settled;
      created := memory;
      if !memory {
        return;
      }
      NoOneYet(S());
      HasShape(S());
      if running == NoCr {
        InitialiseLists();
        HasShape(S());
        running := Cr(|prio|);
      }
      Join(if priority >= P then P - 1 else priority);
    }

    // the new control block is filled in and goes on its ready list
    method Join(p: nat)
      requires Core(S()) && stamp > 0 && Settled(S()) && OnTime(S()) && lastTick == tickCount && p < P
      requires running.Cr? && running.id <= |prio|
      modifies this`generic, this`event, this`prio, this`value, this`top, this`wake, this`since
      ensures Valid() && prio == old(prio) + [p] && generic.home == old(generic.home) + [p]
      ensures event.home == old(event.home) + [|event.lists|] && wake == old(wake) + [0]
      ensures |event.lists| == old(|event.lists|)
    {
      ghost var s := S();
      hide Core, OnTime, Settled, Backlog;
      HasShape(s);
      BornKeeps(s, p);
      var c := |prio|;
      prio, value, wake, since := prio + [p], value + [0], wake + [0], since + [0];
      generic := generic.(home := generic.home + [|generic.lists|]);
      event := event.(home := event.home + [|event.lists|]);
      assert S() == Born(s, p);
      hide Born;
      HasShape(S());
      AddToReadyQueue(c);
      HasShape(S());
      BornOnTime(s, S(), p);
    }

    // uxListRemove of an event item
    method UnlinkEvent(c: nat)
      requires Sane() && On(event, c)
      modifies this`event
      ensures Sane() && event.home == old(event.home)[c := |event.lists|] && |event.lists| == old(|event.lists|)
    {
      LeaveEventKeeps(S(), c);
      hide Placed, ReadyOk, TimeOk, WaitOk;
      event := Take(event, c);
      assert S() == LeaveEvent(old(S()), c);
    }

    // uxListRemove of a generic item, and of the event item if it is on a list: the critical
    // section in prvCheckDelayedList
    method UnlinkBoth(c: nat)
      requires Sane() && On(generic, c) && Delayed(S(), c)
      modifies this`generic, this`event
      ensures Sane() && generic.home == old(generic.home)[c := P + 2]
      ensures event.home == old(event.home)[c := |event.lists|] && |event.lists| == old(|event.lists|)
      ensures Backlog(S()) == Backlog(old(S())) - 1 && generic.lists[..P] == old(generic.lists[..P])
    {
      hide Core, Placed, Take, Backlog;
      ArePlaced(S());
      UnlinkKeeps(S(), c);
      generic := Take(generic, c);
      if On(event, c) {
        event := Take(event, c);
      }
      assert S() == Unlink(old(S()), c);
      HasShape(S());
    }

    method UnlinkGeneric(c: nat)
      requires Sane() && On(generic, c) && !On(event, c)
      modifies this`generic
      ensures Sane() && generic.home == old(generic.home)[c := P + 2]
      ensures Delayed(old(S()), c) ==>
        Backlog(S()) == Backlog(old(S())) - 1 && generic.lists[..P] == old(generic.lists[..P])
    {
      LeaveGenericKeeps(S(), c);
      hide Placed, ReadyOk, TimeOk, WaitOk;
      generic := Take(generic, c);
      assert S() == LeaveGeneric(old(S()), c);
    }

    /** prvAddCoRoutineToReadyQueue */
    method AddToReadyQueue(c: nat)
      requires Sane() && c < |prio| && !On(generic, c)
      modifies this`generic, this`top
      ensures Sane() && generic.home == old(generic.home)[c := prio[c]] && top >= old(top)
      ensures prio[c] < P && generic.lists[prio[c]] == InsertEnd(old(generic.lists[prio[c]]), c)
      ensures forall p :: 0 <= p < P && p != prio[c] ==> generic.lists[p] == old(generic.lists[p])
      ensures Backlog(S()) == Backlog(old(S()))
    {
      MakeReadyKeeps(S(), c);
      assert prio[c] < P && generic.lists[prio[c]].Valid();
      hide Placed, ReadyOk, TimeOk, WaitOk;
      if prio[c] > top {
        top := prio[c];
      }
      generic := Put(generic, c, prio[c], BehindCursor(generic.lists[prio[c]]));
      assert S() == MakeReady(old(S()), c);
    }

    /** xCoRoutineRemoveFromEventList: the co-routine chosen has the highest priority among the
        waiters and has waited longest among those of that priority; the answer says whether it
        should run before the current one. */
    method RemoveFromEventList(k: nat) returns (c: nat, preempt: bool)
      requires Sane() && 1 <= k < |event.lists| && event.lists[k].items != []
      modifies this`event, this`fired
      ensures Sane() && c in old(event.lists[k].items) && c < |prio| == |since|
      ensures old(c < |event.home| && event.home[c] == k)
      ensures forall w :: w in old(event.lists[k].items) && w != c ==> w < |prio| && Sooner(c, w, prio, since)
      ensures event.home == old(event.home)[c := 0] && fired == old(fired) + {c}
      ensures |event.lists| == old(|event.lists|)
      ensures old(event.lists[0].Valid()) && event.lists[0] == InsertEnd(old(event.lists[0]), c)
      ensures running.Cr? && (preempt <==> prio[c] >= prio[running.id])
    {
      HeadOn(event, k);
      c := event.lists[k].items[0];
      ghost var items := event.lists[k].items;
      assert InWakeOrder(items, prio, since);
      FireKeeps(S(), c);
      ghost var s := Fire(S(), c);
      hide Placed, ReadyOk, TimeOk, WaitOk;
      event := Take(event, c);
      event := Put(event, c, 0, BehindCursor(event.lists[0]));
      fired := fired + {c};
      assert S() == s;
      preempt := prio[c] >= prio[running.id];
    }

    // whatever interrupts strike here: each names an event list and wakes one of its waiters
    method Interrupts(isr: nat -> seq<nat>)
      requires Sane()
      modifies this`event, this`fired, this`moment
      ensures Sane() && Interrupted(old(S()), S()) && Made(old(S()), DoEvents, S())
    {
      hide Placed, ReadyOk, TimeOk, WaitOk;
      var which := isr(moment);
      moment := moment + 1;
      for i := 0 to |which|
        invariant Sane() && Interrupted(old(S()), S())
      {
        var k := which[i];
        ghost var before := S();
        if 1 <= k < |event.lists| && |event.lists[k].items| > 0 {
          var c, _ := RemoveFromEventList(k);
          EventMovedMore(old(S()), before, S());
        }
      }
    }

    // the delay part of the next method, for a co-routine on no list
    method PutOnDelayList(c: nat, d: nat)
      requires Sane() && c < |prio| && !On(generic, c) && !On(event, c) && d < M
      modifies this`generic, this`value, this`wake, this`fired
      ensures Sane() && wake == old(wake)[c := old(base + tickCount) + d] && fired == old(fired) - {c}
      ensures generic.home == old(generic.home)[c := if tickCount + d < M then cur else old(S()).Other()]
    {
      hide Core, Placed, InsertPos, AddTicks, Keys, Put;
      ArePlaced(S());
      DelayKeeps(S(), c, d);
      ghost var s := Delay(S(), c, d);
      var timeToWake := AddTicks(tickCount, d);
      var k := if timeToWake < tickCount then (if cur == P then P + 1 else P) else cur;
      wake, fired := wake[c := base + tickCount + d], fired - {c};
      value := value[c := timeToWake];
      var pos := InsertPos(Keys(generic.lists[k].items, value), timeToWake);
      hide SortedBy;
      generic := Put(generic, c, k, pos);
      assert S() == s;
    }

    method GoToSleep(c: nat, d: nat)
      requires Valid() && c < |prio| && On(generic, c) && !On(event, c) && d < M
      modifies this`generic, this`value, this`wake, this`fired
      ensures Sane() && Settled(S()) && (OnTime(S()) <==> d >= 1) && Delayed(S(), c)
      ensures FellAsleep(old(S()), S(), c, d, 0)
    {
      hide Core, OnTime, Settled, Backlog;
      HasShape(S());
      UnlinkGeneric(c);
      HasShape(S());
      PutOnDelayList(c, d);
      HasShape(S());
      SleepOnTime(old(S()), S(), c, d);
    }

    // its event part
    method PutOnEventList(c: nat, k: nat)
      requires Sane() && Delayed(S(), c) && !On(event, c) && 1 <= k < |event.lists|
      modifies this`event, this`since, this`stamp
      ensures Sane() && event.home == old(event.home)[c := k] && |event.lists| == old(|event.lists|)
      ensures since == old(since)[c := old(stamp)] && stamp == old(stamp) + 1
    {
      hide Core, Placed, InsertPos, EventKeys, Put, SortedBy;
      ArePlaced(S());
      WaitForKeeps(S(), c, k);
      ghost var s := WaitFor(S(), c, k);
      assert forall w :: w in event.lists[k].items ==> w < |prio| && prio[w] < P;
      var pos := InsertPos(EventKeys(P, event.lists[k].items, prio), EventKey(P, prio[c]));
      event := Put(event, c, k, pos);
      since, stamp := since[c := stamp], stamp + 1;
      assert S() == s;
      HasShape(s);
      SameLists(old(S()), c, k);
    }

    /** vCoRoutineAddToDelayedList: the running co-routine will wake d ticks from now, or by the
        event of list k when k > 0.  Delays of 0 ticks, which the callers in croutine.h and
        queue.c never ask for, are the ones that leave a due co-routine on a delay list. */
    method AddToDelayedList(d: nat, k: nat)
      requires Valid() && running.Cr? && generic.home[running.id] < P && d < M && k < |event.lists|
      modifies this`generic, this`value, this`event, this`wake, this`fired, this`since, this`stamp
      ensures Sane() && FellAsleep(old(S()), S(), running.id, d, k) && Made(old(S()), DoSleep(running.id, d, k), S())
      ensures Settled(S()) && (OnTime(S()) <==> d >= 1)
    {
      var c := running.id;
      hide Core, OnTime, Settled, FellAsleep, Made;
      ReadyIsFree(S(), c);
      GoToSleep(c, d);
      if k > 0 {
        AlsoWait(c, k, d, old(S()));
      }
      SleepMade(old(S()), S(), c, d, k);
    }

    // the sleeper c goes on event list k as well
    method AlsoWait(c: nat, k: nat, ghost d: nat, ghost s0: Sys)
      requires Sane() && FellAsleep(s0, S(), c, d, 0) && s0.stamp == stamp && Settled(S())
      requires Delayed(S(), c) && !On(event, c) && 1 <= k < |event.lists|
      modifies this`event, this`since, this`stamp
      ensures Sane() && Settled(S()) && FellAsleep(s0, S(), c, d, k)
      ensures Shape(old(S())) && Shape(S()) && (OnTime(S()) <==> OnTime(old(S())))
    {
      hide Core, OnTime, Settled, FellAsleep;
      HasShape(S());
      PutOnEventList(c, k);
      HasShape(S());
      SameTimes(old(S()), S());
      AsleepAndWaiting(s0, old(S()), S(), c, d, k);
    }

    // x is on no list; interrupts strike before it is put on its ready list
    method BecomeReady(isr: nat -> seq<nat>, x: nat)
      requires Sane() && x < |prio| && !On(generic, x) && !On(event, x)
      modifies this`generic, this`event, this`top, this`fired, this`moment
      ensures Sane() && EventMoved(old(S()), S()) && generic.home == old(generic.home)[x := prio[x]]
      ensures Backlog(S()) == Backlog(old(S())) && OneListJoined(old(S()), S(), x)
    {
      hide Placed, ReadyOk, TimeOk, WaitOk, EventMoved;
      Interrupts(isr);
      ghost var s1 := S();
      AddToReadyQueue(x);
      EventSame(s1, S());
      EventMovedMore(old(S()), s1, S());
    }

    // the head of the pending list leaves it and then its delay list; mid is the state between
    method UnlinkPending(isr: nat -> seq<nat>) returns (x: nat, ghost mid: Sys)
      requires Sane() && event.lists[0].items != []
      modifies this`generic, this`event, this`fired, this`moment
      ensures Sane() && x < |prio| && Delayed(old(S()), x) && x in old(fired) && x == old(event.lists[0].items[0])
      ensures Shape(mid) && mid == old(S()).(event := mid.event) && EventMoved(mid, S())
      ensures mid.event.home == old(event.home)[x := old(|event.lists|)] && |mid.event.lists| == old(|event.lists|)
      ensures generic.home == old(generic.home)[x := P + 2] && event.home[x] == |event.lists|
      ensures Backlog(S()) == Backlog(old(S())) - 1 && generic.lists[..P] == old(generic.lists[..P])
    {
      hide Core, EventMoved, Backlog;
      PendingHead(S());
      x := event.lists[0].items[0];
      UnlinkEvent(x);
      mid := S();
      HasShape(mid);
      Interrupts(isr);
      ghost var s2 := S();
      HasShape(s2);
      EventStays(mid, s2, x);
      SameBacklog(old(S()), s2);
      UnlinkGeneric(x);
      HasShape(S());
      EventSame(s2, S());
      EventMovedMore(mid, s2, S());
    }

    // one turn of the loop in prvCheckPendingReadyList
    method TakePending(isr: nat -> seq<nat>) returns (ghost c: nat)
      requires Sane() && event.lists[0].items != []
      modifies this`generic, this`event, this`top, this`fired, this`moment
      ensures Sane() && Woken(old(S()), S(), c) && c in fired && c == old(event.lists[0].items[0])
      ensures Backlog(S()) < Backlog(old(S())) && OneListJoined(old(S()), S(), c)
    {
      hide Core, EventMoved, Woken, Backlog;
      HasShape(S());
      var x, mid := UnlinkPending(isr);
      c := x;
      ghost var s3 := S();
      HasShape(s3);
      BecomeReady(isr, x);
      HasShape(S());
      EventMovedMore(mid, s3, S());
      EventSame(old(S()), old(S()));
      WokenFrom(old(S()), old(S()), mid, S(), x);
      JoinedAfter(old(S()), s3, S(), x);
    }

    /** prvCheckPendingReadyList: everyone on the pending list becomes ready, and nobody else
        whose event has not happened; the loop ends though interrupts keep adding to the list. */
    method CheckPendingReadyList(isr: nat -> seq<nat>)
      requires Valid()
      modifies this`generic, this`event, this`top, this`fired, this`moment
      ensures Valid() && Advanced(old(S()), S()) && ListsKept(old(S()), S()) && event.lists[0].items == []
      ensures old(event.lists[0].items) == [] ==> S() == old(S())
    {
      hide Core, Woken, Advanced, Backlog, OnTime, Settled, ListsKept, OneListJoined;
      HasShape(S());
      AdvancedSame(S());
      KeptSame(S(), S());
      while |event.lists[0].items| > 0
        invariant Sane() && Shape(S()) && Settled(S()) && Advanced(old(S()), S()) && ListsKept(old(S()), S())
        invariant S().Clock() == old(S()).Clock()
        invariant old(event.lists[0].items) == [] ==> S() == old(S())
        decreases Backlog(S())
      {
        ghost var s := S();
        ghost var c := TakePending(isr);
        HasShape(S());
        SettledMore(s, S(), c);
        KeptMore(old(S()), s, S(), c);
        AdvancedMore(old(S()), s, S(), c);
      }
      StillOnTime(old(S()), S());
    }

    // the head of the delay list in use leaves its lists; mid is the state before it does
    method UnlinkHead(isr: nat -> seq<nat>) returns (x: nat, ghost mid: Sys)
      requires Sane() && generic.lists[cur].items != []
      modifies this`generic, this`event, this`fired, this`moment
      ensures Sane() && x == old(generic.lists[cur].items[0]) && x < |prio| && Delayed(old(S()), x)
      ensures wake[x] == base + value[x] && Shape(mid) && Interrupted(old(S()), mid)
      ensures S() == mid.(generic := generic, event := event) && generic.home == old(generic.home)[x := P + 2]
      ensures event.home == mid.event.home[x := |event.lists|] && |event.lists| == |mid.event.lists|
      ensures Backlog(S()) == Backlog(old(S())) - 1 && generic.lists[..P] == old(generic.lists[..P])
    {
      hide Core, EventMoved, Backlog;
      DelayHead(S());
      x := generic.lists[cur].items[0];
      Interrupts(isr);
      mid := S();
      HasShape(mid);
      SameBacklog(old(S()), mid);
      UnlinkBoth(x);
    }

    // one turn of the inner loop in prvCheckDelayedList, for a head that is due
    method WakeHead(isr: nat -> seq<nat>) returns (ghost c: nat)
      requires Sane() && generic.lists[cur].items != []
      requires var x := generic.lists[cur].items[0]; x < |value| && value[x] <= tickCount
      modifies this`generic, this`event, this`top, this`fired, this`moment
      ensures Sane() && Woken(old(S()), S(), c) && wake[c] <= S().Clock()
      ensures Backlog(S()) < Backlog(old(S())) && OneListJoined(old(S()), S(), c)
    {
      hide Core, EventMoved, Woken, Backlog, OneListJoined;
      HasShape(S());
      var x, s1 := UnlinkHead(isr);
      c := x;
      ghost var s2 := S();
      HasShape(s2);
      BecomeReady(isr, x);
      HasShape(S());
      WokenFrom(old(S()), s1, s2, S(), x);
      JoinedAfter(old(S()), s2, S(), x);
    }

    // the head of the outer loop in prvCheckDelayedList
    method CountTick()
      requires Sane() && OnTime(S())
      modifies this`tickCount, this`cur, this`base
      ensures Sane() && S() == Ticked(old(S()))
      ensures cur != old(cur) ==> generic.lists[old(cur)].items == []
    {
      hide Core, OnTime;
      HasShape(S());
      TickKeeps(S());
      tickCount := if tickCount + 1 == M then 0 else tickCount + 1;
      if tickCount == 0 {
        EmptyAtSwap(old(S()));
        cur := if cur == P then P + 1 else P;
        base := base + M;
      }
    }

    // the inner loop
    method WakeDue(isr: nat -> seq<nat>, ghost s0: Sys)
      requires Sane() && Settled(S()) && Shape(s0) && Advanced(s0, S()) && ListsKept(s0, S())
      modifies this`generic, this`event, this`top, this`fired, this`moment
      ensures Sane() && Settled(S()) && OnTime(S()) && Advanced(s0, S()) && ListsKept(s0, S())
      ensures OnTime(old(S())) ==> S() == old(S())
    {
      hide Core, Woken, Advanced, Backlog, OnTime, Settled, ListsKept, OneListJoined;
      HasShape(S());
      HeadTells(S());
      while |generic.lists[cur].items| > 0 && tickCount >= value[generic.lists[cur].items[0]]
        invariant Sane() && Shape(S()) && Settled(S()) && Advanced(s0, S()) && ListsKept(s0, S())
        invariant generic.lists[cur].items != [] ==> generic.lists[cur].items[0] < |value|
        invariant OnTime(S()) <==>
          generic.lists[cur].items == [] || tickCount < value[generic.lists[cur].items[0]]
        invariant OnTime(old(S())) ==> S() == old(S())
        decreases Backlog(S())
      {
        ghost var s1 := S();
        ghost var c := WakeHead(isr);
        HasShape(S());
        SettledMore(s1, S(), c);
        KeptMore(s0, s1, S(), c);
        AdvancedMore(s0, s1, S(), c);
        HeadTells(S());
      }
    }

    // one turn of the outer loop
    method OneTick(isr: nat -> seq<nat>, ghost s0: Sys)
      requires Sane() && Settled(S()) && OnTime(S()) && Shape(s0) && Advanced(s0, S()) && ListsKept(s0, S())
      modifies this`generic, this`event, this`top, this`fired, this`moment
      modifies this`tickCount, this`cur, this`base
      ensures Sane() && Shape(S()) && Settled(S()) && OnTime(S()) && Advanced(s0, S()) && ListsKept(s0, S())
      ensures S().Clock() == old(S()).Clock() + 1
      ensures forall now :: old(S()).Clock() < now && QuietUntil(old(S()), now) ==>
        generic == old(generic) && top == old(top) && QuietUntil(S(), now)
    {
      hide Core, Advanced, OnTime, Settled, ListsKept, QuietUntil;
      HasShape(S());
      forall now | S().Clock() < now && QuietUntil(S(), now)
        ensures Shape(Ticked(S())) && OnTime(Ticked(S())) && QuietUntil(Ticked(S()), now)
      {
        QuietTick(S(), now);
      }
      AdvancedTick(s0, S());
      KeptTick(s0, S());
      SettledTick(S());
      TickKeeps(S());
      CountTick();
      HasShape(S());
      WakeDue(isr, s0);
      HasShape(S());
    }

    /** prvCheckDelayedList, called when the true tick count is now, less than a period after
        the last call: afterwards no delayed co-routine is due, and whoever has become ready
        was due or had its event. */
    method CheckDelayedList(isr: nat -> seq<nat>, now: nat)
      requires Valid() && S().Clock() <= now < S().Clock() + M
      modifies this`generic, this`event, this`top, this`fired, this`moment
      modifies this`tickCount, this`lastTick, this`passed, this`cur, this`base
      ensures Valid() && S().Clock() == now && Advanced(old(S()), S()) && ListsKept(old(S()), S())
      ensures QuietUntil(old(S()), now) ==> generic == old(generic) && top == old(top)
    {
      hide Core, Advanced, OnTime, Settled, QuietUntil, TicksSince, ListsKept;
      HasShape(S());
      PassedTicks(base, tickCount, now);
      passed := TicksSince(now, lastTick);
      CountTicks(isr, now);
      lastTick := tickCount;
    }

    // its outer loop
    method CountTicks(isr: nat -> seq<nat>, ghost now: nat)
      requires Sane() && Settled(S()) && OnTime(S()) && S().Clock() <= now && passed == now - S().Clock()
      modifies this`generic, this`event, this`top, this`fired, this`moment
      modifies this`tickCount, this`passed, this`cur, this`base
      ensures Sane() && Shape(S()) && Settled(S()) && OnTime(S()) && S().Clock() == now
      ensures Advanced(old(S()), S()) && ListsKept(old(S()), S())
      ensures QuietUntil(old(S()), now) ==> generic == old(generic) && top == old(top)
    {
      hide Core, Advanced, OnTime, Settled, QuietUntil, ListsKept;
      HasShape(S());
      AdvancedSame(S());
      KeptSame(S(), S());
      while passed > 0
        invariant Sane() && Shape(S()) && Settled(S()) && OnTime(S())
        invariant Advanced(old(S()), S()) && ListsKept(old(S()), S())
        invariant passed == now - S().Clock() >= 0
        invariant QuietUntil(old(S()), now) ==>
          generic == old(generic) && top == old(top) && QuietUntil(S(), now)
      {
        passed := passed - 1;
        OneTick(isr, old(S()));
      }
    }

    // the search for the highest non-empty ready list
    method FindTop() returns (found: bool)
      requires Valid()
      modifies this`top
      ensures Shape(S()) && top <= old(top) && top == Highest(generic.lists, P - 1)
      ensures found <==> generic.lists[top].items != []
      ensures !found ==> Valid() && forall c :: 0 <= c < |prio| ==> generic.home[c] >= P
    {
      ghost var s := S();
      hide Core, OnTime, Settled, Highest;
      HasShape(s);
      TopSuffices(s);
      while |generic.lists[top].items| == 0
        invariant Shape(S()) && top <= s.top
        invariant Highest(generic.lists, top) == Highest(generic.lists, s.P - 1)
        decreases top
      {
        HighestStep(generic.lists, top);
        if top == 0 {
          NoneReady(s);
          assert S() == s.(top := 0);
          return false;
        }
        top := top - 1;
      }
      HighestStep(generic.lists, top);
      found := true;
    }

    /** The dispatch part of vCoRoutineSchedule: a co-routine of the highest ready priority runs,
        the next one of its list in turn; none runs only if none is ready. */
    method Dispatch() returns (res: MaybeCr)
      requires Valid()
      modifies this`generic, this`top, this`running
      ensures Valid() && generic.home == old(generic.home)
      ensures res.NoCr? ==> running == old(running) && generic == old(generic)
      ensures res.NoCr? ==> forall c :: 0 <= c < |prio| ==> generic.home[c] >= P
      ensures res.Cr? ==>
        && running == res && res.id < |prio| && generic.home[res.id] == prio[res.id] < P
        && (forall c :: 0 <= c < |prio| && generic.home[c] < P ==> prio[c] <= prio[res.id])
        && TurnTaken(old(generic.lists), generic.lists, P, res.id)
    {
      ghost var s := S();
      hide Core, OnTime, Settled, Highest, TurnTaken, Turn;
      HasShape(s);
      var found := FindTop();
      if !found {
        return NoCr;
      }
      WalkTop(s, top);
      generic := Rack(generic.home, generic.lists[top := Advance(generic.lists[top])]);
      assert S() == Walked(s, top);
      running := Cr(Current(generic.lists[top]));
      res := running;
    }

    // the two checks at the start of vCoRoutineSchedule
    method CheckLists(isr: nat -> seq<nat>, now: nat)
      requires Valid() && S().Clock() <= now < S().Clock() + M
      modifies this`generic, this`event, this`top, this`fired, this`moment
      modifies this`tickCount, this`lastTick, this`passed, this`cur, this`base
      ensures Valid() && running == old(running) && S().Clock() == now
      ensures Advanced(old(S()), S()) && ListsKept(old(S()), S())
      ensures |prio| == |generic.home| == old(|event.home|)
      ensures forall c :: 0 <= c < |prio| && old(event.home[c]) == 0 ==> generic.home[c] == prio[c]
      ensures old(event.lists[0].items) == [] && QuietUntil(old(S()), now) ==> generic == old(generic)
    {
      hide Core, OnTime, Settled, Advanced, QuietUntil, EventMoved, ListsKept;
      HasShape(S());
      CheckPendingReadyList(isr);
      ghost var s1 := S();
      HasShape(s1);
      Interrupts(isr);
      ghost var s2 := S();
      HasShape(s2);
      AdvancedInterrupt(s1, s2);
      KeepsTimes(s1, s2, now);
      CheckDelayedList(isr, now);
      KeptSame(s1, s2);
      KeptOn(s1, s2, S());
      AdvancedOn(s1, s2, S());
      KeptOn(old(S()), s1, S());
      AdvancedOn(old(S()), s1, S());
      Served(old(S()), s1, S());
    }

    /** vCoRoutineSchedule up to the call of the chosen co-routine, whose own calls come next.
        now is the true tick count, less than a period after the last call. */
    method Schedule(isr: nat -> seq<nat>, now: nat) returns (res: MaybeCr)
      requires Valid() && S().Clock() <= now < S().Clock() + M
      modifies this`generic, this`event, this`top, this`fired, this`moment, this`running
      modifies this`tickCount, this`lastTick, this`passed, this`cur, this`base
      ensures Valid() && S().Clock() == now && Advanced(old(S()), S())
      ensures forall c :: 0 <= c < |prio| && old(event.home[c]) == 0 ==> generic.home[c] == prio[c]
      ensures res.NoCr? ==> running == old(running) && forall c :: 0 <= c < |prio| ==> generic.home[c] >= P
      ensures res.Cr? ==>
        && running == res && res.id < |prio| && generic.home[res.id] == prio[res.id] < P
        && (forall c :: 0 <= c < |prio| && generic.home[c] < P ==> prio[c] <= prio[res.id])
      ensures InTurn(old(S()), S(), res) && Made(old(S()), DoSchedule, S())
      ensures old(event.lists[0].items) == [] && QuietUntil(old(S()), now) && res.Cr? ==>
        TurnTaken(old(generic.lists), generic.lists, P, res.id)
    {
      hide Core, OnTime, Settled, Advanced, QuietUntil, TurnTaken, ListsKept, InTurn;
      HasShape(S());
      CheckLists(isr, now);
      ghost var s := S();
      res := Dispatch();
      AdvancedWalk(old(S()), s, S());
      TurnComes(old(S()), s, S(), res);
    }
  }
}
