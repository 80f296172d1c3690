/**
 Queue sets (supports/rtos/queue.c with configUSE_QUEUE_SETS): a queue of handles that says
 which member has something to receive.

 Members are numbered; the handle of member i is i.  Steps are the critical sections of tasks
 and the FromISR functions, interleaved as in the blocking protocol: while a task has a queue
 locked only interrupts act.  Clients follow the rule of the interface that a member is
 received from only after the set named it.
 */
module QueueSets {
  import opened Common
  import opened Queues

  /** selected counts how often the set has named the member without a receive since; leaving
      says that xQueueRemoveFromSet has found the member empty and is about to take it out. */
  datatype Member = Member(q: QueueVal<Item>, inSet: bool, selected: nat, leaving: bool)

  // MemberHalf and SetHalf: between the two critical sections of prvUnlockQueue
  datatype Window = Open | MemberLocked(i: nat) | MemberHalf(i: nat) | SetLocked | SetHalf

  datatype Sys = Sys(members: seq<Member>, handles: QueueVal<nat>, window: Window)

  datatype Step =
    | TaskSend(i: nat, x: Item, pos: Position)
    | IsrSend(i: nat, x: Item, pos: Position)
    | TaskReceive(i: nat)
    | IsrReceive(i: nat)
    | Select
    | IsrSelect
    | LockMember(i: nat)
    | UnlockMemberTx(i: nat)
    | UnlockMemberRx(i: nat)
    | LockSet
    | UnlockSetTx
    | UnlockSetRx
    | Add(i: nat)
    | TestEmpty(i: nat)                // the test in xQueueRemoveFromSet, outside its critical section
    | Remove(i: nat)                   // the assignment in its critical section

  predicate Enabled(s: Sys, step: Step) {
    match step
    case TaskSend(i, _, pos) => s.window == Open && i < |s.members| && HasRoom(s.members[i].q, pos) && pos != Overwrite
    case IsrSend(i, _, pos) => i < |s.members| && HasRoom(s.members[i].q, pos) && pos != Overwrite
    case TaskReceive(i) => s.window == Open && i < |s.members| && MayReceive(s.members[i])
    case IsrReceive(i) => i < |s.members| && MayReceive(s.members[i])
    case Select => s.window == Open && s.handles.items != [] && s.handles.items[0] < |s.members|
    case IsrSelect => s.handles.items != [] && s.handles.items[0] < |s.members|
    case LockMember(i) => s.window == Open && i < |s.members|
    case UnlockMemberTx(i) => s.window == MemberLocked(i) && i < |s.members|
    case UnlockMemberRx(i) => s.window == MemberHalf(i) && i < |s.members|
    case LockSet => s.window == Open
    case UnlockSetTx => s.window == SetLocked
    case UnlockSetRx => s.window == SetHalf
    case Add(i) => s.window == Open && i < |s.members| && !s.members[i].inSet && s.members[i].q.items == []
    case TestEmpty(i) => s.window == Open && i < |s.members| && s.members[i].inSet
    case Remove(i) => s.window == Open && i < |s.members| && s.members[i].inSet && s.members[i].leaving
  }

  // clients receive from a member of the set only after a select
  predicate MayReceive(m: Member) {
    m.q.items != [] && (m.inSet ==> m.selected > 0)
  }

  function Received(m: Member, q: QueueVal<Item>): Member
    requires MayReceive(m)
  {
    m.(q := q, selected := if m.inSet then m.selected - 1 else m.selected)
  }

  function Apply(s: Sys, step: Step): Sys
    requires Enabled(s, step)
  {
    match step
    case TaskSend(i, x, pos) =>
      var m := s.members[i];
      if m.inSet then
        s.(members := s.members[i := m.(q := m.q.(items := Put(m.q.items, x, pos)))], handles := Notify(s.handles, i, pos))
      else s.(members := s.members[i := m.(q := Send(m.q, x, pos))])
    case IsrSend(i, x, pos) =>
      var m := s.members[i];
      if m.inSet && m.q.txLock == UNLOCKED then
        s.(members := s.members[i := m.(q := m.q.(items := Put(m.q.items, x, pos)))], handles := Notify(s.handles, i, pos))
      else s.(members := s.members[i := m.(q := SendFromISR(m.q, x, pos))])
    case TaskReceive(i) => s.(members := s.members[i := Received(s.members[i], Receive(s.members[i].q))])
    case IsrReceive(i) => s.(members := s.members[i := Received(s.members[i], ReceiveFromISR(s.members[i].q))])
    case Select => Selected(s, Receive(s.handles))
    case IsrSelect => Selected(s, ReceiveFromISR(s.handles))
    case LockMember(i) =>
      s.(members := s.members[i := s.members[i].(q := Lock(s.members[i].q))], window := MemberLocked(i))
    case UnlockMemberTx(i) =>
      var m := s.members[i];
      if m.inSet then
        s.(members := s.members[i := m.(q := m.q.(txLock := UNLOCKED))],
           handles := NotifyTimes(s.handles, i, Pos(m.q.txLock)), window := MemberHalf(i))
      else s.(members := s.members[i := m.(q := UnlockTx(m.q))], window := MemberHalf(i))
    case UnlockMemberRx(i) =>
      s.(members := s.members[i := s.members[i].(q := UnlockRx(s.members[i].q))], window := Open)
    case LockSet => s.(handles := Lock(s.handles), window := SetLocked)
    case UnlockSetTx => s.(handles := UnlockTx(s.handles), window := SetHalf)
    case UnlockSetRx => s.(handles := UnlockRx(s.handles), window := Open)
    case Add(i) => s.(members := s.members[i := s.members[i].(inSet := true)])
    case TestEmpty(i) => s.(members := s.members[i := s.members[i].(leaving := s.members[i].q.items == [])])
    case Remove(i) => s.(members := s.members[i := s.members[i].(inSet := false, leaving := false)])
  }

  // a select removes the first handle and counts it for the member it names
  function Selected(s: Sys, handles: QueueVal<nat>): Sys
    requires s.handles.items != [] && s.handles.items[0] < |s.members|
  {
    var i := s.handles.items[0];
    s.(members := s.members[i := s.members[i].(selected := s.members[i].selected + 1)], handles := handles)
  }

  // ---------------------------------------------------------------- the invariant

  /** Every item of a member is announced by a handle in the set, will be announced when the
      member is unlocked, or has been announced to a client that has still to receive it. */
  predicate Conserved(s: Sys) {
    forall i :: 0 <= i < |s.members| ==>
      var m := s.members[i];
      if m.inSet then |m.q.items| == multiset(s.handles.items)[i] + Pos(m.q.txLock) + m.selected
      else multiset(s.handles.items)[i] == 0 && m.selected == 0
  }

  predicate Shape(s: Sys) {
    && (forall h :: h in s.handles.items ==> h < |s.members|)
    && (forall i :: 0 <= i < |s.members| ==>
          && |s.members[i].q.items| <= s.members[i].q.length
          && (s.members[i].q.txLock == UNLOCKED || (s.window == MemberLocked(i) && 0 <= s.members[i].q.txLock <= 127)))
  }

  /** The sum of the lengths of the first n members. */
  function Capacity(ms: seq<Member>, n: nat): nat
    requires n <= |ms|
  {
    if n == 0 then 0 else Capacity(ms, n - 1) + (if ms[n - 1].inSet then ms[n - 1].q.length else 0)
  }

  predicate LongEnough(s: Sys) {
    Capacity(s.members, |s.members|) <= s.handles.length
  }

  predicate Inv(s: Sys) {
    Conserved(s) && Shape(s) && LongEnough(s)
  }

  /** What the guarantees ask of a run: the lock budget, a set long enough for a new member,
      and that a member is still empty when it is taken out of the set. */
  predicate Allowed(s: Sys, step: Step)
    requires Enabled(s, step)
  {
    && (step.IsrSend? ==> s.members[step.i].q.txLock < 127)
    && (step.Add? ==> LongEnough(Apply(s, step)))
    && (step.Remove? ==> s.members[step.i].q.items == [])
  }

  // ---------------------------------------------------------------- the set never overflows

  function Total(hs: seq<nat>, n: nat): nat {
    if n == 0 then 0 else Total(hs, n - 1) + multiset(hs)[n - 1]
  }

  lemma {:induction false} TotalAppend(hs: seq<nat>, h: nat, n: nat)
    ensures Total(hs + [h], n) == Total(hs, n) + (if h < n then 1 else 0)
  {
    if n > 0 {
      TotalAppend(hs, h, n - 1);
    }
  }

  lemma {:induction false} TotalNone(n: nat)
    ensures Total([], n) == 0
  {
    if n > 0 {
      TotalNone(n - 1);
    }
  }

  lemma {:induction false} TotalIsLength(hs: seq<nat>, n: nat)
    requires forall h :: h in hs ==> h < n
    ensures Total(hs, n) == |hs|
  {
    if hs == [] {
      TotalNone(n);
    } else {
      var front, last := hs[..|hs| - 1], hs[|hs| - 1];
      assert hs == front + [last];
      assert forall h :: h in front ==> h in hs;
      assert last in hs;
      TotalIsLength(front, n);
      TotalAppend(front, last, n);
    }
  }

  /** Handles that stay within the members' lengths, with one to spare for member i. */
  lemma {:induction false} TotalBelow(hs: seq<nat>, ms: seq<Member>, n: nat, i: nat)
    requires n <= |ms|
    requires forall j :: 0 <= j < n ==>
               multiset(hs)[j] + (if j == i then 1 else 0) <= (if ms[j].inSet then ms[j].q.length else 0)
    ensures Total(hs, n) + (if i < n then 1 else 0) <= Capacity(ms, n)
  {
    if n > 0 {
      TotalBelow(hs, ms, n - 1, i);
    }
  }

  /** A set at least as long as its members has room whenever one of them has an item that
      the set has not announced. */
  lemma RoomForHandle(s: Sys, i: nat)
    requires Shape(s) && LongEnough(s) && i < |s.members|
    requires forall j :: 0 <= j < |s.members| ==>
               multiset(s.handles.items)[j] + (if j == i then 1 else 0)
               <= (if s.members[j].inSet then |s.members[j].q.items| else 0)
    ensures |s.handles.items| < s.handles.length
  {
    TotalIsLength(s.handles.items, |s.members|);
    TotalBelow(s.handles.items, s.members, |s.members|, i);
  }

  // ---------------------------------------------------------------- every step keeps the invariant

  lemma {:induction false} CapacitySame(ms: seq<Member>, ms': seq<Member>, n: nat)
    requires n <= |ms| == |ms'|
    requires forall i :: 0 <= i < n ==> ms[i].inSet == ms'[i].inSet && ms[i].q.length == ms'[i].q.length
    ensures Capacity(ms, n) == Capacity(ms', n)
  {
    if n > 0 {
      CapacitySame(ms, ms', n - 1);
    }
  }

  lemma {:induction false} CapacityLess(ms: seq<Member>, ms': seq<Member>, n: nat)
    requires n <= |ms| == |ms'|
    requires forall i :: 0 <= i < n ==> (ms'[i].inSet ==> ms[i].inSet) && ms[i].q.length == ms'[i].q.length
    ensures Capacity(ms', n) <= Capacity(ms, n)
  {
    if n > 0 {
      CapacityLess(ms, ms', n - 1);
    }
  }

  lemma HandlesAfterPut(hs: seq<nat>, i: nat, pos: Position, hs': seq<nat>)
    requires pos != Overwrite && hs' == Put(hs, i, pos)
    ensures forall j: nat :: multiset(hs')[j] == multiset(hs)[j] + (if j == i then 1 else 0)
    ensures |hs'| == |hs| + 1 && forall h :: h in hs' ==> h == i || h in hs
  {
    assert multiset(hs') == multiset(hs) + multiset{i};
  }

  lemma HandlesAfterTake(hs: seq<nat>, hs': seq<nat>)
    requires hs != [] && hs' == hs[1..]
    ensures forall j: nat :: multiset(hs')[j] == multiset(hs)[j] - (if j == hs[0] then 1 else 0)
    ensures forall h :: h in hs' ==> h in hs
  {
    assert hs == [hs[0]] + hs';
  }

  // what a member's items leave for the handles in the set to announce
  function Unannounced(m: Member): int {
    |m.q.items| - Pos(m.q.txLock) - m.selected
  }

  /** Member i gains an item that the set does not know about yet. */
  predicate Gains(s: Sys, i: nat, m': Member) {
    && i < |s.members| && s.members[i].inSet
    && m'.inSet && m'.selected == s.members[i].selected && m'.q.length == s.members[i].q.length
    && |m'.q.items| <= m'.q.length
    && Unannounced(m') == Unannounced(s.members[i]) + 1
    && (m'.q.txLock == UNLOCKED || (s.window == MemberLocked(i) && 0 <= m'.q.txLock <= 127))
  }

  lemma NotifyHasRoom(s: Sys, i: nat, m': Member)
    requires Inv(s) && Gains(s, i, m')
    ensures |s.handles.items| < s.handles.length
    ensures Capacity(s.members[i := m'], |s.members|) == Capacity(s.members, |s.members|)
  {
    var s1 := s.(members := s.members[i := m']);
    CapacitySame(s.members, s1.members, |s.members|);
    RoomForHandle(s1, i);
  }

  lemma NotifyConserves(s: Sys, i: nat, m': Member, pos: Position)
    requires Inv(s) && Gains(s, i, m') && pos != Overwrite
    ensures |s.handles.items| < s.handles.length
    ensures Inv(s.(members := s.members[i := m'], handles := Notify(s.handles, i, pos)))
  {
    NotifyHasRoom(s, i, m');
    var hs' := Put(s.handles.items, i, pos);
    HandlesAfterPut(s.handles.items, i, pos, hs');
    var s' := s.(members := s.members[i := m'], handles := Notify(s.handles, i, pos));
    assert s'.handles.items == hs' && s'.handles.length == s.handles.length;
    hide Put, Capacity, Notify;
    GainConserves(s, s', i, m');
  }

  // the account after member i and the handles have both gained one
  lemma GainConserves(s: Sys, s': Sys, i: nat, m': Member)
    requires Conserved(s) && Shape(s) && Gains(s, i, m') && s'.members == s.members[i := m'] && s'.window == s.window
    requires forall j: nat :: multiset(s'.handles.items)[j] == multiset(s.handles.items)[j] + (if j == i then 1 else 0)
    requires forall h :: h in s'.handles.items ==> h == i || h in s.handles.items
    ensures Conserved(s') && Shape(s')
  {
    forall j | 0 <= j < |s'.members|
      ensures var m := s'.members[j];
        if m.inSet then |m.q.items| == multiset(s'.handles.items)[j] + Pos(m.q.txLock) + m.selected
        else multiset(s'.handles.items)[j] == 0 && m.selected == 0
    {
      assert j == i || s'.members[j] == s.members[j];
    }
  }

  lemma NotifyingSendKeepsInv(s: Sys, step: Step)
    requires Inv(s) && Enabled(s, step) && (step.TaskSend? || step.IsrSend?)
    requires s.members[step.i].inSet && s.members[step.i].q.txLock == UNLOCKED
    ensures Inv(Apply(s, step))
  {
    var m := s.members[step.i];
    NotifyConserves(s, step.i, m.(q := m.q.(items := Put(m.q.items, step.x, step.pos))), step.pos);
    hide Inv, Notify;
  }

  /** A change to one member that leaves its account with the set as it was. */
  lemma BalancedChange(s: Sys, i: nat, m': Member, w: Window)
    requires Inv(s) && i < |s.members| && (s.window == w || s.window == Open || (s.window == MemberHalf(i) && w == Open))
    requires m'.inSet == s.members[i].inSet && m'.q.length == s.members[i].q.length && |m'.q.items| <= m'.q.length
    requires m'.inSet ==> Unannounced(m') == Unannounced(s.members[i])
    requires !m'.inSet ==> m'.selected == 0
    requires m'.q.txLock == UNLOCKED || (w == MemberLocked(i) && 0 <= m'.q.txLock <= 127)
    ensures Inv(s.(members := s.members[i := m'], window := w))
  {
    var s' := s.(members := s.members[i := m'], window := w);
    CapacitySame(s.members, s'.members, |s.members|);
    hide Capacity;
    forall j | 0 <= j < |s'.members|
      ensures var m := s'.members[j];
        if m.inSet then |m.q.items| == multiset(s'.handles.items)[j] + Pos(m.q.txLock) + m.selected
        else multiset(s'.handles.items)[j] == 0 && m.selected == 0
    {
      assert j == i || s'.members[j] == s.members[j];
    }
  }

  lemma SilentSendKeepsInv(s: Sys, step: Step)
    requires Inv(s) && Enabled(s, step) && Allowed(s, step) && (step.TaskSend? || step.IsrSend?)
    requires !s.members[step.i].inSet || s.members[step.i].q.txLock != UNLOCKED
    ensures Inv(Apply(s, step))
  {
    BalancedChange(s, step.i, Apply(s, step).members[step.i], s.window);
    hide Inv, Capacity;
  }

  lemma SendKeepsInv(s: Sys, step: Step)
    requires Inv(s) && Enabled(s, step) && Allowed(s, step) && (step.TaskSend? || step.IsrSend?)
    ensures Inv(Apply(s, step))
  {
    if s.members[step.i].inSet && s.members[step.i].q.txLock == UNLOCKED {
      NotifyingSendKeepsInv(s, step);
    } else {
      SilentSendKeepsInv(s, step);
    }
  }

  lemma ReceiveKeepsInv(s: Sys, step: Step)
    requires Inv(s) && Enabled(s, step) && (step.TaskReceive? || step.IsrReceive?)
    ensures Inv(Apply(s, step))
  {
    BalancedChange(s, step.i, Apply(s, step).members[step.i], s.window);
    hide Inv, Capacity;
  }

  lemma SelectKeepsInv(s: Sys, step: Step)
    requires Inv(s) && Enabled(s, step) && (step.Select? || step.IsrSelect?)
    ensures Inv(Apply(s, step))
  {
    var h, s' := s.handles.items[0], Apply(s, step);
    var m' := s.members[h].(selected := s.members[h].selected + 1);
    assert s'.members == s.members[h := m'] && s'.handles.items == s.handles.items[1..];
    assert s'.handles.length == s.handles.length && s'.window == s.window;
    hide Apply, Enabled, Capacity;
    HandlesAfterTake(s.handles.items, s'.handles.items);
    assert s.members[h].inSet by {
      assert multiset(s.handles.items)[h] > 0;
    }
    CapacitySame(s.members, s'.members, |s.members|);
    LossConserves(s, s', h, m');
  }

  // the account after a handle of member i has gone to a client
  lemma LossConserves(s: Sys, s': Sys, i: nat, m': Member)
    requires Conserved(s) && Shape(s) && i < |s.members| && s.members[i].inSet
    requires m' == s.members[i].(selected := s.members[i].selected + 1)
    requires s'.members == s.members[i := m'] && s'.window == s.window
    requires forall j: nat :: multiset(s'.handles.items)[j] + (if j == i then 1 else 0) == multiset(s.handles.items)[j]
    requires forall h :: h in s'.handles.items ==> h in s.handles.items
    ensures Conserved(s') && Shape(s')
  {
    forall j | 0 <= j < |s'.members|
      ensures var m := s'.members[j];
        if m.inSet then |m.q.items| == multiset(s'.handles.items)[j] + Pos(m.q.txLock) + m.selected
        else multiset(s'.handles.items)[j] == 0 && m.selected == 0
    {
      assert j == i || s'.members[j] == s.members[j];
    }
  }

  /** Unlocking a member announces one by one what interrupts posted meanwhile. */
  lemma {:induction false} NotifyTimesConserves(s: Sys, i: nat, k: nat)
    requires Inv(s) && i < |s.members| && s.members[i].inSet && s.window == MemberLocked(i)
    requires k <= Pos(s.members[i].q.txLock) && s.members[i].q.txLock >= 0
    ensures var m := s.members[i];
            Inv(s.(members := s.members[i := m.(q := m.q.(txLock := m.q.txLock - k))],
                   handles := NotifyTimes(s.handles, i, k)))
  {
    hide Inv, Notify;
    var m := s.members[i];
    if k == 0 {
      assert s.members[i := m.(q := m.q.(txLock := m.q.txLock))] == s.members;
    } else {
      ShapeOf(s, i);
      NotifyTimesConserves(s, i, k - 1);
      var m1 := m.(q := m.q.(txLock := m.q.txLock - (k - 1)));
      var s1 := s.(members := s.members[i := m1], handles := NotifyTimes(s.handles, i, k - 1));
      var m' := m.(q := m.q.(txLock := m.q.txLock - k));
      NotifyConserves(s1, i, m', SendToBack);
      assert s1.members[i := m'] == s.members[i := m'];
    }
  }

  // the counted posts are all made known: the member's lock is off
  lemma ToHalf(s: Sys, i: nat, m': Member)
    requires Inv(s) && i < |s.members| && s.window == MemberLocked(i)
    requires m'.inSet == s.members[i].inSet && m'.q.length == s.members[i].q.length && |m'.q.items| <= m'.q.length
    requires m'.q.txLock == UNLOCKED && m'.selected == s.members[i].selected
    requires m'.inSet ==> Pos(s.members[i].q.txLock) == 0 && |m'.q.items| == |s.members[i].q.items|
    ensures Inv(s.(members := s.members[i := m'], window := MemberHalf(i)))
  {
    CapacitySame(s.members, s.members[i := m'], |s.members|);
    hide Capacity;
  }

  lemma UnlockTxKeepsInv(s: Sys, i: nat)
    requires Inv(s) && Enabled(s, UnlockMemberTx(i))
    ensures Inv(Apply(s, UnlockMemberTx(i)))
  {
    var m := s.members[i];
    ShapeOf(s, i);
    if m.inSet {
      var k := Pos(m.q.txLock);
      var m' := m.(q := m.q.(txLock := UNLOCKED));
      assert Apply(s, UnlockMemberTx(i)) ==
        s.(members := s.members[i := m'], handles := NotifyTimes(s.handles, i, k), window := MemberHalf(i));
      hide Apply, Enabled, Inv;
      if m.q.txLock >= 0 {
        NotifyTimesConserves(s, i, k);
        var s1 := s.(members := s.members[i := m.(q := m.q.(txLock := m.q.txLock - k))],
                     handles := NotifyTimes(s.handles, i, k));
        ToHalf(s1, i, m');
        assert s1.members[i := m'] == s.members[i := m'];
      } else {
        assert NotifyTimes(s.handles, i, 0) == s.handles;
        ToHalf(s, i, m');
      }
    } else {
      var m' := m.(q := UnlockTx(m.q));
      assert Apply(s, UnlockMemberTx(i)) == s.(members := s.members[i := m'], window := MemberHalf(i));
      hide Apply, Enabled, Inv;
      ToHalf(s, i, m');
    }
  }

  lemma {:induction false} NotifyTimesLength(set_: QueueVal<nat>, i: nat, k: nat)
    ensures NotifyTimes(set_, i, k).length == set_.length
  {
    if k > 0 {
      NotifyTimesLength(set_, i, k - 1);
    }
  }

  lemma LockMemberKeepsInv(s: Sys, step: Step)
    requires Inv(s) && Enabled(s, step) && (step.LockMember? || step.UnlockMemberRx?)
    ensures Inv(Apply(s, step))
  {
    ShapeOf(s, step.i);
    var s' := Apply(s, step);
    assert s' == s.(members := s.members[step.i := s'.members[step.i]], window := s'.window);
    AccountOf(s, step.i);
    BalancedChange(s, step.i, s'.members[step.i], s'.window);
    hide Inv;
  }

  lemma AccountOf(s: Sys, i: nat)
    requires Inv(s) && i < |s.members|
    ensures !s.members[i].inSet ==> s.members[i].selected == 0
  {
  }

  lemma LockSetKeepsInv(s: Sys, step: Step)
    requires Inv(s) && Enabled(s, step) && (step.LockSet? || step.UnlockSetTx? || step.UnlockSetRx?)
    ensures Inv(Apply(s, step))
  {
    var s' := Apply(s, step);
    assert s'.members == s.members && s'.handles.items == s.handles.items && s'.handles.length == s.handles.length;
    assert forall i :: s.window != MemberLocked(i);
    hide Apply, Capacity;
  }

  lemma AddKeepsInv(s: Sys, i: nat)
    requires Inv(s) && Enabled(s, Add(i)) && Allowed(s, Add(i))
    ensures Inv(Apply(s, Add(i)))
  {
    var s' := Apply(s, Add(i));
    assert s'.members == s.members[i := s.members[i].(inSet := true)] && s'.handles == s.handles;
    assert LongEnough(s');
    hide Apply, Capacity;
  }

  lemma RemoveKeepsInv(s: Sys, i: nat)
    requires Inv(s) && Enabled(s, Remove(i)) && s.members[i].q.items == []
    ensures Inv(Apply(s, Remove(i)))
  {
    var s' := Apply(s, Remove(i));
    assert s'.members == s.members[i := s.members[i].(inSet := false, leaving := false)] && s'.handles == s.handles;
    hide Apply, Capacity;
    CapacityLess(s.members, s'.members, |s.members|);
    assert multiset(s.handles.items)[i] == 0 && s.members[i].selected == 0;
    assert forall j :: 0 <= j < |s.members| && j != i ==> s'.members[j] == s.members[j];
  }

  lemma TestKeepsInv(s: Sys, step: Step)
    requires Inv(s) && Enabled(s, step) && step.TestEmpty?
    ensures Inv(Apply(s, step))
  {
    BalancedChange(s, step.i, Apply(s, step).members[step.i], s.window);
    hide Inv, Capacity;
  }

  lemma StillEmpty(s: Sys, i: nat)
    requires Enabled(s, Remove(i)) && Allowed(s, Remove(i))
    ensures i < |s.members| && s.members[i].q.items == []
  {
  }

  lemma StepKeepsInv(s: Sys, step: Step)
    requires Inv(s) && Enabled(s, step) && Allowed(s, step)
    ensures Inv(Apply(s, step))
  {
    hide *;
    match step
    case TaskSend(_, _, _) => SendKeepsInv(s, step);
    case IsrSend(_, _, _) => SendKeepsInv(s, step);
    case TaskReceive(_) => ReceiveKeepsInv(s, step);
    case IsrReceive(_) => ReceiveKeepsInv(s, step);
    case Select => SelectKeepsInv(s, step);
    case IsrSelect => SelectKeepsInv(s, step);
    case UnlockMemberTx(i) => UnlockTxKeepsInv(s, i);
    case Add(i) => AddKeepsInv(s, i);
    case Remove(i) =>
      StillEmpty(s, i);
      RemoveKeepsInv(s, i);
    case TestEmpty(_) => TestKeepsInv(s, step);
    case LockMember(_) => LockMemberKeepsInv(s, step);
    case UnlockMemberRx(_) => LockMemberKeepsInv(s, step);
    case _ => LockSetKeepsInv(s, step);
  }

  // ---------------------------------------------------------------- every run

  /** Empty queues, none of them in the set yet. */
  predicate Initial(s: Sys) {
    && s.handles.items == [] && s.window == Open
    && forall i :: 0 <= i < |s.members| ==>
         s.members[i].q.items == [] && s.members[i].q.txLock == UNLOCKED
         && !s.members[i].inSet && s.members[i].selected == 0 && !s.members[i].leaving
  }

  lemma InitialInv(s: Sys)
    requires Initial(s)
    ensures Inv(s)
  {
    InitialCapacity(s.members, |s.members|);
  }

  lemma {:induction false} InitialCapacity(ms: seq<Member>, n: nat)
    requires n <= |ms| && forall i :: 0 <= i < n ==> !ms[i].inSet
    ensures Capacity(ms, n) == 0
  {
    if n > 0 {
      InitialCapacity(ms, n - 1);
    }
  }

  predicate Run(s: Sys, steps: seq<Step>, s': Sys)
    decreases |steps|
  {
    if steps == [] then s' == s
    else Enabled(s, steps[0]) && Allowed(s, steps[0]) && Run(Apply(s, steps[0]), steps[1..], s')
  }

  lemma {:induction false} RunKeepsInv(s: Sys, steps: seq<Step>, s': Sys)
    requires Inv(s) && Run(s, steps, s')
    ensures Inv(s')
    decreases |steps|
  {
    hide Inv, Enabled, Allowed, Apply;
    if steps != [] {
      StepKeepsInv(s, steps[0]);
      RunKeepsInv(Apply(s, steps[0]), steps[1..], s');
    }
  }

  /** In every run the items of each member are exactly accounted for. */
  lemma Conservation(s: Sys, steps: seq<Step>, s': Sys, i: nat)
    requires Initial(s) && Run(s, steps, s') && i < |s'.members| && s'.members[i].inSet
    ensures var m := s'.members[i];
            |m.q.items| == multiset(s'.handles.items)[i] + Pos(m.q.txLock) + m.selected
    // so a client that was told to receive from a member never finds it empty
    ensures s'.members[i].selected > 0 ==> s'.members[i].q.items != []
  {
    hide Run;
    InitialInv(s);
    RunKeepsInv(s, steps, s');
  }

  /** In every run the assertion in prvNotifyQueueSetContainer that the set is not full holds
      each time: when an item is posted to a member, and for each of the posts that are made
      known one after the other when a member is unlocked. */
  lemma SetNeverFull(s: Sys, steps: seq<Step>, s': Sys, step: Step)
    requires Initial(s) && Run(s, steps, s') && Enabled(s', step)
    ensures (step.TaskSend? || step.IsrSend?) && s'.members[step.i].inSet
            && (step.IsrSend? ==> s'.members[step.i].q.txLock == UNLOCKED) ==>
      |s'.handles.items| < s'.handles.length
    ensures step.UnlockMemberTx? && s'.members[step.i].inSet ==>
      forall k: nat :: k < Pos(s'.members[step.i].q.txLock) ==>
        |NotifyTimes(s'.handles, step.i, k).items| < s'.handles.length
  {
    hide Run, Inv, Initial;
    InitialInv(s);
    RunKeepsInv(s, steps, s');
    if (step.TaskSend? || step.IsrSend?) && s'.members[step.i].inSet
       && (step.IsrSend? ==> s'.members[step.i].q.txLock == UNLOCKED) {
      RoomForPost(s', step.i, step.x, step.pos);
    }
    if step.UnlockMemberTx? && s'.members[step.i].inSet {
      forall k: nat | k < Pos(s'.members[step.i].q.txLock)
        ensures |NotifyTimes(s'.handles, step.i, k).items| < s'.handles.length
      {
        RoomAtUnlock(s', step.i, k);
      }
    }
  }

  lemma RoomForPost(s: Sys, i: nat, x: Item, pos: Position)
    requires Inv(s) && i < |s.members| && s.members[i].inSet && HasRoom(s.members[i].q, pos) && pos != Overwrite
    requires s.members[i].q.txLock == UNLOCKED || s.window == Open
    ensures |s.handles.items| < s.handles.length
  {
    var m := s.members[i];
    NotifyConserves(s, i, m.(q := m.q.(items := Put(m.q.items, x, pos))), pos);
  }

  lemma RoomAtUnlock(s: Sys, i: nat, k: nat)
    requires Inv(s) && i < |s.members| && s.members[i].inSet && s.window == MemberLocked(i)
    requires k < Pos(s.members[i].q.txLock)
    ensures |NotifyTimes(s.handles, i, k).items| < s.handles.length
  {
    hide Inv, NotifyTimes;
    NotifyTimesConserves(s, i, k);
    NotifyTimesLength(s.handles, i, k);
    var m := s.members[i];
    var m1 := m.(q := m.q.(txLock := m.q.txLock - k));
    var s1 := s.(members := s.members[i := m1], handles := NotifyTimes(s.handles, i, k));
    ShapeOf(s1, i);
    NotifyConserves(s1, i, m1.(q := m1.q.(txLock := m1.q.txLock - 1)), SendToBack);
  }

  lemma ShapeOf(s: Sys, i: nat)
    requires Inv(s) && i < |s.members|
    ensures |s.members[i].q.items| <= s.members[i].q.length
    ensures s.members[i].q.txLock == UNLOCKED || (s.window == MemberLocked(i) && 0 <= s.members[i].q.txLock <= 127)
  {
  }

  // ---------------------------------------------------------------- the race in xQueueRemoveFromSet

  /** xQueueRemoveFromSet tests for emptiness before the critical section that takes the member
      out.  Its effect is sound exactly when the member is still empty at that point. */
  lemma RemoveRace(s: Sys, i: nat)
    requires Inv(s) && Enabled(s, Remove(i))
    ensures Inv(Apply(s, Remove(i))) <==> s.members[i].q.items == []
  {
    if s.members[i].q.items == [] {
      RemoveKeepsInv(s, i);
    } else {
      var s' := Apply(s, Remove(i));
      assert s'.members[i].selected == s.members[i].selected && s'.handles == s.handles;
    }
  }

  /** A member in which the test finds an item is not taken out. */
  lemma FullMemberStays(s: Sys, i: nat)
    requires Enabled(s, TestEmpty(i))
    ensures Enabled(Apply(s, TestEmpty(i)), Remove(i)) <==> s.members[i].q.items == []
  {
  }

  /** It need not be: from any state in which an empty member is in the set, the test succeeds,
      an interrupt posts, and the member is taken out; the set still holds its handle, and the
      account is broken. */
  lemma RaceHappens(s: Sys, i: nat, x: Item) returns (s1: Sys, s2: Sys, s3: Sys)
    requires Inv(s) && s.window == Open && i < |s.members| && s.members[i].inSet
    requires s.members[i].q.items == [] && s.members[i].q.length > 0
    ensures Enabled(s, TestEmpty(i)) && Allowed(s, TestEmpty(i)) && s1 == Apply(s, TestEmpty(i))
    ensures Enabled(s1, IsrSend(i, x, SendToBack)) && Allowed(s1, IsrSend(i, x, SendToBack))
    ensures s2 == Apply(s1, IsrSend(i, x, SendToBack)) && Inv(s2)
    ensures Enabled(s2, Remove(i)) && s3 == Apply(s2, Remove(i))
    ensures !Inv(s3) && i in s3.handles.items && i < |s3.members| && !s3.members[i].inSet
  {
    s1 := Apply(s, TestEmpty(i));
    StepKeepsInv(s, TestEmpty(i));
    s2 := Apply(s1, IsrSend(i, x, SendToBack));
    StepKeepsInv(s1, IsrSend(i, x, SendToBack));
    s3 := Apply(s2, Remove(i));
    RemoveRace(s2, i);
    RaceLeavesHandle(s1, i, x);
  }

  lemma RaceLeavesHandle(s: Sys, i: nat, x: Item)
    requires Inv(s) && s.window == Open && i < |s.members| && s.members[i].inSet
    requires s.members[i].q.items == [] && s.members[i].q.length > 0
    ensures i in Apply(s, IsrSend(i, x, SendToBack)).handles.items
  {
    var m := s.members[i];
    NotifyConserves(s, i, m.(q := m.q.(items := Put(m.q.items, x, SendToBack))), SendToBack);
    HandlesAfterPut(s.handles.items, i, SendToBack, s.handles.items + [i]);
  }

  /** And such a state is reached: the first member added to a set of its own length. */
  lemma RaceIsReached(x: Item) returns (s: Sys, s': Sys, s1: Sys, s2: Sys, s3: Sys)
    ensures Initial(s) && Run(s, [Add(0)], s')
    ensures Enabled(s', TestEmpty(0)) && s1 == Apply(s', TestEmpty(0))
    ensures Enabled(s1, IsrSend(0, x, SendToBack)) && s2 == Apply(s1, IsrSend(0, x, SendToBack))
    ensures Enabled(s2, Remove(0)) && s3 == Apply(s2, Remove(0))
    ensures !Inv(s3) && 0 in s3.handles.items && |s3.members| == 1 && !s3.members[0].inSet
  {
    var m := Member(QueueVal([], 1, UNLOCKED, UNLOCKED, [], []), false, 0, false);
    s := Sys([m], QueueVal([], 1, UNLOCKED, UNLOCKED, [], []), Open);
    s' := FirstMember(s);
    hide Run, Initial, Inv, Apply;
    s1, s2, s3 := RaceHappens(s', 0, x);
  }

  lemma FirstMember(s: Sys) returns (s': Sys)
    requires Initial(s) && |s.members| == 1 && s.members[0].q.length == 1 <= s.handles.length
    ensures Run(s, [Add(0)], s') && Inv(s') && s'.window == Open
    ensures s'.members == [s.members[0].(inSet := true)]
  {
    s' := Apply(s, Add(0));
    assert s'.members == [s.members[0].(inSet := true)];
    assert Capacity(s'.members, 1) == Capacity(s'.members, 0) + 1 == 1;
    assert Run(s', [], s');
    assert [Add(0)][1..] == [];
    InitialInv(s);
    StepKeepsInv(s, Add(0));
  }

  // ---------------------------------------------------------------- the order of the handles

  /** The members that a step makes known to the set, and the one that a select names. */
  function MadeKnown(s: Sys, step: Step): seq<nat>
    requires Enabled(s, step)
  {
    match step
    case TaskSend(i, _, _) => if s.members[i].inSet then [i] else []
    case IsrSend(i, _, _) => if s.members[i].inSet && s.members[i].q.txLock == UNLOCKED then [i] else []
    case UnlockMemberTx(i) => if s.members[i].inSet then seq(Pos(s.members[i].q.txLock), _ => i) else []
    case _ => []
  }

  function Named(s: Sys, step: Step): seq<nat>
    requires Enabled(s, step)
  {
    if step.Select? || step.IsrSelect? then [s.handles.items[0]] else []
  }

  predicate PostsToBack(step: Step) {
    (step.TaskSend? || step.IsrSend?) ==> step.pos == SendToBack
  }

  // where a post to a member that is not locked puts the handle
  lemma HandleGoes(s: Sys, step: Step)
    requires Inv(s) && Enabled(s, step) && (step.TaskSend? || step.IsrSend?)
    requires s.members[step.i].inSet && s.members[step.i].q.txLock == UNLOCKED
    ensures step.pos == SendToBack ==> Apply(s, step).handles.items == s.handles.items + [step.i]
    ensures step.pos == SendToFront ==> Apply(s, step).handles.items == [step.i] + s.handles.items
  {
    RoomForPost(s, step.i, step.x, step.pos);
  }

  lemma OpenIsUnlocked(s: Sys, i: nat)
    requires Inv(s) && i < |s.members| && s.window == Open
    ensures s.members[i].q.txLock == UNLOCKED
  {
  }

  /** In every run, after a post to the front of a member that is not locked the next select names
      that member. */
  lemma FrontPostNamedNext(s: Sys, steps: seq<Step>, s': Sys, step: Step)
    requires Initial(s) && Run(s, steps, s') && Enabled(s', step) && (step.TaskSend? || step.IsrSend?)
    requires step.pos == SendToFront && s'.members[step.i].inSet && s'.members[step.i].q.txLock == UNLOCKED
    ensures var t := Apply(s', step);
            t.handles.items == [step.i] + s'.handles.items && Enabled(t, IsrSelect) && Named(t, IsrSelect) == [step.i]
  {
    hide Run, Inv, Initial;
    InitialInv(s);
    RunKeepsInv(s, steps, s');
    HandleGoes(s', step);
  }

  lemma RoomForAll(s: Sys, i: nat)
    requires Inv(s) && i < |s.members| && s.members[i].inSet && s.window == MemberLocked(i)
    ensures Pos(s.members[i].q.txLock) <= Pos(s.handles.length - |s.handles.items|)
  {
    hide Inv, NotifyTimes;
    var k := Pos(s.members[i].q.txLock);
    if k > 0 {
      ToldTimes(s.handles, i, k - 1);
      RoomAtUnlock(s, i, k - 1);
    }
  }

  lemma UnlockMakesKnown(s: Sys, i: nat)
    requires Inv(s) && Enabled(s, UnlockMemberTx(i)) && s.members[i].inSet
    ensures Apply(s, UnlockMemberTx(i)).handles.items == s.handles.items + MadeKnown(s, UnlockMemberTx(i))
  {
    hide Inv, NotifyTimes;
    RoomForAll(s, i);
    ToldTimes(s.handles, i, Pos(s.members[i].q.txLock));
  }

  // the other steps
  lemma SilentInOrder(s: Sys, step: Step)
    requires Enabled(s, step) && MadeKnown(s, step) == [] && !(step.UnlockMemberTx? && s.members[step.i].inSet)
    ensures s.handles.items == Named(s, step) + Apply(s, step).handles.items
  {
    hide Put;
  }

  lemma StepInOrder(s: Sys, step: Step)
    requires Inv(s) && Enabled(s, step) && PostsToBack(step)
    ensures s.handles.items + MadeKnown(s, step) == Named(s, step) + Apply(s, step).handles.items
  {
    hide Inv, Apply;
    var known, named, items := MadeKnown(s, step), Named(s, step), Apply(s, step).handles.items;
    if step.UnlockMemberTx? && s.members[step.i].inSet {
      UnlockMakesKnown(s, step.i);
      InOrder(s.handles.items, known, named, items);
    } else if known == [] {
      SilentInOrder(s, step);
      InOrder(s.handles.items, known, named, items);
    } else {
      if step.TaskSend? {
        OpenIsUnlocked(s, step.i);
      }
      HandleGoes(s, step);
      InOrder(s.handles.items, known, named, items);
    }
  }

  lemma InOrder(items: seq<nat>, known: seq<nat>, named: seq<nat>, items': seq<nat>)
    requires (named == [] && items' == items + known) || (known == [] && items == named + items')
    ensures items + known == named + items'
  {
  }

  function AllMadeKnown(s: Sys, steps: seq<Step>, s': Sys): seq<nat>
    requires Run(s, steps, s')
    decreases |steps|
  {
    if steps == [] then [] else MadeKnown(s, steps[0]) + AllMadeKnown(Apply(s, steps[0]), steps[1..], s')
  }

  function AllNamed(s: Sys, steps: seq<Step>, s': Sys): seq<nat>
    requires Run(s, steps, s')
    decreases |steps|
  {
    if steps == [] then [] else Named(s, steps[0]) + AllNamed(Apply(s, steps[0]), steps[1..], s')
  }

  /** In every run of posts to the back, selects name the members in the order in which their
      posts were made known, each as often, up to those the set still holds. */
  lemma {:induction false} NamedInOrder(s: Sys, steps: seq<Step>, s': Sys)
    requires Inv(s) && Run(s, steps, s') && forall i :: 0 <= i < |steps| ==> PostsToBack(steps[i])
    ensures s.handles.items + AllMadeKnown(s, steps, s') == AllNamed(s, steps, s') + s'.handles.items
    decreases |steps|
  {
    hide Inv, Enabled, Allowed, Apply, MadeKnown, Named;
    if steps == [] {
      assert s.handles.items + [] == [] + s.handles.items;
    } else {
      assert PostsToBack(steps[0]);
      var s1, a, d := Apply(s, steps[0]), MadeKnown(s, steps[0]), Named(s, steps[0]);
      StepInOrder(s, steps[0]);
      StepKeepsInv(s, steps[0]);
      NamedInOrder(s1, steps[1..], s');
      var a1, d1 := AllMadeKnown(s1, steps[1..], s'), AllNamed(s1, steps[1..], s');
      calc {
        s.handles.items + (a + a1);
        (s.handles.items + a) + a1;
        (d + s1.handles.items) + a1;
        d + (s1.handles.items + a1);
        d + (d1 + s'.handles.items);
        (d + d1) + s'.handles.items;
      }
    }
  }
}
