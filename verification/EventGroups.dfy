/**
 Event groups (supports/rtos/event_groups.c): a word of event bits and a list of tasks waiting
 for some or all of a set of bits.

 `GroupVal` is the value of a group.  The functions on it say what each operation does; the
 lemmas show that no operation leaves a task waiting for what is already there, and that the
 single pass over the shrinking list does what testing everybody at once would do.  Class
 `EventGroup` is the group itself, with the walk over the list written as in the source.
 */
module EventGroups {
  import opened Common

  type Bits = bv32

  // control information in the list item of a waiting task (32-bit ticks)
  const CLEAR_ON_EXIT: Bits := 0x0100_0000
  const UNBLOCKED: Bits := 0x0200_0000
  const WAIT_FOR_ALL: Bits := 0x0400_0000
  const IN_USE: Bits := 0x8000_0000
  const CONTROL: Bits := 0xff00_0000

  /** A task on the list, with the value of its list item. */
  datatype Waiter = Waiter(task: Task, value: Bits)

  datatype GroupVal = GroupVal(bits: Bits, waiting: seq<Waiter>)

  // ---------------------------------------------------------------- words of bits

  function Or(x: Bits, y: Bits): Bits {
    x | y
  }

  function Minus(x: Bits, y: Bits): Bits {
    x & !y
  }

  predicate Meets(x: Bits, y: Bits) {
    x & y != 0
  }

  predicate Within(x: Bits, y: Bits) {
    x & y == x
  }

  lemma OrContains(x: Bits, y: Bits)
    ensures Within(x, Or(x, y)) && Within(y, Or(x, y))
  {
  }

  lemma OrLeast(x: Bits, y: Bits, z: Bits)
    requires Within(x, z) && Within(y, z)
    ensures Within(Or(x, y), z)
  {
    assert (x | y) & z == (x & z) | (y & z);
  }

  lemma WithinTransitive(x: Bits, y: Bits, z: Bits)
    requires Within(x, y) && Within(y, z)
    ensures Within(x, z)
  {
  }

  lemma WithinBoth(x: Bits, y: Bits)
    requires Within(x, y) && Within(y, x)
    ensures x == y
  {
  }

  lemma OrAssociative(x: Bits, y: Bits, z: Bits)
    ensures Or(Or(x, y), z) == Or(x, Or(y, z)) && Or(0, x) == x
  {
  }

  lemma ZeroWithin(x: Bits)
    ensures Within(0, x)
  {
  }

  lemma MinusWithin(x: Bits, y: Bits)
    ensures Within(Minus(x, y), x)
  {
  }

  lemma MinusOut(x: Bits, b: Bits, z: Bits)
    requires Within(x, z) || !Meets(x, b)
    ensures !Meets(x, Minus(b, z))
  {
    if Within(x, z) {
      assert (x & z) & (b & !z) == 0;
    } else {
      assert x & (b & !z) == (x & b) & !z;
    }
  }

  /** Fewer bits meet less and contain less. */
  lemma FewerBits(x: Bits, x': Bits, v: Bits)
    requires Within(x', x)
    ensures Meets(v, x') ==> Meets(v, x)
    ensures Within(v, x') ==> Within(v, x)
  {
    if Within(v, x') {
      WithinTransitive(v, x', x);
    }
  }

  // ---------------------------------------------------------------- item values

  function User(v: Bits): Bits {
    Minus(v, CONTROL)
  }

  /** The caller's bits: none of the kernel's, as the assertions demand. */
  predicate UserOnly(v: Bits) {
    !Meets(v, CONTROL)
  }

  /** prvTestWaitCondition */
  predicate TestWaitCondition(bits: Bits, waitFor: Bits, all: bool) {
    if all then Within(waitFor, bits) else Meets(waitFor, bits)
  }

  predicate ForAll(v: Bits) {
    Meets(v, WAIT_FOR_ALL)
  }

  predicate Clears(v: Bits) {
    Meets(v, CLEAR_ON_EXIT)
  }

  /** The item value under which a task is put on the list. */
  function Word(waitFor: Bits, clear: bool, all: bool): Bits {
    Or(Or(waitFor, Or(if clear then CLEAR_ON_EXIT else 0, if all then WAIT_FOR_ALL else 0)), IN_USE)
  }

  /** The test xEventGroupSetBits makes of an item value. */
  predicate Matches(v: Bits, bits: Bits) {
    TestWaitCondition(bits, User(v), ForAll(v))
  }

  // what the control byte adds to a caller's word and what it takes away again
  lemma ControlByte(w: Bits, c: Bits)
    requires w & 0xff00_0000 == 0 && c & 0x00ff_ffff == 0
    ensures (w | c) & !0xff00_0000 == w
    ensures (w | c) & 0x0100_0000 == c & 0x0100_0000
    ensures (w | c) & 0x0400_0000 == c & 0x0400_0000
    ensures (w | c) & 0x0200_0000 == c & 0x0200_0000
  {
  }

  function ControlOf(clear: bool, all: bool): Bits {
    if clear then (if all then 0x8500_0000 else 0x8100_0000) else (if all then 0x8400_0000 else 0x8000_0000)
  }

  lemma WordIsControl(waitFor: Bits, clear: bool, all: bool)
    ensures Word(waitFor, clear, all) == waitFor | ControlOf(clear, all)
  {
    OrAssociative(waitFor, Or(if clear then CLEAR_ON_EXIT else 0, if all then WAIT_FOR_ALL else 0), IN_USE);
  }

  /** What is packed into an item value is what the walk unpacks again. */
  lemma WordRoundTrip(waitFor: Bits, clear: bool, all: bool)
    requires UserOnly(waitFor)
    ensures User(Word(waitFor, clear, all)) == waitFor
    ensures Clears(Word(waitFor, clear, all)) == clear && ForAll(Word(waitFor, clear, all)) == all
    ensures forall bits :: Matches(Word(waitFor, clear, all), bits) == TestWaitCondition(bits, waitFor, all)
  {
    WordIsControl(waitFor, clear, all);
    ControlByte(waitFor, ControlOf(clear, all));
    hide Word;
  }

  /** The value stored for a released task. */
  function ReleaseWord(bits: Bits): Bits {
    Or(Or(bits, UNBLOCKED), IN_USE)
  }

  /** It gives back the bits and says that the task did not time out. */
  lemma ReleaseWordRoundTrip(bits: Bits)
    requires UserOnly(bits)
    ensures User(ReleaseWord(bits)) == bits && Meets(ReleaseWord(bits), UNBLOCKED)
  {
    OrAssociative(bits, UNBLOCKED, IN_USE);
    ControlByte(bits, 0x8200_0000);
  }

  /** Setting more bits never undoes a match. */
  lemma Monotone(v: Bits, bits: Bits, more: Bits)
    requires Matches(v, bits)
    ensures Matches(v, Or(bits, more))
  {
    OrContains(bits, more);
    FewerBits(Or(bits, more), bits, User(v));
    hide Within, Meets, Or, User, ForAll;
  }

  /** Clearing bits never makes a match. */
  lemma ClearingKeepsUnmatched(v: Bits, bits: Bits, cleared: Bits)
    requires !Matches(v, bits)
    ensures !Matches(v, Minus(bits, cleared))
  {
    MinusWithin(bits, cleared);
    FewerBits(bits, Minus(bits, cleared), User(v));
    hide Within, Meets, Minus, User, ForAll;
  }

  // ---------------------------------------------------------------- setting bits

  function Released(ws: seq<Waiter>, bits: Bits): seq<Waiter> {
    if ws == [] then []
    else Released(Front(ws), bits) + (if Matches(Last(ws).value, bits) then [Last(ws)] else [])
  }

  function Kept(ws: seq<Waiter>, bits: Bits): seq<Waiter> {
    if ws == [] then []
    else Kept(Front(ws), bits) + (if Matches(Last(ws).value, bits) then [] else [Last(ws)])
  }

  function Front(ws: seq<Waiter>): seq<Waiter>
    requires ws != []
  {
    ws[..|ws| - 1]
  }

  function Last(ws: seq<Waiter>): Waiter
    requires ws != []
  {
    ws[|ws| - 1]
  }

  function ClearOf(w: Waiter, bits: Bits): Bits {
    if Matches(w.value, bits) && Clears(w.value) then User(w.value) else 0
  }

  /** The bits that the released tasks asked to have cleared. */
  function ToClear(ws: seq<Waiter>, bits: Bits): Bits {
    if ws == [] then 0 else Or(ToClear(Front(ws), bits), ClearOf(Last(ws), bits))
  }

  function SetBits(g: GroupVal, more: Bits): GroupVal {
    var b := Or(g.bits, more);
    GroupVal(Minus(b, ToClear(g.waiting, b)), Kept(g.waiting, b))
  }

  /** Exactly the waiters that match are released, each as often as it was on the list. */
  lemma {:induction false} ReleasedExactly(ws: seq<Waiter>, bits: Bits, w: Waiter)
    ensures multiset(Released(ws, bits))[w] == if Matches(w.value, bits) then multiset(ws)[w] else 0
    ensures multiset(Kept(ws, bits))[w] == if Matches(w.value, bits) then 0 else multiset(ws)[w]
  {
    hide Matches;
    if ws != [] {
      var front, last := Front(ws), Last(ws);
      ReleasedExactly(front, bits, w);
      ReleasedLast(ws, bits);
      hide Released, Kept, Front, Last;
    }
  }

  lemma ReleasedLast(ws: seq<Waiter>, bits: Bits)
    requires ws != []
    ensures multiset(ws) == multiset(Front(ws)) + multiset{Last(ws)}
    ensures multiset(Released(ws, bits)) == multiset(Released(Front(ws), bits))
              + (if Matches(Last(ws).value, bits) then multiset{Last(ws)} else multiset{})
    ensures multiset(Kept(ws, bits)) == multiset(Kept(Front(ws), bits))
              + (if Matches(Last(ws).value, bits) then multiset{} else multiset{Last(ws)})
  {
    hide Matches;
    assert ws == Front(ws) + [Last(ws)];
  }

  /** ToClear is the union of the masks of matching waiters that clear on exit: it contains
      each of them ... */
  lemma {:induction false} ToClearContains(ws: seq<Waiter>, bits: Bits, w: Waiter)
    requires w in ws
    ensures Within(ClearOf(w, bits), ToClear(ws, bits))
  {
    hide Within, Or, ClearOf;
    OrContains(ToClear(Front(ws), bits), ClearOf(Last(ws), bits));
    if w != Last(ws) {
      ToClearContains(Front(ws), bits, w);
      WithinTransitive(ClearOf(w, bits), ToClear(Front(ws), bits), ToClear(ws, bits));
    }
  }

  /** ... and is contained in every word that contains each of them. */
  lemma {:induction false} ToClearLeast(ws: seq<Waiter>, bits: Bits, x: Bits)
    requires forall w :: w in ws ==> Within(ClearOf(w, bits), x)
    ensures Within(ToClear(ws, bits), x)
  {
    hide Within, Or, ClearOf;
    if ws == [] {
      ZeroWithin(x);
    } else {
      assert Last(ws) in ws;
      assert forall w :: w in Front(ws) ==> w in ws;
      ToClearLeast(Front(ws), bits, x);
      OrLeast(ToClear(Front(ws), bits), ClearOf(Last(ws), bits), x);
    }
  }

  /** The result does not depend on the order of the list: the same bits remain, and the same
      tasks are released and kept. */
  lemma OrderDoesNotMatter(ws: seq<Waiter>, ws': seq<Waiter>, bits: Bits)
    requires multiset(ws) == multiset(ws')
    ensures ToClear(ws, bits) == ToClear(ws', bits)
    ensures multiset(Released(ws, bits)) == multiset(Released(ws', bits))
    ensures multiset(Kept(ws, bits)) == multiset(Kept(ws', bits))
  {
    hide Within, Matches, ToClear, Released, Kept;
    ClearWithin(ws, ws', bits);
    ClearWithin(ws', ws, bits);
    WithinBoth(ToClear(ws, bits), ToClear(ws', bits));
    forall w: Waiter
      ensures multiset(Released(ws, bits))[w] == multiset(Released(ws', bits))[w]
      ensures multiset(Kept(ws, bits))[w] == multiset(Kept(ws', bits))[w]
    {
      ReleasedExactly(ws, bits, w);
      ReleasedExactly(ws', bits, w);
    }
  }

  lemma ClearWithin(ws: seq<Waiter>, ws': seq<Waiter>, bits: Bits)
    requires multiset(ws) == multiset(ws')
    ensures Within(ToClear(ws, bits), ToClear(ws', bits))
  {
    hide Within, ClearOf, ToClear;
    forall w | w in ws
      ensures Within(ClearOf(w, bits), ToClear(ws', bits))
    {
      assert w in multiset(ws');
      ToClearContains(ws', bits, w);
    }
    ToClearLeast(ws, bits, ToClear(ws', bits));
  }

  lemma {:induction false} KeptUnmatched(ws: seq<Waiter>, bits: Bits)
    ensures forall w :: w in Kept(ws, bits) <==> w in ws && !Matches(w.value, bits)
    ensures forall w :: w in Released(ws, bits) <==> w in ws && Matches(w.value, bits)
  {
    hide Matches;
    if ws != [] {
      KeptUnmatched(Front(ws), bits);
      assert ws == Front(ws) + [Last(ws)];
      assert forall w :: w in ws <==> w in Front(ws) || w == Last(ws);
    }
  }

  // ---------------------------------------------------------------- the other operations

  datatype Outcome = Returned(value: Bits) | Waits

  /** xEventGroupWaitBits up to the point where the task returns or sleeps. */
  function WaitBits(g: GroupVal, t: Task, waitFor: Bits, clear: bool, all: bool, mayBlock: bool): (GroupVal, Outcome) {
    if TestWaitCondition(g.bits, waitFor, all) then
      (if clear then ClearBits(g, waitFor) else g, Returned(g.bits))
    else if !mayBlock then (g, Returned(g.bits))
    else (g.(waiting := g.waiting + [Waiter(t, Word(waitFor, clear, all))]), Waits)
  }

  /** xEventGroupSync up to the point where the task returns or sleeps. */
  function Sync(g: GroupVal, t: Task, more: Bits, waitFor: Bits, mayBlock: bool): (GroupVal, Outcome) {
    var g1 := SetBits(g, more);
    if Within(waitFor, Or(g.bits, more)) then (ClearBits(g1, waitFor), Returned(Or(g.bits, more)))
    else if mayBlock then (g1.(waiting := g1.waiting + [Waiter(t, Word(waitFor, true, true))]), Waits)
    else (g1, Returned(g1.bits))
  }

  /** What xEventGroupWaitBits does for a task that timed out (xEventGroupSync: clear and all). */
  function AfterTimeOut(g: GroupVal, waitFor: Bits, clear: bool, all: bool): GroupVal {
    if TestWaitCondition(g.bits, waitFor, all) && clear then ClearBits(g, waitFor) else g
  }

  function ClearBits(g: GroupVal, cleared: Bits): GroupVal {
    g.(bits := Minus(g.bits, cleared))
  }

  // the tick takes a task off the list
  function TimeOut(g: GroupVal, t: Task): GroupVal {
    g.(waiting := Others(g.waiting, t))
  }

  function Others(ws: seq<Waiter>, t: Task): (r: seq<Waiter>)
    ensures forall w :: w in r <==> w in ws && w.task != t
  {
    if ws == [] then []
    else
      assert forall w :: w in ws <==> w == ws[0] || w in ws[1..];
      (if ws[0].task == t then [] else [ws[0]]) + Others(ws[1..], t)
  }

  // ---------------------------------------------------------------- in plain bit operations

  /** The wait condition: any of the bits, or all of them. */
  predicate Condition(bits: Bits, waitFor: Bits, all: bool) {
    if all then bits & waitFor == waitFor else bits & waitFor != 0
  }

  lemma TestMeans(bits: Bits, waitFor: Bits, all: bool)
    ensures TestWaitCondition(bits, waitFor, all) <==> Condition(bits, waitFor, all)
    ensures all ==> (Within(waitFor, bits) <==> Condition(bits, waitFor, all))
  {
    assert bits & waitFor == waitFor & bits;
  }

  lemma OrMeans(x: Bits, y: Bits)
    ensures Or(x, y) == x | y
  {
  }

  lemma MinusMeans(x: Bits, y: Bits)
    ensures Minus(x, y) == x & !y
  {
  }

  /** What a wait does: it returns at once if and only if its condition holds, with the bits as
      they were, and clears what it waited for if and only if asked to; else it sleeps or gives
      up and changes nothing. */
  predicate WaitRule(g: GroupVal, g': GroupVal, r: Outcome, t: Task, waitFor: Bits, clear: bool, all: bool, mayBlock: bool) {
    if Condition(g.bits, waitFor, all) then
      r == Returned(g.bits) && g'.waiting == g.waiting && g'.bits == if clear then g.bits & !waitFor else g.bits
    else if mayBlock then
      r == Waits && g'.bits == g.bits && g'.waiting == g.waiting + [Waiter(t, Word(waitFor, clear, all))]
    else r == Returned(g.bits) && g' == g
  }

  lemma WaitMeans(g: GroupVal, t: Task, waitFor: Bits, clear: bool, all: bool, mayBlock: bool)
    ensures var (g', r) := WaitBits(g, t, waitFor, clear, all, mayBlock);
            WaitRule(g, g', r, t, waitFor, clear, all, mayBlock)
  {
    hide TestWaitCondition, Word, Condition, Minus;
    TestMeans(g.bits, waitFor, all);
    var cleared := Minus(g.bits, waitFor);
    assert cleared == g.bits & !waitFor by {
      MinusMeans(g.bits, waitFor);
    }
    var (g', r) := WaitBits(g, t, waitFor, clear, all, mayBlock);
    if Condition(g.bits, waitFor, all) {
      assert g' == GroupVal(if clear then cleared else g.bits, g.waiting) && r == Returned(g.bits);
    }
  }

  /** What a sync does once it has set its bits, which left g1: it returns all the bits there were
      if and only if the whole of what it waits for was among them, and leaves that clear. */
  predicate SyncRule(g: GroupVal, g1: GroupVal, g': GroupVal, r: Outcome, t: Task, more: Bits, waitFor: Bits, mayBlock: bool) {
    if Condition(g.bits | more, waitFor, true) then
      r == Returned(g.bits | more) && g'.waiting == g1.waiting && g'.bits == g1.bits & !waitFor
    else if mayBlock then
      r == Waits && g'.bits == g1.bits && g'.waiting == g1.waiting + [Waiter(t, Word(waitFor, true, true))]
    else r == Returned(g1.bits) && g' == g1
  }

  lemma SyncMeans(g: GroupVal, t: Task, more: Bits, waitFor: Bits, mayBlock: bool)
    ensures var (g', r) := Sync(g, t, more, waitFor, mayBlock);
            SyncRule(g, SetBits(g, more), g', r, t, more, waitFor, mayBlock)
  {
    hide Word, Condition, SetBits, Within, Minus, Or;
    OrMeans(g.bits, more);
    TestMeans(g.bits | more, waitFor, true);
    MinusMeans(SetBits(g, more).bits, waitFor);
  }

  /** What setting bits, which makes them b before any are cleared, does to a task that sleeps for
      waitFor: it is released, with b, if and only if its condition holds of b, and then what it
      waited for is clear if it asked for that. */
  predicate SleeperRule(g: GroupVal, g': GroupVal, b: Bits, woken: seq<Waiter>, t: Task, waitFor: Bits, clear: bool, all: bool) {
    UserOnly(waitFor) && Waiter(t, Word(waitFor, clear, all)) in g.waiting ==>
      && (Condition(b, waitFor, all) ==> Waiter(t, ReleaseWord(b)) in woken && (clear ==> !Meets(waitFor, g'.bits)))
      && (Condition(b, waitFor, all) <==> Waiter(t, Word(waitFor, clear, all)) !in g'.waiting)
  }

  ghost predicate SetRule(g: GroupVal, g': GroupVal, b: Bits, woken: seq<Waiter>) {
    forall t, waitFor, clear, all :: SleeperRule(g, g', b, woken, t, waitFor, clear, all)
  }

  lemma WokenIn(woken: seq<Waiter>, released: seq<Waiter>, bits: Bits, w: Waiter)
    requires Woken(woken, released, bits) && w in released
    ensures Waiter(w.task, ReleaseWord(bits)) in woken
  {
    hide ReleaseWord;
    var i :| 0 <= i < |released| && released[i] == w;
    assert woken[i] == Waiter(w.task, ReleaseWord(bits));
  }

  lemma SleeperServed(g: GroupVal, more: Bits, woken: seq<Waiter>, t: Task, waitFor: Bits, clear: bool, all: bool)
    requires Woken(woken, Released(g.waiting, Or(g.bits, more)), Or(g.bits, more))
    requires UserOnly(waitFor) && Waiter(t, Word(waitFor, clear, all)) in g.waiting
    ensures SleeperRule(g, SetBits(g, more), Or(g.bits, more), woken, t, waitFor, clear, all)
  {
    var b, w := Or(g.bits, more), Waiter(t, Word(waitFor, clear, all));
    WordRoundTrip(waitFor, clear, all);
    assert Matches(w.value, b) == TestWaitCondition(b, waitFor, all);
    hide Word, Or, Minus, Meets, Within, Matches, Kept, Released, ToClear, TestWaitCondition, Condition, ReleaseWord, Woken, UserOnly, User, Clears;
    TestMeans(b, waitFor, all);
    KeptUnmatched(g.waiting, b);
    if w in Released(g.waiting, b) {
      WokenIn(woken, Released(g.waiting, b), b, w);
    }
    if Matches(w.value, b) && clear {
      ToClearContains(g.waiting, b, w);
      assert ClearOf(w, b) == waitFor;
      MinusOut(waitFor, b, ToClear(g.waiting, b));
    }
  }

  lemma SetMeans(g: GroupVal, more: Bits, woken: seq<Waiter>)
    requires Woken(woken, Released(g.waiting, Or(g.bits, more)), Or(g.bits, more))
    ensures SetRule(g, SetBits(g, more), Or(g.bits, more), woken)
  {
    hide Word, Or, Meets, Condition, ReleaseWord, UserOnly, SetBits, Woken, Released, SleeperRule;
    var b, g' := Or(g.bits, more), SetBits(g, more);
    forall t, waitFor, clear, all ensures SleeperRule(g, g', b, woken, t, waitFor, clear, all) {
      if UserOnly(waitFor) && Waiter(t, Word(waitFor, clear, all)) in g.waiting {
        SleeperServed(g, more, woken, t, waitFor, clear, all);
      } else {
        NotAsleep(g, g', b, woken, t, waitFor, clear, all);
      }
    }
  }

  lemma NotAsleep(g: GroupVal, g': GroupVal, b: Bits, woken: seq<Waiter>, t: Task, waitFor: Bits, clear: bool, all: bool)
    requires !(UserOnly(waitFor) && Waiter(t, Word(waitFor, clear, all)) in g.waiting)
    ensures SleeperRule(g, g', b, woken, t, waitFor, clear, all)
  {
  }

  lemma Untouched(b: Bits, c: Bits, x: Bits)
    requires Within(c, !x)
    ensures Minus(b, c) & x == b & x
  {
    assert c & !x == c ==> !c & x == x;
    assert (b & !c) & x == b & (!c & x);
  }

  /** And to the bits: those that no released task asked to have cleared stay set. */
  lemma SetKeepsOtherBits(g: GroupVal, more: Bits, x: Bits)
    requires forall w :: w in g.waiting && Matches(w.value, Or(g.bits, more)) && Clears(w.value) ==> Within(User(w.value), !x)
    ensures SetBits(g, more).bits & x == Or(g.bits, more) & x
  {
    var b := Or(g.bits, more);
    hide Or, Minus, Within, Matches, Clears, User, ToClear, Kept;
    forall w | w in g.waiting ensures Within(ClearOf(w, b), !x) {
      ZeroWithin(!x);
    }
    ToClearLeast(g.waiting, b, !x);
    Untouched(b, ToClear(g.waiting, b), x);
  }

  // ---------------------------------------------------------------- every run

  datatype Step =
    | DoSet(more: Bits)
    | DoClear(cleared: Bits)
    | DoWait(t: Task, waitFor: Bits, clear: bool, all: bool, mayBlock: bool)
    | DoSync(t: Task, more: Bits, waitFor: Bits, mayBlock: bool)
    | DoTimeOut(t: Task)
    | DoAfterTimeOut(waitFor: Bits, clear: bool, all: bool)

  /** The assertions at the head of the functions. */
  predicate Asserted(step: Step) {
    match step
    case DoSet(more) => UserOnly(more)
    case DoClear(cleared) => UserOnly(cleared)
    case DoWait(_, waitFor, _, _, _) => UserOnly(waitFor) && waitFor != 0
    case DoSync(_, more, waitFor, _) => UserOnly(more) && UserOnly(waitFor) && waitFor != 0
    case DoTimeOut(_) => true
    case DoAfterTimeOut(waitFor, _, _) => UserOnly(waitFor) && waitFor != 0
  }

  function Apply(g: GroupVal, step: Step): GroupVal {
    match step
    case DoSet(more) => SetBits(g, more)
    case DoClear(cleared) => ClearBits(g, cleared)
    case DoWait(t, waitFor, clear, all, mayBlock) => WaitBits(g, t, waitFor, clear, all, mayBlock).0
    case DoSync(t, more, waitFor, mayBlock) => Sync(g, t, more, waitFor, mayBlock).0
    case DoTimeOut(t) => TimeOut(g, t)
    case DoAfterTimeOut(waitFor, clear, all) => AfterTimeOut(g, waitFor, clear, all)
  }

  /** Nobody waits for what is already there. */
  predicate NobodySatisfied(g: GroupVal) {
    && UserOnly(g.bits)
    && forall w :: w in g.waiting ==> User(w.value) != 0 && !Matches(w.value, g.bits)
  }

  lemma UserIsSelf(b: Bits)
    requires UserOnly(b)
    ensures User(b) == b
  {
    assert b & 0xff00_0000 == 0 ==> b & !0xff00_0000 == b;
  }

  lemma ClearingKeeps(g: GroupVal, cleared: Bits)
    requires NobodySatisfied(g)
    ensures NobodySatisfied(ClearBits(g, cleared))
  {
    hide Minus, Meets, Within, User, Matches;
    MinusWithin(g.bits, cleared);
    UserOnlyFewer(g.bits, Minus(g.bits, cleared));
    forall w | w in g.waiting
      ensures !Matches(w.value, Minus(g.bits, cleared))
    {
      ClearingKeepsUnmatched(w.value, g.bits, cleared);
    }
  }

  lemma UserOnlyFewer(x: Bits, x': Bits)
    requires Within(x', x) && UserOnly(x)
    ensures UserOnly(x')
  {
  }

  lemma UserOnlyOr(x: Bits, y: Bits)
    requires UserOnly(x) && UserOnly(y)
    ensures UserOnly(Or(x, y))
  {
  }

  lemma SettingKeeps(g: GroupVal, more: Bits)
    requires NobodySatisfied(g) && UserOnly(more)
    ensures NobodySatisfied(SetBits(g, more))
  {
    hide Or, Minus, Meets, Within, User, Matches, ToClear;
    var b := Or(g.bits, more);
    UserOnlyOr(g.bits, more);
    KeptUnmatched(g.waiting, b);
    ClearingKeeps(GroupVal(b, Kept(g.waiting, b)), ToClear(g.waiting, b));
  }

  /** A task goes to sleep only for bits that are not there. */
  lemma SleepingKeeps(g: GroupVal, t: Task, waitFor: Bits, clear: bool, all: bool)
    requires NobodySatisfied(g) && UserOnly(waitFor) && waitFor != 0 && !TestWaitCondition(g.bits, waitFor, all)
    ensures NobodySatisfied(g.(waiting := g.waiting + [Waiter(t, Word(waitFor, clear, all))]))
  {
    hide Word, Matches, User, UserOnly, TestWaitCondition;
    WordRoundTrip(waitFor, clear, all);
  }

  /** After xEventGroupSync has set its bits, an unfinished rendezvous is still unfinished. */
  lemma SyncKeeps(g: GroupVal, t: Task, more: Bits, waitFor: Bits, mayBlock: bool)
    requires NobodySatisfied(g) && UserOnly(more) && UserOnly(waitFor) && waitFor != 0
    ensures NobodySatisfied(Sync(g, t, more, waitFor, mayBlock).0)
  {
    hide NobodySatisfied, Or, Within, Minus, UserOnly, ClearBits, Word;
    SettingKeeps(g, more);
    var g1 := SetBits(g, more);
    if Within(waitFor, Or(g.bits, more)) {
      ClearingKeeps(g1, waitFor);
    } else if mayBlock {
      var b := Or(g.bits, more);
      MinusWithin(b, ToClear(g.waiting, b));
      FewerBits(b, g1.bits, waitFor);
      SleepingKeeps(g1, t, waitFor, true, true);
    }
  }

  lemma StepKeeps(g: GroupVal, step: Step)
    requires NobodySatisfied(g) && Asserted(step)
    ensures NobodySatisfied(Apply(g, step))
  {
    hide Or, Within, Minus, Meets, UserOnly, User, Matches, SetBits, TestWaitCondition, Word, Sync, ClearBits;
    match step
    case DoSet(more) => SettingKeeps(g, more);
    case DoClear(cleared) => ClearingKeeps(g, cleared);
    case DoWait(t, waitFor, clear, all, mayBlock) =>
      if TestWaitCondition(g.bits, waitFor, all) {
        ClearingKeeps(g, waitFor);
      } else {
        SleepingKeeps(g, t, waitFor, clear, all);
      }
    case DoSync(t, more, waitFor, mayBlock) => SyncKeeps(g, t, more, waitFor, mayBlock);
    case DoTimeOut(_) =>
    case DoAfterTimeOut(waitFor, _, _) => ClearingKeeps(g, waitFor);
  }

  function RunOf(g: GroupVal, steps: seq<Step>): GroupVal
    decreases |steps|
  {
    if steps == [] then g else RunOf(Apply(g, steps[0]), steps[1..])
  }

  /** After every sequence of operations on a new group, no task on the list waits for bits
      that satisfy it. */
  lemma {:induction false} NobodyForgotten(g: GroupVal, steps: seq<Step>)
    requires NobodySatisfied(g) && forall i :: 0 <= i < |steps| ==> Asserted(steps[i])
    ensures NobodySatisfied(RunOf(g, steps))
    decreases |steps|
  {
    hide NobodySatisfied, Asserted, Apply;
    if steps != [] {
      StepKeeps(g, steps[0]);
      NobodyForgotten(Apply(g, steps[0]), steps[1..]);
    }
  }

  // ---------------------------------------------------------------- the group itself

  /** The tasks of `gone`, each with the value stored in its list item on release. */
  predicate Woken(woken: seq<Waiter>, gone: seq<Waiter>, bits: Bits) {
    && |woken| == |gone|
    && forall i :: 0 <= i < |woken| ==> woken[i] == Waiter(gone[i].task, ReleaseWord(bits))
  }

  /** The walk has passed k of the tasks that were on the list; the item it looks at next is at
      position i of what is left. */
  predicate Walked(was: seq<Waiter>, k: nat, bits: Bits, waiting: seq<Waiter>, i: nat, woken: seq<Waiter>, toClear: Bits) {
    && k <= |was| && i == |Kept(was[..k], bits)|
    && waiting == Kept(was[..k], bits) + was[k..]
    && Woken(woken, Released(was[..k], bits), bits)
    && toClear == ToClear(was[..k], bits)
  }

  lemma WalkStarts(was: seq<Waiter>, bits: Bits)
    ensures Walked(was, 0, bits, was, 0, [], 0)
  {
  }

  lemma WalkStep(was: seq<Waiter>, k: nat, bits: Bits, waiting: seq<Waiter>, i: nat, woken: seq<Waiter>, toClear: Bits)
    requires Walked(was, k, bits, waiting, i, woken, toClear) && i < |waiting|
    ensures k < |was|
    ensures var item := waiting[i];
            var toClear' := if Clears(item.value) then Or(toClear, User(item.value)) else toClear;
            if Matches(item.value, bits) then
              Walked(was, k + 1, bits, waiting[..i] + waiting[i + 1..], i, woken + [Waiter(item.task, ReleaseWord(bits))], toClear')
            else Walked(was, k + 1, bits, waiting, i + 1, woken, toClear)
  {
    hide Or, Matches, User, Clears, ReleaseWord, Released, Kept, ToClear;
    var kept := Kept(was[..k], bits);
    assert waiting[i] == was[k];
    NextWaiter(was, k, bits);
    assert was[k..] == [was[k]] + was[k + 1..];
    assert waiting[..i] == kept && waiting[i + 1..] == was[k + 1..];
  }

  lemma WalkEnds(was: seq<Waiter>, k: nat, bits: Bits, waiting: seq<Waiter>, i: nat, woken: seq<Waiter>, toClear: Bits)
    requires Walked(was, k, bits, waiting, i, woken, toClear) && i >= |waiting|
    ensures waiting == Kept(was, bits) && Woken(woken, Released(was, bits), bits) && toClear == ToClear(was, bits)
  {
    assert was[..k] == was;
  }

  class EventGroup {
    var bits: Bits
    var waiting: seq<Waiter>

    function Val(): GroupVal
      reads this
    {
      GroupVal(bits, waiting)
    }

    /** xEventGroupCreate */
    constructor ()
      ensures Val() == GroupVal(0, []) && NobodySatisfied(Val())
    {
      bits := 0;
      waiting := [];
    }

    /** xEventGroupSetBits: one walk over the list, from which matching items are removed as
        they are met; the bits to clear are collected and cleared at the end. */
    method SetGroupBits(more: Bits) returns (now: Bits, woken: seq<Waiter>)
      requires NobodySatisfied(Val()) && UserOnly(more)
      modifies this
      ensures NobodySatisfied(Val()) && Val() == SetBits(old(Val()), more) && now == bits
      ensures Woken(woken, Released(old(waiting), Or(old(bits), more)), Or(old(bits), more))
      ensures SetRule(old(Val()), Val(), old(bits) | more, woken)
    {
      OrMeans(bits, more);
      SettingKeeps(Val(), more);
      hide Or, Minus, Meets, Within, User, NobodySatisfied, Released, Kept, ToClear, Matches, Clears, ReleaseWord, Woken, Walked, SetRule;
      ghost var was, k := waiting, 0;
      bits := Or(bits, more);
      var toClear: Bits := 0;
      woken := [];
      var i := 0;
      WalkStarts(waiting, bits);
      while i < |waiting|
        invariant k <= |was| && Walked(was, k, bits, waiting, i, woken, toClear) && bits == Or(old(bits), more)
        decreases |was| - k
      {
        var item := waiting[i];
        WalkStep(was, k, bits, waiting, i, woken, toClear);
        if Matches(item.value, bits) {
          if Clears(item.value) {
            toClear := Or(toClear, User(item.value));
          }
          woken := woken + [Waiter(item.task, ReleaseWord(bits))];
          waiting := waiting[..i] + waiting[i + 1..];
        } else {
          i := i + 1;
        }
        k := k + 1;
      }
      WalkEnds(was, k, bits, waiting, i, woken, toClear);
      bits := Minus(bits, toClear);
      now := bits;
      SetMeans(old(Val()), more, woken);
    }

    /** xEventGroupClearBits */
    method ClearGroupBits(cleared: Bits) returns (before: Bits)
      requires NobodySatisfied(Val()) && UserOnly(cleared)
      modifies this
      ensures NobodySatisfied(Val()) && Val() == ClearBits(old(Val()), cleared) && before == old(bits)
      ensures bits == old(bits) & !cleared && waiting == old(waiting)
    {
      hide NobodySatisfied, Minus, UserOnly;
      MinusMeans(bits, cleared);
      ClearingKeeps(Val(), cleared);
      before := bits;
      bits := Minus(bits, cleared);
    }

    /** xEventGroupWaitBits up to the point where the task returns or sleeps. */
    method WaitGroupBits(t: Task, waitFor: Bits, clear: bool, all: bool, mayBlock: bool) returns (r: Outcome)
      requires NobodySatisfied(Val()) && UserOnly(waitFor) && waitFor != 0
      modifies this
      ensures NobodySatisfied(Val()) && (Val(), r) == WaitBits(old(Val()), t, waitFor, clear, all, mayBlock)
      ensures WaitRule(old(Val()), Val(), r, t, waitFor, clear, all, mayBlock)
    {
      WaitMeans(Val(), t, waitFor, clear, all, mayBlock);
      StepKeeps(Val(), DoWait(t, waitFor, clear, all, mayBlock));
      hide NobodySatisfied, Or, Minus, Meets, Within, UserOnly, TestWaitCondition, WaitRule;
      var current := bits;
      if TestWaitCondition(current, waitFor, all) {
        r := Returned(current);
        if clear {
          bits := Minus(bits, waitFor);
        }
      } else if !mayBlock {
        r := Returned(current);
      } else {
        var control: Bits := 0;
        if clear {
          control := Or(control, CLEAR_ON_EXIT);
        }
        if all {
          control := Or(control, WAIT_FOR_ALL);
        }
        ControlIs(clear, all, control);
        waiting := waiting + [Waiter(t, Or(Or(waitFor, control), IN_USE))];
        r := Waits;
      }
    }

    /** xEventGroupSync up to the point where the task returns or sleeps. */
    method SyncGroup(t: Task, more: Bits, waitFor: Bits, mayBlock: bool) returns (r: Outcome, woken: seq<Waiter>)
      requires NobodySatisfied(Val()) && UserOnly(more) && UserOnly(waitFor) && waitFor != 0
      modifies this
      ensures NobodySatisfied(Val()) && (Val(), r) == Sync(old(Val()), t, more, waitFor, mayBlock)
      ensures Woken(woken, Released(old(waiting), Or(old(bits), more)), Or(old(bits), more))
      ensures SetRule(old(Val()), SetBits(old(Val()), more), old(bits) | more, woken)
      ensures SyncRule(old(Val()), SetBits(old(Val()), more), Val(), r, t, more, waitFor, mayBlock)
    {
      hide NobodySatisfied, Or, Minus, Meets, Within, UserOnly, SetRule, SyncRule, SetBits, Woken, Released, Word, Condition;
      SyncMeans(Val(), t, more, waitFor, mayBlock);
      SyncKeeps(Val(), t, more, waitFor, mayBlock);
      var original := bits;
      var now;
      now, woken := SetGroupBits(more);
      WordIsPacked(waitFor);
      if Within(waitFor, Or(original, more)) {
        r := Returned(Or(original, more));
        bits := Minus(bits, waitFor);
      } else if mayBlock {
        waiting := waiting + [Waiter(t, Or(Or(waitFor, Or(CLEAR_ON_EXIT, WAIT_FOR_ALL)), IN_USE))];
        r := Waits;
      } else {
        r := Returned(bits);
      }
    }

    /** The part of xEventGroupWaitBits after the task has slept; xEventGroupSync does the same
        with clear and all.  value is what the task finds in its item: a task released by a set
        gets back the bits of that set, one that timed out the present ones. */
    method ReturnFromSleep(value: Bits, waitFor: Bits, clear: bool, all: bool) returns (ret: Bits)
      requires NobodySatisfied(Val())
      modifies this`bits
      ensures NobodySatisfied(Val())
      ensures forall b :: UserOnly(b) && value == ReleaseWord(b) ==> ret == b && Val() == old(Val())
      ensures !Meets(value, UNBLOCKED) ==>
                ret == old(bits) && Val() == AfterTimeOut(old(Val()), waitFor, clear, all)
      ensures value & UNBLOCKED == 0 ==>
        ret == old(bits) && bits == if Condition(old(bits), waitFor, all) && clear then old(bits) & !waitFor else old(bits)
    {
      TestMeans(bits, waitFor, all);
      ret := value;
      if !Meets(ret, UNBLOCKED) {
        ret := bits;
        if TestWaitCondition(ret, waitFor, all) && clear {
          ClearingKeeps(Val(), waitFor);
          bits := Minus(bits, waitFor);
        }
        UserIsSelf(ret);
      }
      forall b | UserOnly(b) ensures User(ReleaseWord(b)) == b && Meets(ReleaseWord(b), UNBLOCKED) {
        ReleaseWordRoundTrip(b);
      }
      hide Meets, Minus, Or, Within;
      ret := User(ret);
    }

    /** vEventGroupDelete: every waiting task is released, with no bits. */
    method Delete() returns (woken: seq<Waiter>)
      modifies this
      ensures waiting == [] && bits == old(bits) && |woken| == |old(waiting)|
      ensures forall i :: 0 <= i < |woken| ==> woken[i] == Waiter(old(waiting)[i].task, ReleaseWord(0))
    {
      hide Or;
      woken := [];
      while |waiting| > 0
        invariant |woken| + |waiting| == |old(waiting)| && waiting == old(waiting)[|woken|..] && bits == old(bits)
        invariant forall i :: 0 <= i < |woken| ==> woken[i] == Waiter(old(waiting)[i].task, ReleaseWord(0))
      {
        woken := woken + [Waiter(waiting[0].task, ReleaseWord(0))];
        waiting := waiting[1..];
      }
    }
  }

  // what one step of the walk adds to each of the three results
  lemma NextWaiter(ws: seq<Waiter>, k: nat, bits: Bits)
    requires k < |ws|
    ensures Matches(ws[k].value, bits) ==>
              && Released(ws[..k + 1], bits) == Released(ws[..k], bits) + [ws[k]]
              && Kept(ws[..k + 1], bits) == Kept(ws[..k], bits)
    ensures !Matches(ws[k].value, bits) ==>
              && Released(ws[..k + 1], bits) == Released(ws[..k], bits)
              && Kept(ws[..k + 1], bits) == Kept(ws[..k], bits) + [ws[k]]
    ensures ToClear(ws[..k + 1], bits)
         == if Matches(ws[k].value, bits) && Clears(ws[k].value) then Or(ToClear(ws[..k], bits), User(ws[k].value))
            else ToClear(ws[..k], bits)
  {
    hide Or, Matches, User, Clears;
    assert Front(ws[..k + 1]) == ws[..k] && Last(ws[..k + 1]) == ws[k];
    OrZero(ToClear(ws[..k], bits));
  }

  lemma OrZero(x: Bits)
    ensures Or(x, 0) == x
  {
  }

  lemma WordIsPacked(waitFor: Bits)
    ensures Word(waitFor, true, true) == Or(Or(waitFor, Or(CLEAR_ON_EXIT, WAIT_FOR_ALL)), IN_USE)
  {
  }

  lemma ControlIs(clear: bool, all: bool, control: Bits)
    requires control == Or(Or(0, if clear then CLEAR_ON_EXIT else 0), if all then WAIT_FOR_ALL else 0)
          || control == Or(if clear then CLEAR_ON_EXIT else 0, if all then WAIT_FOR_ALL else 0)
          || (!all && control == Or(0, if clear then CLEAR_ON_EXIT else 0))
          || (!clear && control == Or(0, if all then WAIT_FOR_ALL else 0))
          || (!clear && !all && control == 0)
    ensures control == Or(if clear then CLEAR_ON_EXIT else 0, if all then WAIT_FOR_ALL else 0)
  {
  }
}
