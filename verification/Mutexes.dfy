/**
 Mutexes and recursive mutexes (supports/rtos/queue.c): a queue of length 1 and item size 0
 whose head and tail pointers become a type tag and the holder, and whose read pointer becomes
 the recursive call count.

 The holder and the call count are read and changed outside critical sections by the recursive
 functions.  The machine below therefore makes every access to a shared field a step of its
 own and lets any other task act in between.
 */
module Mutexes {
  import opened Common

  // the call count is an unsigned 32-bit word
  const WORD: nat := 0x1_0000_0000

  function Inc(n: nat): nat {
    if n == WORD - 1 then 0 else n + 1
  }

  function Dec(n: nat): nat {
    if n == 0 then WORD - 1 else n - 1
  }

  /** uxMessagesWaiting, pxMutexHolder and uxRecursiveCallCount. */
  datatype MutexVal = MutexVal(count: nat, holder: Option<Task>, calls: nat)

  /** The critical section of xQueueSemaphoreTake on a mutex. */
  function Take(m: MutexVal, t: Task): MutexVal {
    if m.count > 0 then m.(count := m.count - 1, holder := Some(t)) else m
  }

  /** The critical section of xQueueGenericSend on a mutex: prvCopyDataToQueue clears the holder. */
  function Give(m: MutexVal): MutexVal {
    if m.count < 1 then m.(count := m.count + 1, holder := None) else m
  }

  // ---------------------------------------------------------------- interleaved calls

  datatype Pc =
    | Outside
    | TakeTest                         // xQueueTakeMutexRecursive is about to read the holder
    | TakeBump                         // ... found itself the holder: about to count one more call
    | TakeWait                         // ... is in the loop of xQueueSemaphoreTake
    | TakeFirst                        // ... got the mutex: about to count the first call
    | GiveTest                         // xQueueGiveMutexRecursive is about to read the holder
    | GiveDrop                         // ... found itself the holder: about to count one call less
    | GiveBack                         // ... counted down to 0: about to return the mutex

  /** held[t] is the number of recursive takes of t that have not been given back, plain[t] the
      number of its takes through xSemaphoreTake. */
  datatype Sys = Sys(m: MutexVal, pc: map<Task, Pc>, held: map<Task, nat>, plain: map<Task, nat>)

  /** Any task may use either interface on the same mutex. */
  datatype Step =
    | CallTake(t: Task)
    | CallGive(t: Task)
    | Advance(t: Task)                 // the next access of a recursive call
    | TimeOut(t: Task)                 // a waiting take gives up
    | PlainTake(t: Task)               // one attempt of xSemaphoreTake
    | PlainGive(t: Task)               // xSemaphoreGive
    | IsrGive                          // xQueueGiveFromISR

  predicate Known(s: Sys, t: Task) {
    t in s.pc && t in s.held && t in s.plain
  }

  predicate Enabled(s: Sys, step: Step) {
    match step
    case CallTake(t) => Known(s, t) && s.pc[t].Outside?
    case CallGive(t) => Known(s, t) && s.pc[t].Outside?
    case Advance(t) => Known(s, t) && !s.pc[t].Outside?
    case TimeOut(t) => Known(s, t) && s.pc[t].TakeWait?
    case PlainTake(t) => Known(s, t) && s.pc[t].Outside?
    // xTaskPriorityDisinherit asserts that a held mutex is given by its holder
    case PlainGive(t) => Known(s, t) && s.pc[t].Outside? && (s.m.holder == None || s.m.holder == Some(t))
    // xQueueGiveFromISR asserts that the mutex is not held
    case IsrGive => s.m.holder == None
  }

  // one outstanding take less, if there is one
  function Less(n: nat): nat {
    if n == 0 then 0 else n - 1
  }

  function Apply(s: Sys, step: Step): Sys
    requires Enabled(s, step)
  {
    match step
    case CallTake(t) => s.(pc := s.pc[t := TakeTest])
    case CallGive(t) => s.(pc := s.pc[t := GiveTest])
    case TimeOut(t) => s.(pc := s.pc[t := Outside])
    case PlainTake(t) =>
      s.(m := Take(s.m, t), plain := if s.m.count > 0 then s.plain[t := s.plain[t] + 1] else s.plain)
    case PlainGive(t) =>
      s.(m := Give(s.m), plain := if s.m.count < 1 then s.plain[t := Less(s.plain[t])] else s.plain)
    case IsrGive => s.(m := if s.m.count < 1 then s.m.(count := s.m.count + 1) else s.m)
    case Advance(t) =>
      match s.pc[t]
      case TakeTest => s.(pc := s.pc[t := if s.m.holder == Some(t) then TakeBump else TakeWait])
      case TakeBump =>
        s.(m := s.m.(calls := Inc(s.m.calls)), held := s.held[t := s.held[t] + 1], pc := s.pc[t := Outside])
      case TakeWait => s.(m := Take(s.m, t), pc := s.pc[t := if s.m.count > 0 then TakeFirst else TakeWait])
      case TakeFirst =>
        s.(m := s.m.(calls := Inc(s.m.calls)), held := s.held[t := s.held[t] + 1], pc := s.pc[t := Outside])
      case GiveTest => s.(pc := s.pc[t := if s.m.holder == Some(t) then GiveDrop else Outside])
      case GiveDrop =>
        s.(m := s.m.(calls := Dec(s.m.calls)), held := s.held[t := Less(s.held[t])],
           pc := s.pc[t := if Dec(s.m.calls) == 0 then GiveBack else Outside])
      case GiveBack => s.(m := Give(s.m), pc := s.pc[t := Outside])
  }

  // ---------------------------------------------------------------- the invariant

  // a task at one of these points has found itself to be the holder
  predicate Inside(pc: Pc) {
    pc.TakeBump? || pc.TakeFirst? || pc.GiveDrop? || pc.GiveBack?
  }

  /** Whoever has takes outstanding is the holder, and the call count is the number of its
      recursive ones.  A holder without any is on its way in or out. */
  predicate Inv(s: Sys) {
    && s.pc.Keys == s.held.Keys == s.plain.Keys
    && s.m.count <= 1 && (s.m.count == 1 <==> s.m.holder == None)
    && (s.m.holder == None ==> s.m.calls == 0)
    && (forall t :: t in s.pc && s.m.holder != Some(t) ==>
          s.held[t] == 0 && s.plain[t] == 0 && !Inside(s.pc[t]))
    && (s.m.holder.Some? ==>
          var h := s.m.holder.value;
          && h in s.pc && s.m.calls == s.held[h] < WORD && s.plain[h] <= 1 && !s.pc[h].TakeWait?
          && (s.held[h] + s.plain[h] == 0 <==> s.pc[h].TakeFirst? || s.pc[h].GiveBack?))
  }

  /** The accesses that go wrong when one task uses both interfaces on a mutex it holds, or when
      the call count overflows: a recursive give that would have to end a plain take, a plain
      give that ends recursive ones, and a take number 2^32. */
  predicate Breaks(s: Sys, step: Step)
    requires Enabled(s, step)
  {
    match step
    case Advance(t) =>
      || (s.pc[t].GiveDrop? && s.plain[t] > 0 && s.held[t] <= 1)
      || ((s.pc[t].TakeBump? || s.pc[t].TakeFirst?) && s.held[t] == WORD - 1)
    case PlainGive(t) => s.held[t] > 0
    case _ => false
  }

  lemma TestKeepsInv(s: Sys, t: Task)
    requires Inv(s) && Enabled(s, Advance(t)) && (s.pc[t].TakeTest? || s.pc[t].GiveTest?)
    ensures Inv(Apply(s, Advance(t))) <==> !Breaks(s, Advance(t))
  {
  }

  lemma CountKeepsInv(s: Sys, t: Task)
    requires Inv(s) && Enabled(s, Advance(t)) && (s.pc[t].TakeBump? || s.pc[t].TakeFirst?)
    ensures Inv(Apply(s, Advance(t))) <==> !Breaks(s, Advance(t))
  {
  }

  lemma WaitKeepsInv(s: Sys, t: Task)
    requires Inv(s) && Enabled(s, Advance(t)) && s.pc[t].TakeWait?
    ensures Inv(Apply(s, Advance(t))) <==> !Breaks(s, Advance(t))
  {
  }

  lemma DropKeepsInv(s: Sys, t: Task)
    requires Inv(s) && Enabled(s, Advance(t)) && s.pc[t].GiveDrop?
    ensures Inv(Apply(s, Advance(t))) <==> !Breaks(s, Advance(t))
  {
  }

  lemma BackKeepsInv(s: Sys, t: Task)
    requires Inv(s) && Enabled(s, Advance(t)) && s.pc[t].GiveBack?
    ensures Inv(Apply(s, Advance(t))) <==> !Breaks(s, Advance(t))
  {
  }

  lemma PlainTakeKeepsInv(s: Sys, t: Task)
    requires Inv(s) && Enabled(s, PlainTake(t))
    ensures Inv(Apply(s, PlainTake(t)))
  {
  }

  lemma PlainGiveKeepsInv(s: Sys, t: Task)
    requires Inv(s) && Enabled(s, PlainGive(t))
    ensures Inv(Apply(s, PlainGive(t))) <==> s.held[t] == 0
  {
  }

  lemma CallKeepsInv(s: Sys, step: Step)
    requires Inv(s) && Enabled(s, step) && !step.Advance? && !step.PlainTake? && !step.PlainGive?
    ensures Inv(Apply(s, step))
  {
  }

  /** Every access keeps the invariant if and only if it is none of those. */
  lemma StepKeepsInv(s: Sys, step: Step)
    requires Inv(s) && Enabled(s, step)
    ensures Inv(Apply(s, step)) <==> !Breaks(s, step)
  {
    hide Inv, Apply;
    match step
    case PlainTake(t) => PlainTakeKeepsInv(s, t);
    case PlainGive(t) => PlainGiveKeepsInv(s, t);
    case Advance(t) =>
      match s.pc[t] {
        case TakeTest => TestKeepsInv(s, t);
        case GiveTest => TestKeepsInv(s, t);
        case TakeWait => WaitKeepsInv(s, t);
        case GiveDrop => DropKeepsInv(s, t);
        case GiveBack => BackKeepsInv(s, t);
        case _ => CountKeepsInv(s, t);
      }
    case _ => CallKeepsInv(s, step);
  }

  /** prvInitialiseMutex: no holder, call count 0, and one send that makes the count 1. */
  predicate Initial(s: Sys) {
    && s.m == Give(MutexVal(0, None, 0)) && s.pc.Keys == s.held.Keys == s.plain.Keys
    && forall t :: t in s.pc ==> s.pc[t].Outside? && s.held[t] == 0 && s.plain[t] == 0
  }

  /** What a caller can see to before it calls: to give recursively only while the give does not
      have to end a plain take, to give plainly only when no recursive take is outstanding, and
      not to take 2^32 times. */
  predicate Careful(s: Sys, step: Step)
    requires Enabled(s, step)
  {
    match step
    case CallTake(t) => s.held[t] < WORD - 1
    case CallGive(t) => s.plain[t] == 0 || s.held[t] >= 2
    case PlainGive(t) => s.held[t] == 0
    case _ => true
  }

  // while a task is inside a call its own takes are what they were when it called
  predicate CarefulCall(pc: Pc, held: nat, plain: nat) {
    match pc
    case GiveTest => plain == 0 || held >= 2
    case GiveDrop => plain == 0 || held >= 2
    case GiveBack => true
    case Outside => true
    case _ => held < WORD - 1
  }

  predicate CallsCareful(s: Sys) {
    forall t :: t in s.pc && Known(s, t) ==> CarefulCall(s.pc[t], s.held[t], s.plain[t])
  }

  // a step changes nothing about any other task
  predicate Actor(step: Step, t: Task) {
    !step.IsrGive? && step.t == t
  }

  lemma OthersUnchanged(s: Sys, step: Step, u: Task)
    requires Enabled(s, step) && !Actor(step, u)
    ensures var s' := Apply(s, step);
            && (Known(s', u) <==> Known(s, u))
            && (Known(s, u) ==> s'.pc[u] == s.pc[u] && s'.held[u] == s.held[u] && s'.plain[u] == s.plain[u])
  {
  }

  lemma ActorStaysCareful(s: Sys, step: Step)
    requires Enabled(s, step) && Careful(s, step) && !step.IsrGive? && Known(s, step.t)
    requires CarefulCall(s.pc[step.t], s.held[step.t], s.plain[step.t])
    ensures !Breaks(s, step)
    ensures var s', t := Apply(s, step), step.t;
            Known(s', t) && CarefulCall(s'.pc[t], s'.held[t], s'.plain[t])
  {
  }

  lemma CallsStayCareful(s: Sys, step: Step)
    requires CallsCareful(s) && Enabled(s, step) && Careful(s, step)
    ensures CallsCareful(Apply(s, step)) && !Breaks(s, step)
  {
    hide Apply, CarefulCall, Careful;
    if !step.IsrGive? {
      ActorStaysCareful(s, step);
    }
    var s' := Apply(s, step);
    forall u | u in s'.pc && Known(s', u) ensures CarefulCall(s'.pc[u], s'.held[u], s'.plain[u]) {
      if !Actor(step, u) {
        OthersUnchanged(s, step, u);
      }
    }
  }

  lemma CarefulStep(s: Sys, step: Step)
    requires Inv(s) && CallsCareful(s) && Enabled(s, step) && Careful(s, step)
    ensures !Breaks(s, step) && Inv(Apply(s, step)) && CallsCareful(Apply(s, step))
  {
    hide Inv, CallsCareful, Careful, Breaks, Apply;
    StepKeepsInv(s, step);
    CallsStayCareful(s, step);
  }

  /** Any interleaving of calls of both interfaces by any tasks, in which nothing has gone wrong
      so far: no access was one of those that `Breaks` lists. */
  predicate Run(s: Sys, steps: seq<Step>, s': Sys)
    decreases |steps|
  {
    if steps == [] then s' == s
    else Enabled(s, steps[0]) && !Breaks(s, steps[0]) && Run(Apply(s, steps[0]), steps[1..], s')
  }

  lemma {:induction false} RunKeepsInv(s: Sys, steps: seq<Step>, s': Sys)
    requires Inv(s) && Run(s, steps, s')
    ensures Inv(s')
    decreases |steps|
  {
    hide Inv, Enabled, Apply, Breaks;
    if steps != [] {
      StepKeepsInv(s, steps[0]);
      RunKeepsInv(Apply(s, steps[0]), steps[1..], s');
    }
  }

  /** Any interleaving in which every caller is careful. */
  predicate CarefulRun(s: Sys, steps: seq<Step>, s': Sys)
    decreases |steps|
  {
    if steps == [] then s' == s
    else Enabled(s, steps[0]) && Careful(s, steps[0]) && CarefulRun(Apply(s, steps[0]), steps[1..], s')
  }

  /** If every caller is careful nothing goes wrong. */
  lemma {:induction false} CarefulRunIsRun(s: Sys, steps: seq<Step>, s': Sys)
    requires Inv(s) && CallsCareful(s) && CarefulRun(s, steps, s')
    ensures Run(s, steps, s')
    decreases |steps|
  {
    hide Inv, Enabled, Apply, Breaks, CallsCareful, Careful;
    if steps != [] {
      CarefulStep(s, steps[0]);
      CarefulRunIsRun(Apply(s, steps[0]), steps[1..], s');
    }
  }

  function Outstanding(s: Sys, t: Task): nat
    requires Known(s, t)
  {
    s.held[t] + s.plain[t]
  }

  /** In every interleaving of plain and recursive calls by careful tasks: the mutex is available
      exactly when nobody holds it; whoever has any take outstanding, of either kind, is the
      holder, so at most one task has; the holder's recursive takes are the call count; and
      outside a call of its own the holder has a take outstanding. */
  lemma MutualExclusion(s: Sys, steps: seq<Step>, s': Sys)
    requires Initial(s) && CarefulRun(s, steps, s')
    ensures s'.m.count == 1 <==> s'.m.holder == None
    ensures forall t: Task :: Known(s', t) && Outstanding(s', t) > 0 ==> s'.m.holder == Some(t)
    ensures forall t: Task, u: Task :: Known(s', t) && Known(s', u) && Outstanding(s', t) > 0 && Outstanding(s', u) > 0 ==> t == u
    ensures forall t: Task :: Known(s', t) && s'.m.holder == Some(t) ==>
              s'.m.calls == s'.held[t] && s'.plain[t] <= 1 && (s'.pc[t].Outside? ==> Outstanding(s', t) > 0)
  {
    hide Run, CarefulRun;
    CarefulRunIsRun(s, steps, s');
    RunKeepsInv(s, steps, s');
  }

  /** In every run in which nothing has gone wrong yet, when a recursive give is about to count
      down: the count underflows if and only if the only take outstanding is a plain one; the
      give goes on to release the mutex if and only if one recursive take is outstanding; and
      it then leaves a plain take outstanding if and only if there is one. */
  lemma ReleaseAtZero(s: Sys, steps: seq<Step>, s': Sys, t: Task)
    requires Initial(s) && Run(s, steps, s') && Enabled(s', Advance(t)) && s'.pc[t].GiveDrop?
    ensures Outstanding(s', t) > 0
    ensures s'.m.calls == 0 <==> s'.held[t] == 0 && s'.plain[t] == 1
    ensures Apply(s', Advance(t)).m.calls == (if s'.held[t] == 0 then WORD - 1 else s'.held[t] - 1)
    ensures Apply(s', Advance(t)).pc[t].GiveBack? <==> s'.held[t] == 1
    ensures Apply(s', Advance(t)).pc[t].GiveBack? && Outstanding(Apply(s', Advance(t)), t) > 0
       <==> s'.held[t] == 1 && s'.plain[t] == 1
  {
    hide Run;
    RunKeepsInv(s, steps, s');
  }

  /** In every such run, returning the mutex succeeds and leaves it available with call count 0. */
  lemma ReleaseSucceeds(s: Sys, steps: seq<Step>, s': Sys, t: Task)
    requires Initial(s) && Run(s, steps, s') && Enabled(s', Advance(t)) && s'.pc[t].GiveBack?
    ensures Apply(s', Advance(t)).m == MutexVal(1, None, 0)
  {
    hide Run;
    RunKeepsInv(s, steps, s');
  }

  /** In every such run, a plain give by a task without recursive takes outstanding leaves the
      mutex available and the task with nothing: it ends the plain take if the task holds the
      mutex, and changes nothing if nobody does. */
  lemma PlainGiveFrees(s: Sys, steps: seq<Step>, s': Sys, t: Task)
    requires Initial(s) && Run(s, steps, s') && Enabled(s', PlainGive(t)) && s'.held[t] == 0
    ensures var s2 := Apply(s', PlainGive(t));
            && s2.m == MutexVal(1, None, 0) && Known(s2, t) && Outstanding(s2, t) == 0 && s2.pc[t].Outside?
            && (s'.m.holder == None ==> s2 == s') && (s'.m.holder == Some(t) ==> s'.plain[t] == 1)
  {
    hide Run;
    RunKeepsInv(s, steps, s');
    assert s'.m.holder == None ==> Less(s'.plain[t]) == s'.plain[t];
  }

  /** In every such run, an attempt of either kind to take the mutex succeeds if and only if
      nobody holds it, and then its caller is the holder and nothing else is changed; a recursive
      take that found its caller to be the holder needs no attempt. */
  lemma TakeSucceeds(s: Sys, steps: seq<Step>, s': Sys, t: Task)
    requires Initial(s) && Run(s, steps, s') && Known(s', t)
    ensures s'.pc[t].TakeWait? ==>
              Apply(s', Advance(t)) ==
              if s'.m.holder == None then s'.(m := MutexVal(0, Some(t), 0), pc := s'.pc[t := TakeFirst]) else s'
    ensures s'.pc[t].Outside? ==>
              Apply(s', PlainTake(t)) ==
              if s'.m.holder == None then s'.(m := MutexVal(0, Some(t), 0), plain := s'.plain[t := 1]) else s'
    ensures s'.pc[t].TakeTest? ==>
              Apply(s', Advance(t)).pc[t] == if Outstanding(s', t) > 0 then TakeBump else TakeWait
    ensures s'.pc[t].GiveTest? ==>
              Apply(s', Advance(t)).pc[t] == if Outstanding(s', t) > 0 then GiveDrop else Outside
  {
    hide Run;
    RunKeepsInv(s, steps, s');
    assert s'.pc[t].TakeWait? ==> s'.pc[t := TakeWait] == s'.pc;
    assert s'.m == MutexVal(s'.m.count, s'.m.holder, s'.m.calls);
  }

  /** In every such run, a recursive take that has the mutex counts one take more and returns; one
      that waits in vain returns with nothing changed; and of a give only the access that drops
      the last recursive take goes on to return the mutex. */
  lemma CallsReturn(s: Sys, steps: seq<Step>, s': Sys, t: Task)
    requires Initial(s) && Run(s, steps, s') && Known(s', t)
    ensures s'.pc[t].TakeBump? || s'.pc[t].TakeFirst? ==>
              var s2 := Apply(s', Advance(t));
              && s'.m.holder == Some(t) && s2.m.holder == Some(t) && s2.m.calls == (s'.held[t] + 1) % WORD
              && s2.held == s'.held[t := s'.held[t] + 1] && s2.pc == s'.pc[t := Outside] && s2.plain == s'.plain
    ensures s'.pc[t].TakeWait? ==> Apply(s', TimeOut(t)) == s'.(pc := s'.pc[t := Outside])
    ensures s'.pc[t].GiveDrop? && s'.held[t] > 0 ==>
              var s2 := Apply(s', Advance(t));
              && s2.held == s'.held[t := s'.held[t] - 1] && s2.m.holder == Some(t) && s2.plain == s'.plain
              && s2.pc == s'.pc[t := if s'.held[t] == 1 then GiveBack else Outside]
    ensures s'.pc[t].GiveBack? ==> Apply(s', Advance(t)).pc == s'.pc[t := Outside]
  {
    hide Run;
    RunKeepsInv(s, steps, s');
  }

  // ---------------------------------------------------------------- what goes wrong

  // steps one after the other, whatever they do
  predicate Steps(s: Sys, steps: seq<Step>, s': Sys)
    decreases |steps|
  {
    if steps == [] then s' == s else Enabled(s, steps[0]) && Steps(Apply(s, steps[0]), steps[1..], s')
  }

  lemma StepsFirst(s: Sys, step: Step, rest: seq<Step>, s': Sys)
    requires Enabled(s, step) && Steps(Apply(s, step), rest, s')
    ensures Steps(s, [step] + rest, s')
  {
    assert ([step] + rest)[1..] == rest;
  }

  // a new mutex with two tasks
  function Fresh(): (s: Sys)
    ensures Initial(s)
  {
    Sys(MutexVal(1, None, 0), map[0 := Outside, 1 := Outside], map[0 := 0, 1 := 0], map[0 := 0, 1 := 0])
  }

  lemma TakesAgain(s: Sys, t: Task) returns (s': Sys)
    requires Known(s, t) && s.pc[t] == Outside && s.m.holder == Some(t)
    ensures Steps(s, [CallTake(t), Advance(t), Advance(t)], s')
    ensures s' == s.(m := s.m.(calls := Inc(s.m.calls)), held := s.held[t := s.held[t] + 1])
  {
    var a := Apply(s, CallTake(t));
    assert a == s.(pc := s.pc[t := TakeTest]);
    var b := Apply(a, Advance(t));
    assert b == s.(pc := s.pc[t := TakeBump]);
    s' := Apply(b, Advance(t));
    assert s.pc[t := Outside] == s.pc;
    assert s' == s.(m := s.m.(calls := Inc(s.m.calls)), held := s.held[t := s.held[t] + 1]);
    hide Apply;
    StepsFirst(b, Advance(t), [], s');
    StepsFirst(a, Advance(t), [Advance(t)], s');
    StepsFirst(s, CallTake(t), [Advance(t), Advance(t)], s');
  }

  lemma CountsDown(s: Sys, t: Task) returns (s': Sys)
    requires Known(s, t) && s.pc[t] == Outside && s.m.holder == Some(t)
    ensures Steps(s, [CallGive(t), Advance(t), Advance(t)], s')
    ensures s' == s.(m := s.m.(calls := Dec(s.m.calls)), held := s.held[t := Less(s.held[t])],
                     pc := s.pc[t := if Dec(s.m.calls) == 0 then GiveBack else Outside])
  {
    var a := Apply(s, CallGive(t));
    assert a == s.(pc := s.pc[t := GiveTest]);
    var b := Apply(a, Advance(t));
    assert b == s.(pc := s.pc[t := GiveDrop]);
    s' := Apply(b, Advance(t));
    var pc := if Dec(s.m.calls) == 0 then GiveBack else Outside;
    assert b.pc[t := pc] == s.pc[t := pc];
    assert s' == s.(m := s.m.(calls := Dec(s.m.calls)), held := s.held[t := Less(s.held[t])], pc := s.pc[t := pc]);
    hide Apply;
    StepsFirst(b, Advance(t), [], s');
    StepsFirst(a, Advance(t), [Advance(t)], s');
    StepsFirst(s, CallGive(t), [Advance(t), Advance(t)], s');
  }

  // task 0 has taken a new mutex through the plain interface
  lemma PlainlyTaken() returns (s: Sys)
    ensures Steps(Fresh(), [PlainTake(0)], s)
    ensures s == Fresh().(m := MutexVal(0, Some(0), 0), plain := map[0 := 1, 1 := 0])
  {
    s := Apply(Fresh(), PlainTake(0));
    assert s.plain == map[0 := 1, 1 := 0];
    StepsFirst(Fresh(), PlainTake(0), [], s);
  }

  // task 0 gives back and task 1 takes
  lemma HandedOver(s: Sys) returns (s4: Sys, s5: Sys)
    requires Known(s, 0) && Known(s, 1) && s.pc[0] == GiveBack && s.pc[1] == Outside && s.m == MutexVal(0, Some(0), 0)
    ensures Steps(s, [Advance(0)], s4) && s4.m == MutexVal(1, None, 0)
    ensures Steps(s4, [PlainTake(1)], s5) && s5.m.holder == Some(1)
    ensures s5.held == s.held && s5.plain == s.plain[1 := s.plain[1] + 1] && s5.pc.Keys == s.pc.Keys
  {
    s4 := Apply(s, Advance(0));
    s5 := Apply(s4, PlainTake(1));
    StepsFirst(s, Advance(0), [], s4);
    StepsFirst(s4, PlainTake(1), [], s5);
  }

  /** A plain take, a recursive take and a recursive give by task 0 release the mutex although
      the plain take is outstanding; task 1 can then take it too. */
  lemma TwoHolders() returns (s1: Sys, s2: Sys, s3: Sys, s4: Sys, s5: Sys)
    ensures Steps(Fresh(), [PlainTake(0)], s1)
    ensures Steps(s1, [CallTake(0), Advance(0), Advance(0)], s2)
    ensures Steps(s2, [CallGive(0), Advance(0), Advance(0)], s3)
    ensures Steps(s3, [Advance(0)], s4) && s4.m == MutexVal(1, None, 0)
    ensures Steps(s4, [PlainTake(1)], s5)
    ensures Known(s5, 0) && Known(s5, 1)
    ensures s5.m.holder == Some(1) && Outstanding(s5, 0) == 1 && Outstanding(s5, 1) == 1
  {
    hide Steps, Apply;
    s1 := PlainlyTaken();
    s2 := TakesAgain(s1, 0);
    s3 := CountsDown(s2, 0);
    s4, s5 := HandedOver(s3);
  }

  /** A plain take and a recursive give by task 0: the count wraps round, the give reports
      success and the mutex is not released. */
  lemma CountUnderflows() returns (s1: Sys, s2: Sys)
    ensures Steps(Fresh(), [PlainTake(0)], s1)
    ensures Steps(s1, [CallGive(0), Advance(0), Advance(0)], s2)
    ensures s2.m == MutexVal(0, Some(0), WORD - 1) && 0 in s2.pc && s2.pc[0] == Outside
  {
    hide Steps, Apply;
    s1 := PlainlyTaken();
    s2 := CountsDown(s1, 0);
  }

  // ---------------------------------------------------------------- the functions of the interface

  class Mutex {
    var count: nat
    var holder: Option<Task>
    var calls: nat

    function Val(): MutexVal
      reads this
    {
      MutexVal(count, holder, calls)
    }

    /** What MutualExclusion says of a mutex whose holder is in no call of its own. */
    predicate Valid()
      reads this
    {
      && count <= 1 && (count == 1 <==> holder == None)
      && (holder == None ==> calls == 0)
    }

    /** prvInitialiseMutex */
    constructor ()
      ensures Valid() && Val() == MutexVal(1, None, 0)
    {
      count := 0;
      holder := None;
      calls := 0;
      new;
      var given := GenericSend();
    }

    /** The critical section of xQueueSemaphoreTake: one attempt gets the mutex exactly when it
        is free, and never disturbs another holder. */
    method SemaphoreTake(t: Task) returns (ok: bool)
      requires Valid()
      modifies this
      ensures Valid() && Val() == Take(old(Val()), t)
      ensures ok <==> old(holder) == None
      ensures ok ==> holder == Some(t) && count == 0
      ensures !ok ==> holder == old(holder)
    {
      ok := count > 0;
      if ok {
        count := count - 1;
        holder := Some(t);
      }
    }

    /** The critical section of xQueueGenericSend: afterwards the mutex is free. */
    method GenericSend() returns (ok: bool)
      modifies this
      ensures Val() == Give(old(Val())) && ok == (old(count) < 1)
      ensures old(count <= 1 && (count == 1 <==> holder == None)) ==> count == 1 && holder == None
    {
      ok := count < 1;
      if ok {
        holder := None;
        count := count + 1;
      }
    }

    /** xQueueTakeMutexRecursive without a block time. */
    method TakeRecursive(t: Task) returns (ok: bool)
      requires Valid()
      modifies this
      ensures Valid()
      ensures ok == (old(holder) == None || old(holder) == Some(t))
      ensures ok ==> Val() == MutexVal(0, Some(t), Inc(old(calls)))
      ensures !ok ==> Val() == old(Val())
    {
      if holder == Some(t) {
        calls := Inc(calls);
        ok := true;
      } else {
        ok := SemaphoreTake(t);
        if ok {
          calls := Inc(calls);
        }
      }
    }

    /** xQueueGiveMutexRecursive: the holder of one recursive take releases the mutex; one that
        has none, because its take was a plain one, makes the count wrap round. */
    method GiveRecursive(t: Task) returns (ok: bool)
      requires Valid()
      modifies this
      ensures Valid() && ok == (old(holder) == Some(t))
      ensures ok ==> Val() == if old(calls) == 1 then MutexVal(1, None, 0) else old(Val()).(calls := Dec(old(calls)))
      ensures !ok ==> Val() == old(Val())
    {
      ok := holder == Some(t);
      if ok {
        calls := Dec(calls);
        if calls == 0 {
          var given := GenericSend();
        }
      }
    }
  }
}
