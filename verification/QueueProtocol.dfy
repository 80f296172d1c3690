/**
 The blocking protocol of supports/rtos/queue.c: how a task that finds a queue full or empty
 goes to sleep while interrupts keep posting and receiving, and why no wake-up is lost.

 A step is one critical section (or one call into the scheduler) of one task, or one whole
 FromISR function.  While a task has the scheduler suspended no other task takes a step, but
 interrupts do.  What the kernel contributes enters as choices of the step: whether a block
 time is left, whether it has expired, and where in priority order a task is queued.
 */
module QueueProtocol {
  import opened Common
  import opened Queues

  datatype Op = OpSend(x: Item, pos: Position) | OpReceive | OpPeek

  datatype After = Sleep | Retry | GiveUp

  /** Where a task is inside xQueueGenericSend, xQueueReceive, xQueueSemaphoreTake or xQueuePeek. */
  datatype Pc =
    | Idle
    | Try(op: Op)                      // about to run the critical section at the head of the loop
    | Suspend(op: Op)                  // could not proceed, has block time: vTaskSuspendAll is next
    | LockIt(op: Op)                   // prvLockQueue is next
    | CheckTime(op: Op)                // xTaskCheckForTimeOut is next
    | Test(op: Op)                     // prvIsQueueFull or prvIsQueueEmpty is next
    | Place(op: Op)                    // vTaskPlaceOnEventList is next
    | FreeTx(op: Op, after: After)     // first half of prvUnlockQueue is next
    | FreeRx(op: Op, after: After)     // second half of prvUnlockQueue is next
    | Resume(op: Op, after: After)     // xTaskResumeAll is next
    | Blocked(op: Op)
    | Recheck(op: Op)                  // timed out: prvIsQueueEmpty is next

  /** woken* are the tasks an event has taken off a list that have not yet tried again. */
  datatype Sys = Sys(q: QueueVal<Item>, pc: map<Task, Pc>, wokenRx: set<Task>, wokenTx: set<Task>, suspender: Option<Task>)

  datatype Step =
    | Call(t: Task, op: Op)
    | DoTry(t: Task, mayBlock: bool)
    | DoSuspend(t: Task)
    | DoLock(t: Task)
    | DoCheckTime(t: Task, expired: bool)
    | DoTest(t: Task)
    | DoPlace(t: Task, at: nat)
    | DoFreeTx(t: Task)
    | DoFreeRx(t: Task)
    | DoResume(t: Task)
    | DoRecheck(t: Task)
    | WakeUp(t: Task)                  // a task no longer on a list runs on
    | TimeOut(t: Task)                 // the tick takes a task off its list
    | IsrSend(x: Item, pos: Position)
    | IsrReceive
    | DoReset(t: Task)

  function SetOf(ts: seq<Task>): set<Task> {
    set t | t in ts
  }

  predicate Cannot(q: QueueVal<Item>, op: Op) {
    match op
    case OpSend(_, pos) => !HasRoom(q, pos)
    case _ => q.items == []
  }

  // prvIsQueueFull for a sender, prvIsQueueEmpty for a receiver
  predicate MustWait(q: QueueVal<Item>, op: Op) {
    if op.OpSend? then |q.items| == q.length else q.items == []
  }

  predicate Receiving(op: Op) {
    !op.OpSend?
  }

  /** The scheduler lets t run. */
  predicate Runs(s: Sys, t: Task) {
    t in s.pc && (s.suspender == None || s.suspender == Some(t))
  }

  predicate OverwriteOk(s: Sys, pos: Position) {
    pos == Overwrite ==> s.q.length == 1
  }

  predicate Enabled(s: Sys, step: Step) {
    match step
    case Call(t, op) => Runs(s, t) && s.pc[t].Idle? && (op.OpSend? ==> OverwriteOk(s, op.pos))
    case DoTry(t, _) => Runs(s, t) && s.pc[t].Try?
    case DoSuspend(t) => s.suspender == None && t in s.pc && s.pc[t].Suspend?
    case DoLock(t) => Runs(s, t) && s.pc[t].LockIt?
    case DoCheckTime(t, _) => Runs(s, t) && s.pc[t].CheckTime?
    case DoTest(t) => Runs(s, t) && s.pc[t].Test?
    case DoPlace(t, at) =>
      Runs(s, t) && s.pc[t].Place? && at <= |if Receiving(s.pc[t].op) then s.q.toReceive else s.q.toSend|
    case DoFreeTx(t) => Runs(s, t) && s.pc[t].FreeTx?
    case DoFreeRx(t) => Runs(s, t) && s.pc[t].FreeRx?
    case DoResume(t) => Runs(s, t) && s.pc[t].Resume?
    case DoRecheck(t) => Runs(s, t) && s.pc[t].Recheck?
    case WakeUp(t) =>
      s.suspender == None && t in s.pc && s.pc[t].Blocked? && t !in s.q.toReceive && t !in s.q.toSend
    case TimeOut(t) => true
    case IsrSend(_, pos) => OverwriteOk(s, pos)
    case IsrReceive => true
    case DoReset(t) => Runs(s, t) && s.pc[t].Idle?
  }

  function Without(ts: seq<Task>, t: Task): seq<Task> {
    if ts == [] then [] else if ts[0] == t then ts[1..] else [ts[0]] + Without(ts[1..], t)
  }

  function Goto(s: Sys, t: Task, pc: Pc): Sys {
    s.(pc := s.pc[t := pc])
  }

  // the critical section at the head of the loop
  function Attempt(s: Sys, t: Task, op: Op, mayBlock: bool): Sys {
    var s0 := s.(wokenRx := s.wokenRx - {t}, wokenTx := s.wokenTx - {t});
    if Cannot(s.q, op) then Goto(s0, t, if mayBlock then Suspend(op) else Idle)
    else
      match op
      case OpSend(x, pos) =>
        Goto(s0.(q := Send(s.q, x, pos), wokenRx := s0.wokenRx + SetOf(Head(s.q.toReceive))), t, Idle)
      case OpReceive =>
        Goto(s0.(q := Receive(s.q), wokenTx := s0.wokenTx + SetOf(Head(s.q.toSend))), t, Idle)
      case OpPeek =>
        Goto(s0.(q := Peek(s.q), wokenRx := s0.wokenRx + SetOf(Head(s.q.toReceive))), t, Idle)
  }

  function InsertTask(ts: seq<Task>, at: nat, t: Task): seq<Task>
    requires at <= |ts|
  {
    ts[..at] + [t] + ts[at..]
  }

  function Apply(s: Sys, step: Step): Sys
    requires Enabled(s, step)
  {
    match step
    case Call(t, op) => Goto(s, t, Try(op))
    case DoTry(t, mayBlock) => Attempt(s, t, s.pc[t].op, mayBlock)
    case DoSuspend(t) => Goto(s, t, LockIt(s.pc[t].op)).(suspender := Some(t))
    case DoLock(t) => Goto(s, t, CheckTime(s.pc[t].op)).(q := Lock(s.q))
    case DoCheckTime(t, expired) =>
      Goto(s, t, if expired then FreeTx(s.pc[t].op, GiveUp) else Test(s.pc[t].op))
    case DoTest(t) =>
      Goto(s, t, if MustWait(s.q, s.pc[t].op) then Place(s.pc[t].op) else FreeTx(s.pc[t].op, Retry))
    case DoPlace(t, at) =>
      var q := if Receiving(s.pc[t].op) then s.q.(toReceive := InsertTask(s.q.toReceive, at, t))
               else s.q.(toSend := InsertTask(s.q.toSend, at, t));
      Goto(s, t, FreeTx(s.pc[t].op, Sleep)).(q := q)
    case DoFreeTx(t) =>
      var n := Min(Pos(s.q.txLock), |s.q.toReceive|);
      Goto(s, t, FreeRx(s.pc[t].op, s.pc[t].after)).(
        q := UnlockTx(s.q), wokenRx := s.wokenRx + SetOf(s.q.toReceive[..n]))
    case DoFreeRx(t) =>
      var n := Min(Pos(s.q.rxLock), |s.q.toSend|);
      Goto(s, t, Pc.Resume(s.pc[t].op, s.pc[t].after)).(
        q := UnlockRx(s.q), wokenTx := s.wokenTx + SetOf(s.q.toSend[..n]))
    case DoResume(t) =>
      var op := s.pc[t].op;
      Goto(s, t, match s.pc[t].after
                 case Sleep => Blocked(op)
                 case Retry => Try(op)
                 case GiveUp => if op.OpSend? then Idle else Recheck(op)).(suspender := None)
    case DoRecheck(t) => Goto(s, t, if s.q.items == [] then Idle else Try(s.pc[t].op))
    case WakeUp(t) => Goto(s, t, Try(s.pc[t].op))
    case TimeOut(t) => s.(q := s.q.(toReceive := Without(s.q.toReceive, t), toSend := Without(s.q.toSend, t)))
    case IsrSend(x, pos) =>
      if !HasRoom(s.q, pos) then s
      else s.(q := SendFromISR(s.q, x, pos),
              wokenRx := if s.q.txLock == UNLOCKED then s.wokenRx + SetOf(Head(s.q.toReceive)) else s.wokenRx)
    case IsrReceive =>
      if s.q.items == [] then s
      else s.(q := ReceiveFromISR(s.q),
              wokenTx := if s.q.rxLock == UNLOCKED then s.wokenTx + SetOf(Head(s.q.toSend)) else s.wokenTx)
    case DoReset(t) => s.(q := Reset(s.q), wokenTx := s.wokenTx + SetOf(Head(s.q.toSend)))
  }

  // ---------------------------------------------------------------- the invariant

  predicate Asleep(pc: Pc) {
    pc.Blocked? || ((pc.FreeTx? || pc.FreeRx? || pc.Resume?) && pc.after == Sleep)
  }

  predicate InWindow(pc: Pc) {
    pc.LockIt? || pc.CheckTime? || pc.Test? || pc.Place? || pc.FreeTx? || pc.FreeRx? || pc.Resume?
  }

  /** The lock counters say where the task that suspended the scheduler is. */
  predicate LocksMatch(s: Sys) {
    && (forall t :: t in s.pc && InWindow(s.pc[t]) ==> s.suspender == Some(t))
    && match s.suspender
       case None => s.q.txLock == UNLOCKED && s.q.rxLock == UNLOCKED
       case Some(t) =>
         && t in s.pc && InWindow(s.pc[t])
         && (s.q.txLock == UNLOCKED <==> s.pc[t].LockIt? || s.pc[t].FreeRx? || s.pc[t].Resume?)
         && (s.q.rxLock == UNLOCKED <==> s.pc[t].LockIt? || s.pc[t].Resume?)
  }

  /** A task that waits, or was woken and has not tried again, is inside a blocking call. */
  predicate ListsMatch(s: Sys) {
    && Distinct(s.q.toReceive) && Distinct(s.q.toSend)
    && (forall t :: t in s.q.toReceive ==> t in s.pc && Asleep(s.pc[t]) && Receiving(s.pc[t].op) && t !in s.wokenRx)
    && (forall t :: t in s.q.toSend ==> t in s.pc && Asleep(s.pc[t]) && !Receiving(s.pc[t].op) && t !in s.wokenTx)
    && (forall t :: t in s.wokenRx ==> t in s.pc && (Asleep(s.pc[t]) || s.pc[t].Try?) && Receiving(s.pc[t].op))
    && (forall t :: t in s.wokenTx ==> t in s.pc && (Asleep(s.pc[t]) || s.pc[t].Try?) && !Receiving(s.pc[t].op))
  }

  predicate Sizes(s: Sys) {
    && 0 < s.q.length && |s.q.items| <= s.q.length
    && -1 <= s.q.txLock <= 127 && -1 <= s.q.rxLock <= 127
    && (forall t :: t in s.pc && s.pc[t] != Idle && s.pc[t].op.OpSend? ==> OverwriteOk(s, s.pc[t].op.pos))
  }

  predicate Core(s: Sys) {
    LocksMatch(s) && ListsMatch(s) && Sizes(s)
  }

  /** While a receiver waits, every item is covered by a receiver that was woken and has still
      to try, or by a post that the unlocking task still has to act on. */
  predicate ReceiversCovered(s: Sys) {
    && (s.q.toReceive != [] ==> |s.q.items| <= |s.wokenRx| + Pos(s.q.txLock))
    && (forall t :: t in s.pc && s.pc[t].Place? && Receiving(s.pc[t].op) ==> |s.q.items| <= Pos(s.q.txLock))
  }

  /** The mirror image: while a sender waits, every free slot is covered. */
  predicate SendersCovered(s: Sys) {
    && (s.q.toSend != [] ==> s.q.length - |s.q.items| <= |s.wokenTx| + Pos(s.q.rxLock))
    && (forall t :: t in s.pc && s.pc[t].Place? && !Receiving(s.pc[t].op) ==>
          s.q.length - |s.q.items| <= Pos(s.q.rxLock))
  }

  /** No more than 127 posts, and no more than 127 receipts, from interrupts while the queue is locked. */
  predicate WithinBudget(s: Sys, step: Step) {
    && (step.IsrSend? ==> s.q.txLock < 127)
    && (step.IsrReceive? ==> s.q.rxLock < 127)
  }

  // ---------------------------------------------------------------- counting woken tasks

  lemma LastOf(ts: seq<Task>)
    requires ts != [] && Distinct(ts)
    ensures var last, rest := ts[|ts| - 1], ts[..|ts| - 1];
            && Distinct(rest) && last !in rest && SetOf(ts) == SetOf(rest) + {last} && last !in SetOf(rest)
            && forall t :: t in rest ==> t in ts
  {
    var last, rest := ts[|ts| - 1], ts[..|ts| - 1];
    assert ts == rest + [last];
    assert SetOf(rest + [last]) == SetOf(rest) + {last};
  }

  lemma {:induction false} CountWoken(s: set<Task>, ts: seq<Task>)
    requires Distinct(ts) && forall t :: t in ts ==> t !in s
    ensures |s + SetOf(ts)| == |s| + |ts|
  {
    if ts == [] {
      assert s + SetOf(ts) == s;
    } else {
      hide Distinct, SetOf;
      var last, rest := ts[|ts| - 1], ts[..|ts| - 1];
      LastOf(ts);
      CountWoken(s, rest);
      OneMore(s + SetOf(rest), last);
      assert s + SetOf(ts) == (s + SetOf(rest)) + {last};
    }
  }

  lemma OneMore(s: set<Task>, t: Task)
    requires t !in s
    ensures |s + {t}| == |s| + 1
  {
  }

  lemma {:induction false} WithoutIsSublist(ts: seq<Task>, t: Task)
    requires Distinct(ts)
    ensures Distinct(Without(ts, t)) && t !in Without(ts, t)
    ensures forall u :: u in Without(ts, t) <==> u in ts && u != t
    ensures ts == [] ==> Without(ts, t) == []
  {
    if ts != [] && ts[0] != t {
      WithoutIsSublist(ts[1..], t);
      var w := Without(ts[1..], t);
      assert Without(ts, t) == [ts[0]] + w;
      assert ts[0] !in ts[1..];
    }
  }

  // ---------------------------------------------------------------- every step keeps the invariant

  // what a post from an interrupt does to items, receivers and lock
  lemma IsrSendEffect(s: Sys, x: Item, pos: Position)
    requires Enabled(s, IsrSend(x, pos)) && HasRoom(s.q, pos)
    ensures var s' := Apply(s, IsrSend(x, pos));
            && |s.q.items| <= |s'.q.items| <= |s.q.items| + 1 && s'.pc == s.pc && s'.suspender == s.suspender && s'.q.length == s.q.length
            && s'.wokenTx == s.wokenTx && s'.q.toSend == s.q.toSend && s'.q.rxLock == s.q.rxLock
            && if s.q.txLock == UNLOCKED then
                 && s'.q.txLock == UNLOCKED && s'.wokenRx == s.wokenRx + SetOf(Head(s.q.toReceive))
                 && s'.q.toReceive == s.q.toReceive[|Head(s.q.toReceive)|..]
               else
                 && s'.q.txLock == Increment8(s.q.txLock) && s'.wokenRx == s.wokenRx
                 && s'.q.toReceive == s.q.toReceive
  {
  }

  // what a receipt by an interrupt does to items, senders and lock
  lemma IsrReceiveEffect(s: Sys)
    requires s.q.items != []
    ensures var s' := Apply(s, IsrReceive);
            && |s'.q.items| == |s.q.items| - 1 && s'.pc == s.pc && s'.suspender == s.suspender && s'.q.length == s.q.length
            && s'.wokenRx == s.wokenRx && s'.q.toReceive == s.q.toReceive && s'.q.txLock == s.q.txLock
            && if s.q.rxLock == UNLOCKED then
                 && s'.q.rxLock == UNLOCKED && s'.wokenTx == s.wokenTx + SetOf(Head(s.q.toSend))
                 && s'.q.toSend == s.q.toSend[|Head(s.q.toSend)|..]
               else
                 && s'.q.rxLock == Increment8(s.q.rxLock) && s'.wokenTx == s.wokenTx && s'.q.toSend == s.q.toSend
  {
  }

  predicate InLockedWindow(step: Step) {
    step.DoLock? || step.DoCheckTime? || step.DoTest? || step.DoPlace? || step.DoFreeTx? || step.DoFreeRx?
  }

  lemma WindowKeepsLocks(s: Sys, step: Step)
    requires LocksMatch(s) && Enabled(s, step) && InLockedWindow(step)
    ensures LocksMatch(Apply(s, step))
  {
    hide SetOf, InsertTask;
  }

  lemma SuspendKeepsLocks(s: Sys, step: Step)
    requires LocksMatch(s) && Enabled(s, step) && (step.DoSuspend? || step.DoResume?)
    ensures LocksMatch(Apply(s, step))
  {
  }

  lemma TaskKeepsLocks(s: Sys, step: Step)
    requires LocksMatch(s) && Enabled(s, step) && !step.IsrSend? && !step.IsrReceive?
    requires !InLockedWindow(step) && !step.DoSuspend? && !step.DoResume?
    ensures LocksMatch(Apply(s, step))
  {
    hide SetOf, Without, Put;
    var s' := Apply(s, step);
    assert s'.suspender == s.suspender;
  }

  lemma IsrKeepsLocks(s: Sys, step: Step)
    requires LocksMatch(s) && Sizes(s) && Enabled(s, step) && (step.IsrSend? || step.IsrReceive?)
    ensures LocksMatch(Apply(s, step))
  {
    if step.IsrSend? && HasRoom(s.q, step.pos) {
      IsrSendEffect(s, step.x, step.pos);
      hide Apply;
    } else if step.IsrReceive? && s.q.items != [] {
      IsrReceiveEffect(s);
      hide Apply;
    }
  }

  lemma AttemptKeepsSizes(s: Sys, t: Task, mayBlock: bool)
    requires Sizes(s) && Enabled(s, DoTry(t, mayBlock))
    ensures Sizes(Apply(s, DoTry(t, mayBlock)))
  {
    var s' := Apply(s, DoTry(t, mayBlock));
    assert |s'.q.items| <= s.q.length && s'.q.length == s.q.length;
    assert s'.q.txLock == s.q.txLock && s'.q.rxLock == s.q.rxLock;
    assert s'.pc == s.pc[t := s'.pc[t]] && (s'.pc[t] == Idle || s'.pc[t].op == s.pc[t].op);
    hide Apply, Enabled;
  }

  lemma IsrKeepsSizes(s: Sys, step: Step)
    requires Sizes(s) && Enabled(s, step) && WithinBudget(s, step) && (step.IsrSend? || step.IsrReceive?)
    ensures Sizes(Apply(s, step))
  {
  }

  lemma RestKeepsSizes(s: Sys, step: Step)
    requires Sizes(s) && Enabled(s, step) && !step.DoTry? && !step.IsrSend? && !step.IsrReceive?
    ensures Sizes(Apply(s, step))
  {
    var s' := Apply(s, step);
    assert s'.q.items == s.q.items || s'.q.items == [];
    assert s'.q.length == s.q.length && (s'.q.txLock == s.q.txLock || -1 <= s'.q.txLock <= 0);
  }

  lemma StepKeepsSizes(s: Sys, step: Step)
    requires Sizes(s) && Enabled(s, step) && WithinBudget(s, step)
    ensures Sizes(Apply(s, step))
  {
    hide *;
    match step
    case DoTry(t, mayBlock) => AttemptKeepsSizes(s, t, mayBlock);
    case IsrSend(_, _) => IsrKeepsSizes(s, step);
    case IsrReceive => IsrKeepsSizes(s, step);
    case _ => RestKeepsSizes(s, step);
  }

  lemma FailedAttemptKeepsLists(s: Sys, t: Task, mayBlock: bool)
    requires ListsMatch(s) && Enabled(s, DoTry(t, mayBlock)) && Cannot(s.q, s.pc[t].op)
    ensures ListsMatch(Apply(s, DoTry(t, mayBlock)))
  {
  }

  lemma ReceiveKeepsLists(s: Sys, t: Task, mayBlock: bool)
    requires ListsMatch(s) && Enabled(s, DoTry(t, mayBlock)) && !Cannot(s.q, s.pc[t].op) && s.pc[t].op.OpReceive?
    ensures ListsMatch(Apply(s, DoTry(t, mayBlock)))
  {
  }

  lemma SendKeepsLists(s: Sys, t: Task, mayBlock: bool)
    requires ListsMatch(s) && Enabled(s, DoTry(t, mayBlock)) && !Cannot(s.q, s.pc[t].op) && s.pc[t].op.OpSend?
    ensures ListsMatch(Apply(s, DoTry(t, mayBlock)))
  {
    hide Put;
  }

  lemma PeekKeepsLists(s: Sys, t: Task, mayBlock: bool)
    requires ListsMatch(s) && Enabled(s, DoTry(t, mayBlock)) && !Cannot(s.q, s.pc[t].op) && s.pc[t].op.OpPeek?
    ensures ListsMatch(Apply(s, DoTry(t, mayBlock)))
  {
  }

  lemma AttemptKeepsLists(s: Sys, t: Task, mayBlock: bool)
    requires ListsMatch(s) && Enabled(s, DoTry(t, mayBlock))
    ensures ListsMatch(Apply(s, DoTry(t, mayBlock)))
  {
    hide ListsMatch, Apply, Cannot;
    if Cannot(s.q, s.pc[t].op) {
      FailedAttemptKeepsLists(s, t, mayBlock);
    } else if s.pc[t].op.OpSend? {
      SendKeepsLists(s, t, mayBlock);
    } else if s.pc[t].op.OpReceive? {
      ReceiveKeepsLists(s, t, mayBlock);
    } else {
      PeekKeepsLists(s, t, mayBlock);
    }
  }

  // a step that moves the task on and leaves lists and woken tasks alone
  lemma MoveKeepsLists(s: Sys, s': Sys, t: Task)
    requires ListsMatch(s) && t in s.pc && t in s'.pc && s'.pc == s.pc[t := s'.pc[t]]
    requires s'.q.toReceive == s.q.toReceive && s'.q.toSend == s.q.toSend
    requires s'.wokenRx == s.wokenRx && s'.wokenTx == s.wokenTx
    requires Asleep(s.pc[t]) ==> (Asleep(s'.pc[t]) || s'.pc[t].Try?) && s'.pc[t].op == s.pc[t].op
    requires s.pc[t].Try? ==> t !in s.wokenRx && t !in s.wokenTx
    requires Asleep(s.pc[t]) && s'.pc[t].Try? ==> t !in s.q.toReceive && t !in s.q.toSend
    ensures ListsMatch(s')
  {
    hide Distinct;
  }

  lemma WindowKeepsLists(s: Sys, step: Step)
    requires ListsMatch(s) && Enabled(s, step)
    requires step.DoSuspend? || step.DoLock? || step.DoCheckTime? || step.DoTest? || step.DoResume?
    ensures ListsMatch(Apply(s, step))
  {
    hide ListsMatch;
    MoveKeepsLists(s, Apply(s, step), step.t);
  }

  lemma InsertTaskDistinct(ts: seq<Task>, at: nat, t: Task)
    requires Distinct(ts) && t !in ts && at <= |ts|
    ensures Distinct(InsertTask(ts, at, t)) && forall u :: u in InsertTask(ts, at, t) <==> u in ts || u == t
  {
    var r := InsertTask(ts, at, t);
    assert r[at] == t;
    assert forall i :: 0 <= i < |r| && i != at ==> r[i] == ts[if i < at then i else i - 1];
    assert forall u :: u in ts ==> u in ts[..at] || u in ts[at..];
  }

  lemma PlaceKeepsLists(s: Sys, t: Task, at: nat)
    requires ListsMatch(s) && Enabled(s, DoPlace(t, at))
    ensures ListsMatch(Apply(s, DoPlace(t, at)))
  {
    hide Distinct, InsertTask;
    if Receiving(s.pc[t].op) {
      InsertTaskDistinct(s.q.toReceive, at, t);
    } else {
      InsertTaskDistinct(s.q.toSend, at, t);
    }
  }

  lemma FreeTxKeepsLists(s: Sys, t: Task)
    requires ListsMatch(s) && Enabled(s, DoFreeTx(t))
    ensures ListsMatch(Apply(s, DoFreeTx(t)))
  {
  }

  lemma FreeRxKeepsLists(s: Sys, t: Task)
    requires ListsMatch(s) && Enabled(s, DoFreeRx(t))
    ensures ListsMatch(Apply(s, DoFreeRx(t)))
  {
  }

  lemma OtherKeepsLists(s: Sys, step: Step)
    requires ListsMatch(s) && Enabled(s, step) && (step.Call? || step.DoRecheck? || step.WakeUp?)
    ensures ListsMatch(Apply(s, step))
  {
    hide ListsMatch;
    MoveKeepsLists(s, Apply(s, step), step.t);
  }

  lemma ResetKeepsLists(s: Sys, t: Task)
    requires ListsMatch(s) && Enabled(s, DoReset(t))
    ensures ListsMatch(Apply(s, DoReset(t)))
  {
  }

  lemma TimeOutKeepsLists(s: Sys, t: Task)
    requires ListsMatch(s)
    ensures ListsMatch(Apply(s, TimeOut(t)))
  {
    WithoutIsSublist(s.q.toReceive, t);
    WithoutIsSublist(s.q.toSend, t);
  }

  lemma IsrSendKeepsLists(s: Sys, x: Item, pos: Position)
    requires ListsMatch(s) && Enabled(s, IsrSend(x, pos))
    ensures ListsMatch(Apply(s, IsrSend(x, pos)))
  {
    if HasRoom(s.q, pos) {
      IsrSendEffect(s, x, pos);
      hide Apply;
    }
  }

  lemma IsrReceiveKeepsLists(s: Sys)
    requires ListsMatch(s)
    ensures ListsMatch(Apply(s, IsrReceive))
  {
    if s.q.items != [] {
      IsrReceiveEffect(s);
      hide Apply;
    }
  }

  lemma StepKeepsLists(s: Sys, step: Step)
    requires ListsMatch(s) && Enabled(s, step)
    ensures ListsMatch(Apply(s, step))
  {
    hide *;
    match step
    case DoTry(t, mayBlock) => AttemptKeepsLists(s, t, mayBlock);
    case DoSuspend(_) => WindowKeepsLists(s, step);
    case DoResume(_) => WindowKeepsLists(s, step);
    case DoLock(_) => WindowKeepsLists(s, step);
    case DoCheckTime(_, _) => WindowKeepsLists(s, step);
    case DoTest(_) => WindowKeepsLists(s, step);
    case DoPlace(t, at) => PlaceKeepsLists(s, t, at);
    case DoFreeTx(t) => FreeTxKeepsLists(s, t);
    case DoFreeRx(t) => FreeRxKeepsLists(s, t);
    case TimeOut(t) => TimeOutKeepsLists(s, t);
    case IsrSend(x, pos) => IsrSendKeepsLists(s, x, pos);
    case IsrReceive => IsrReceiveKeepsLists(s);
    case DoReset(t) => ResetKeepsLists(s, t);
    case _ => OtherKeepsLists(s, step);
  }

  lemma StepKeepsCore(s: Sys, step: Step)
    requires Core(s) && Enabled(s, step) && WithinBudget(s, step)
    ensures Core(Apply(s, step))
  {
    hide Enabled, WithinBudget, Apply, LocksMatch, ListsMatch, Sizes;
    if step.IsrSend? || step.IsrReceive? {
      IsrKeepsLocks(s, step);
    } else if InLockedWindow(step) {
      WindowKeepsLocks(s, step);
    } else if step.DoSuspend? || step.DoResume? {
      SuspendKeepsLocks(s, step);
    } else {
      TaskKeepsLocks(s, step);
    }
    StepKeepsSizes(s, step);
    StepKeepsLists(s, step);
  }

  // ---------------------------------------------------------------- every step keeps the tasks covered

  lemma WokenHead(ts: seq<Task>, woken: set<Task>)
    requires Distinct(ts) && forall t :: t in ts ==> t !in woken
    ensures |woken + SetOf(Head(ts))| == |woken| + |Head(ts)|
  {
    CountWoken(woken, Head(ts));
  }

  /** Nobody else is about to go to sleep while a task outside the window runs. */
  lemma NobodyPlaces(s: Sys, t: Task)
    requires Core(s) && Runs(s, t) && !InWindow(s.pc[t])
    ensures s.suspender == None && forall u :: u in s.pc ==> !s.pc[u].Place?
  {
  }

  // what an attempt does to the number of items and to the woken receivers and senders
  lemma AttemptEffect(s: Sys, t: Task, mayBlock: bool, s': Sys)
    requires Core(s) && Enabled(s, DoTry(t, mayBlock)) && s' == Apply(s, DoTry(t, mayBlock))
    ensures s'.q.txLock == s.q.txLock && s'.q.rxLock == s.q.rxLock && s'.q.length == s.q.length
    ensures forall u :: u in s'.pc ==> !s'.pc[u].Place?
    ensures Cannot(s.q, s.pc[t].op) ==> s'.q == s.q
    ensures var op := s.pc[t].op;
            !Cannot(s.q, op) ==>
              if op.OpReceive? then
                && |s'.q.items| == |s.q.items| - 1
                && s'.wokenTx == s.wokenTx + SetOf(Head(s.q.toSend)) && s'.wokenRx == s.wokenRx - {t}
                && s'.q.toSend == s.q.toSend[|Head(s.q.toSend)|..] && s'.q.toReceive == s.q.toReceive
              else
                && |s'.q.items| <= |s.q.items| + (if op.OpPeek? then 0 else 1)
                && (op.OpPeek? ==> s'.q.items == s.q.items)
                && (op.OpSend? ==> |s'.q.items| == s.q.length || |s'.q.items| == |s.q.items| + 1)
                && s'.wokenRx == s.wokenRx - (if op.OpPeek? then {t} else {}) + SetOf(Head(s.q.toReceive))
                && s'.wokenTx == s.wokenTx - (if op.OpSend? then {t} else {})
                && s'.q.toReceive == s.q.toReceive[|Head(s.q.toReceive)|..] && s'.q.toSend == s.q.toSend
  {
    NobodyPlaces(s, t);
    assert s.pc[t].op.OpSend? ==> t !in s.wokenRx;
    assert !s.pc[t].op.OpSend? ==> t !in s.wokenTx;
  }

  lemma AttemptKeepsReceivers(s: Sys, t: Task, mayBlock: bool)
    requires Core(s) && ReceiversCovered(s) && Enabled(s, DoTry(t, mayBlock))
    ensures ReceiversCovered(Apply(s, DoTry(t, mayBlock)))
  {
    var op := s.pc[t].op;
    AttemptEffect(s, t, mayBlock, Apply(s, DoTry(t, mayBlock)));
    WokenHead(s.q.toReceive, s.wokenRx);
    WokenHead(s.q.toReceive, s.wokenRx - {t});
    assert Cannot(s.q, op) && Receiving(op) ==> s.q.items == [];
    assert Cannot(s.q, op) && !Receiving(op) ==> t !in s.wokenRx;
    hide Apply;
  }

  lemma AttemptKeepsSenders(s: Sys, t: Task, mayBlock: bool)
    requires Core(s) && SendersCovered(s) && Enabled(s, DoTry(t, mayBlock))
    ensures SendersCovered(Apply(s, DoTry(t, mayBlock)))
  {
    var op := s.pc[t].op;
    AttemptEffect(s, t, mayBlock, Apply(s, DoTry(t, mayBlock)));
    WokenHead(s.q.toSend, s.wokenTx);
    assert Cannot(s.q, op) && !Receiving(op) ==> |s.q.items| == s.q.length;
    assert Cannot(s.q, op) && Receiving(op) ==> t !in s.wokenTx;
    hide Apply;
  }

  lemma FreeTxEffect(s: Sys, t: Task)
    requires t in s.pc && s.pc[t].FreeTx? && s.suspender == Some(t)
    ensures Enabled(s, DoFreeTx(t))
    ensures var n := Min(Pos(s.q.txLock), |s.q.toReceive|);
            Apply(s, DoFreeTx(t)) ==
              s.(q := s.q.(toReceive := s.q.toReceive[n..], txLock := UNLOCKED),
                 wokenRx := s.wokenRx + SetOf(s.q.toReceive[..n]),
                 pc := s.pc[t := FreeRx(s.pc[t].op, s.pc[t].after)])
  {
  }

  lemma FreeRxEffect(s: Sys, t: Task)
    requires t in s.pc && s.pc[t].FreeRx? && s.suspender == Some(t)
    ensures Enabled(s, DoFreeRx(t))
    ensures var n := Min(Pos(s.q.rxLock), |s.q.toSend|);
            Apply(s, DoFreeRx(t)) ==
              s.(q := s.q.(toSend := s.q.toSend[n..], rxLock := UNLOCKED),
                 wokenTx := s.wokenTx + SetOf(s.q.toSend[..n]),
                 pc := s.pc[t := Pc.Resume(s.pc[t].op, s.pc[t].after)])
  {
  }

  // the unlocking task is the only one in the window
  lemma Unlocking(s: Sys, t: Task)
    requires Core(s) && t in s.pc && (s.pc[t].FreeTx? || s.pc[t].FreeRx?)
    ensures s.suspender == Some(t) && forall u :: u in s.pc ==> !s.pc[u].Place?
    ensures Distinct(s.q.toReceive) && Distinct(s.q.toSend)
    ensures forall u :: u in s.q.toReceive ==> u !in s.wokenRx
    ensures forall u :: u in s.q.toSend ==> u !in s.wokenTx
  {
  }

  lemma PrefixDistinct(ts: seq<Task>, n: nat)
    requires n <= |ts| && Distinct(ts)
    ensures Distinct(ts[..n]) && forall u :: u in ts[..n] ==> u in ts
  {
  }

  lemma FreeKeepsReceivers(s: Sys, t: Task)
    requires Core(s) && ReceiversCovered(s) && Enabled(s, DoFreeTx(t))
    ensures ReceiversCovered(Apply(s, DoFreeTx(t)))
  {
    hide Core, Distinct, SetOf;
    Unlocking(s, t);
    FreeTxEffect(s, t);
    hide Apply;
    var n := Min(Pos(s.q.txLock), |s.q.toReceive|);
    PrefixDistinct(s.q.toReceive, n);
    CountWoken(s.wokenRx, s.q.toReceive[..n]);
  }

  lemma FreeKeepsSenders(s: Sys, t: Task)
    requires Core(s) && SendersCovered(s) && Enabled(s, DoFreeRx(t))
    ensures SendersCovered(Apply(s, DoFreeRx(t)))
  {
    hide Core, Distinct, SetOf;
    Unlocking(s, t);
    FreeRxEffect(s, t);
    hide Apply;
    var n := Min(Pos(s.q.rxLock), |s.q.toSend|);
    PrefixDistinct(s.q.toSend, n);
    CountWoken(s.wokenTx, s.q.toSend[..n]);
  }

  // what is needed of Core for the two lemmas on interrupts below
  lemma WhoWaits(s: Sys)
    requires Core(s)
    ensures Distinct(s.q.toReceive) && Distinct(s.q.toSend)
    ensures forall t :: t in s.q.toReceive ==> t !in s.wokenRx
    ensures forall t :: t in s.q.toSend ==> t !in s.wokenTx
    ensures -1 <= s.q.txLock <= 127 && -1 <= s.q.rxLock <= 127
    ensures s.q.txLock == UNLOCKED || s.q.rxLock == UNLOCKED ==> forall t :: t in s.pc ==> !s.pc[t].Place?
  {
  }

  // a receiver is woken for the new item, or the post is counted
  lemma CoveredAfterPost(s: Sys, s': Sys)
    requires ReceiversCovered(s) && s'.pc == s.pc && |s'.q.items| <= |s.q.items| + 1
    requires s.q.txLock == UNLOCKED ==>
      && s'.q.txLock == UNLOCKED && |s'.wokenRx| == |s.wokenRx| + |Head(s.q.toReceive)|
      && s'.q.toReceive == s.q.toReceive[|Head(s.q.toReceive)|..] && forall t :: t in s.pc ==> !s.pc[t].Place?
    requires s.q.txLock != UNLOCKED ==>
      0 <= s.q.txLock && s'.q.txLock == s.q.txLock + 1 && s'.wokenRx == s.wokenRx && s'.q.toReceive == s.q.toReceive
    ensures ReceiversCovered(s')
  {
  }

  lemma IsrSendKeepsReceivers(s: Sys, x: Item, pos: Position)
    requires Core(s) && Enabled(s, IsrSend(x, pos)) && WithinBudget(s, IsrSend(x, pos)) && ReceiversCovered(s)
    ensures ReceiversCovered(Apply(s, IsrSend(x, pos)))
  {
    hide SetOf, Distinct, Core, ReceiversCovered;
    WhoWaits(s);
    WokenHead(s.q.toReceive, s.wokenRx);
    if HasRoom(s.q, pos) {
      IsrSendEffect(s, x, pos);
      var s' := Apply(s, IsrSend(x, pos));
      hide Apply, Enabled;
      CoveredAfterPost(s, s');
    }
  }

  lemma IsrSendKeepsSenders(s: Sys, x: Item, pos: Position)
    requires Core(s) && Enabled(s, IsrSend(x, pos)) && WithinBudget(s, IsrSend(x, pos)) && SendersCovered(s)
    ensures SendersCovered(Apply(s, IsrSend(x, pos)))
  {
    hide SetOf, Distinct;
    if HasRoom(s.q, pos) {
      IsrSendEffect(s, x, pos);
      hide Apply;
    }
  }

  lemma IsrReceiveKeepsReceivers(s: Sys)
    requires Core(s) && WithinBudget(s, IsrReceive) && ReceiversCovered(s)
    ensures ReceiversCovered(Apply(s, IsrReceive))
  {
    hide SetOf, Core;
    if s.q.items != [] {
      IsrReceiveEffect(s);
      hide Apply;
    }
  }

  lemma CoveredAfterReceipt(s: Sys, s': Sys)
    requires SendersCovered(s) && s'.pc == s.pc && |s'.q.items| == |s.q.items| - 1 && s'.q.length == s.q.length
    requires s.q.rxLock == UNLOCKED ==>
      && s'.q.rxLock == UNLOCKED && |s'.wokenTx| == |s.wokenTx| + |Head(s.q.toSend)|
      && s'.q.toSend == s.q.toSend[|Head(s.q.toSend)|..] && forall t :: t in s.pc ==> !s.pc[t].Place?
    requires s.q.rxLock != UNLOCKED ==>
      0 <= s.q.rxLock && s'.q.rxLock == s.q.rxLock + 1 && s'.wokenTx == s.wokenTx && s'.q.toSend == s.q.toSend
    ensures SendersCovered(s')
  {
  }

  lemma IsrReceiveKeepsSenders(s: Sys)
    requires Core(s) && WithinBudget(s, IsrReceive) && SendersCovered(s)
    ensures SendersCovered(Apply(s, IsrReceive))
  {
    hide SetOf, Distinct, Core, SendersCovered;
    WhoWaits(s);
    WokenHead(s.q.toSend, s.wokenTx);
    if s.q.items != [] {
      IsrReceiveEffect(s);
      var s' := Apply(s, IsrReceive);
      hide Apply;
      CoveredAfterReceipt(s, s');
    }
  }

  // a step that takes nobody to the list and nothing from the items
  lemma RestKeepsReceivers(s: Sys, step: Step)
    requires Core(s) && ReceiversCovered(s) && Enabled(s, step)
    requires !step.DoTry? && !step.DoFreeTx? && !step.IsrSend? && !step.IsrReceive? && !step.TimeOut? && !step.DoReset?
    ensures ReceiversCovered(Apply(s, step))
  {
    hide Distinct, SetOf;
  }

  lemma ListKeepsReceivers(s: Sys, step: Step)
    requires Core(s) && ReceiversCovered(s) && Enabled(s, step) && (step.TimeOut? || step.DoReset?)
    ensures ReceiversCovered(Apply(s, step))
  {
    if step.TimeOut? {
      WithoutIsSublist(s.q.toReceive, step.t);
    } else {
      NobodyPlaces(s, step.t);
    }
    hide Distinct, SetOf, Core;
  }

  lemma RestKeepsSenders(s: Sys, step: Step)
    requires Core(s) && SendersCovered(s) && Enabled(s, step)
    requires !step.DoTry? && !step.DoFreeRx? && !step.IsrSend? && !step.IsrReceive? && !step.TimeOut? && !step.DoReset?
    ensures SendersCovered(Apply(s, step))
  {
    hide Distinct, SetOf;
  }

  lemma TimeOutKeepsSenders(s: Sys, t: Task)
    requires Core(s) && SendersCovered(s)
    ensures SendersCovered(Apply(s, TimeOut(t)))
  {
    WithoutIsSublist(s.q.toSend, t);
    hide Distinct, SetOf, Core;
  }

  lemma StepKeepsReceivers(s: Sys, step: Step)
    requires Core(s) && ReceiversCovered(s) && Enabled(s, step) && WithinBudget(s, step)
    ensures ReceiversCovered(Apply(s, step))
  {
    hide *;
    match step
    case DoTry(t, mayBlock) => AttemptKeepsReceivers(s, t, mayBlock);
    case DoFreeTx(t) => FreeKeepsReceivers(s, t);
    case IsrSend(x, pos) => IsrSendKeepsReceivers(s, x, pos);
    case IsrReceive => IsrReceiveKeepsReceivers(s);
    case TimeOut(_) => ListKeepsReceivers(s, step);
    case DoReset(_) => ListKeepsReceivers(s, step);
    case _ => RestKeepsReceivers(s, step);
  }

  lemma StepKeepsSenders(s: Sys, step: Step)
    requires Core(s) && SendersCovered(s) && Enabled(s, step) && WithinBudget(s, step) && !step.DoReset?
    ensures SendersCovered(Apply(s, step))
  {
    hide *;
    match step
    case DoTry(t, mayBlock) => AttemptKeepsSenders(s, t, mayBlock);
    case DoFreeRx(t) => FreeKeepsSenders(s, t);
    case IsrSend(x, pos) => IsrSendKeepsSenders(s, x, pos);
    case IsrReceive => IsrReceiveKeepsSenders(s);
    case TimeOut(t) => TimeOutKeepsSenders(s, t);
    case _ => RestKeepsSenders(s, step);
  }

  // ---------------------------------------------------------------- every run

  /** A new queue, or a counting semaphore with any initial count, with nobody inside a call. */
  predicate Initial(s: Sys) {
    && s.q.length > 0 && |s.q.items| <= s.q.length
    && s.q == QueueVal(s.q.items, s.q.length, UNLOCKED, UNLOCKED, [], [])
    && (forall t :: t in s.pc ==> s.pc[t].Idle?)
    && s.wokenRx == {} && s.wokenTx == {} && s.suspender == None
  }

  predicate Run(s: Sys, steps: seq<Step>, s': Sys)
    decreases |steps|
  {
    if steps == [] then s' == s
    else Enabled(s, steps[0]) && WithinBudget(s, steps[0]) && Run(Apply(s, steps[0]), steps[1..], s')
  }

  lemma {:induction false} RunKeepsReceivers(s: Sys, steps: seq<Step>, s': Sys)
    requires Core(s) && ReceiversCovered(s) && Run(s, steps, s')
    ensures Core(s') && ReceiversCovered(s')
    decreases |steps|
  {
    hide Core, ReceiversCovered, Enabled, WithinBudget, Apply;
    if steps != [] {
      StepKeepsCore(s, steps[0]);
      StepKeepsReceivers(s, steps[0]);
      RunKeepsReceivers(Apply(s, steps[0]), steps[1..], s');
    }
  }

  lemma {:induction false} RunKeepsSenders(s: Sys, steps: seq<Step>, s': Sys)
    requires Core(s) && SendersCovered(s) && Run(s, steps, s')
    requires forall i :: 0 <= i < |steps| ==> !steps[i].DoReset?
    ensures Core(s') && SendersCovered(s')
    decreases |steps|
  {
    hide Core, SendersCovered, Enabled, WithinBudget, Apply;
    if steps != [] {
      StepKeepsCore(s, steps[0]);
      StepKeepsSenders(s, steps[0]);
      RunKeepsSenders(Apply(s, steps[0]), steps[1..], s');
    }
  }

  /** No wake-up is lost: in every run, while a receiver is on the list there are never more
      items than woken receivers still to try plus posts still to be acted on; and when all is
      quiet, a waiting receiver means an empty queue. */
  lemma NoLostReceiver(s: Sys, steps: seq<Step>, s': Sys)
    requires Initial(s) && Run(s, steps, s')
    ensures s'.q.toReceive != [] ==> |s'.q.items| <= |s'.wokenRx| + Pos(s'.q.txLock)
    ensures s'.suspender == None && s'.wokenRx == {} && s'.q.toReceive != [] ==> s'.q.items == []
  {
    RunKeepsReceivers(s, steps, s');
  }

  /** The mirror claim for senders, in runs without a reset. */
  lemma NoLostSender(s: Sys, steps: seq<Step>, s': Sys)
    requires Initial(s) && Run(s, steps, s')
    requires forall i :: 0 <= i < |steps| ==> !steps[i].DoReset?
    ensures s'.q.toSend != [] ==> s'.q.length - |s'.q.items| <= |s'.wokenTx| + Pos(s'.q.rxLock)
    ensures s'.suspender == None && s'.wokenTx == {} && s'.q.toSend != [] ==> |s'.q.items| == s'.q.length
  {
    RunKeepsSenders(s, steps, s');
  }

  /** Why the mirror claim excludes a reset: it wakes one sender and frees every slot, so it
      leaves the senders covered exactly when at most one waits or the queue is that short. */
  lemma ResetAndSenders(s: Sys, t: Task)
    requires Core(s) && SendersCovered(s) && Enabled(s, DoReset(t))
    ensures SendersCovered(Apply(s, DoReset(t)))
       <==> |s.q.toSend| <= 1 || s.q.length <= |s.wokenTx| + 1
  {
    NobodyPlaces(s, t);
    WokenHead(s.q.toSend, s.wokenTx);
  }

  // ---------------------------------------------------------------- runs that show the limits

  lemma RunFirst(s: Sys, step: Step, rest: seq<Step>, s': Sys)
    requires Enabled(s, step) && WithinBudget(s, step) && Run(Apply(s, step), rest, s')
    ensures Run(s, [step] + rest, s')
  {
    hide Enabled, WithinBudget, Apply;
    assert ([step] + rest)[1..] == rest;
  }

  lemma {:induction false} RunThen(s: Sys, a: seq<Step>, m: Sys, b: seq<Step>, s': Sys)
    requires Run(s, a, m) && Run(m, b, s')
    ensures Run(s, a + b, s')
    decreases |a|
  {
    hide Enabled, WithinBudget, Apply;
    if a == [] {
      assert a + b == b;
    } else {
      RunThen(Apply(s, a[0]), a[1..], m, b, s');
      RunFirst(s, a[0], a[1..] + b, s');
      assert [a[0]] + (a[1..] + b) == a + b;
    }
  }

  // nobody is inside a call that has suspended the scheduler, and t is in none at all
  predicate CanCall(s: Sys, t: Task, op: Op) {
    && s.suspender == None && t in s.pc && s.pc[t].Idle? && t !in s.wokenRx && t !in s.wokenTx
    && s.q.txLock == UNLOCKED && s.q.rxLock == UNLOCKED && Cannot(s.q, op) && MustWait(s.q, op)
    && (op.OpSend? ==> op.pos != Overwrite)
  }

  // t has found that it must wait and is on its list, last, with the queue locked
  function Queued(s: Sys, t: Task, op: Op): Sys {
    var q := s.q.(txLock := 0, rxLock := 0);
    s.(q := if Receiving(op) then q.(toReceive := s.q.toReceive + [t]) else q.(toSend := s.q.toSend + [t]),
       pc := s.pc[t := FreeTx(op, Sleep)], suspender := Some(t))
  }

  // ... and with the queue unlocked again and the scheduler resumed
  function Slept(s: Sys, t: Task, op: Op): Sys {
    s.(q := if Receiving(op) then s.q.(toReceive := s.q.toReceive + [t]) else s.q.(toSend := s.q.toSend + [t]),
       pc := s.pc[t := Blocked(op)])
  }

  function ToSleep(s: Sys, t: Task, op: Op): seq<Step> {
    [Call(t, op)] + ([DoTry(t, true)] + ([DoSuspend(t)] + ([DoLock(t)] + ([DoCheckTime(t, false)] + ([DoTest(t)]
    + ([DoPlace(t, if Receiving(op) then |s.q.toReceive| else |s.q.toSend|)] + []))))))
  }

  // what is left of the way after the scheduler is suspended
  lemma LastSteps(s: Sys, t: Task, op: Op, s4: Sys)
    requires CanCall(s, t, op)
    requires s4 == s.(q := s.q.(txLock := 0, rxLock := 0), pc := s.pc[t := CheckTime(op)], suspender := Some(t))
    ensures Run(s4, [DoCheckTime(t, false)] + ([DoTest(t)]
      + ([DoPlace(t, if Receiving(op) then |s.q.toReceive| else |s.q.toSend|)] + [])), Queued(s, t, op))
  {
    var at := if Receiving(op) then |s.q.toReceive| else |s.q.toSend|;
    var s5 := Apply(s4, DoCheckTime(t, false));
    assert s5 == s4.(pc := s.pc[t := Test(op)]);
    var s6 := Apply(s5, DoTest(t));
    assert s6 == s4.(pc := s.pc[t := Place(op)]);
    var s7 := Apply(s6, DoPlace(t, at));
    assert InsertTask(s.q.toReceive, |s.q.toReceive|, t) == s.q.toReceive + [t];
    assert InsertTask(s.q.toSend, |s.q.toSend|, t) == s.q.toSend + [t];
    assert s7 == Queued(s, t, op);
    hide Apply;
    RunFirst(s6, DoPlace(t, at), [], s7);
    RunFirst(s5, DoTest(t), [DoPlace(t, at)] + [], s7);
    RunFirst(s4, DoCheckTime(t, false), [DoTest(t)] + ([DoPlace(t, at)] + []), s7);
  }

  lemma GoesToSleep(s: Sys, t: Task, op: Op)
    requires CanCall(s, t, op)
    ensures Run(s, ToSleep(s, t, op), Queued(s, t, op))
  {
    var s1 := Apply(s, Call(t, op));
    assert s1 == s.(pc := s.pc[t := Try(op)]);
    var s2 := Apply(s1, DoTry(t, true));
    assert s.wokenRx - {t} == s.wokenRx && s.wokenTx - {t} == s.wokenTx;
    assert s2 == s.(pc := s.pc[t := Suspend(op)]);
    var s3 := Apply(s2, DoSuspend(t));
    assert s3 == s.(pc := s.pc[t := LockIt(op)], suspender := Some(t));
    var s4 := Apply(s3, DoLock(t));
    assert s4 == s.(q := s.q.(txLock := 0, rxLock := 0), pc := s.pc[t := CheckTime(op)], suspender := Some(t));
    LastSteps(s, t, op, s4);
    hide Apply, Queued;
    var rest := [DoCheckTime(t, false)] + ([DoTest(t)]
      + ([DoPlace(t, if Receiving(op) then |s.q.toReceive| else |s.q.toSend|)] + []));
    RunFirst(s3, DoLock(t), rest, Queued(s, t, op));
    RunFirst(s2, DoSuspend(t), [DoLock(t)] + rest, Queued(s, t, op));
    RunFirst(s1, DoTry(t, true), [DoSuspend(t)] + ([DoLock(t)] + rest), Queued(s, t, op));
    RunFirst(s, Call(t, op), [DoTry(t, true)] + ([DoSuspend(t)] + ([DoLock(t)] + rest)), Queued(s, t, op));
  }

  lemma Settles(s: Sys, t: Task, op: Op)
    requires t in s.pc && s.q.txLock == UNLOCKED && s.q.rxLock == UNLOCKED && s.suspender == None
    ensures Run(Queued(s, t, op), [DoFreeTx(t)] + ([DoFreeRx(t)] + ([DoResume(t)] + [])), Slept(s, t, op))
  {
    var s0 := Queued(s, t, op);
    FreeTxEffect(s0, t);
    var s1 := Apply(s0, DoFreeTx(t));
    assert s0.wokenRx + SetOf(s0.q.toReceive[..0]) == s0.wokenRx;
    assert s1 == s0.(q := s0.q.(txLock := UNLOCKED), pc := s.pc[t := FreeRx(op, Sleep)]);
    var s2 := Apply(s1, DoFreeRx(t));
    assert s1.wokenTx + SetOf(s1.q.toSend[..0]) == s1.wokenTx;
    assert s2 == s1.(q := s1.q.(rxLock := UNLOCKED), pc := s.pc[t := Pc.Resume(op, Sleep)]);
    var s3 := Apply(s2, DoResume(t));
    assert s3 == Slept(s, t, op);
    hide Apply;
    RunFirst(s2, DoResume(t), [], s3);
    RunFirst(s1, DoFreeRx(t), [DoResume(t)] + [], s3);
    RunFirst(s0, DoFreeTx(t), [DoFreeRx(t)] + ([DoResume(t)] + []), s3);
  }

  lemma FallsAsleep(s: Sys, t: Task, op: Op)
    requires CanCall(s, t, op)
    ensures Run(s, ToSleep(s, t, op) + ([DoFreeTx(t)] + ([DoFreeRx(t)] + ([DoResume(t)] + []))), Slept(s, t, op))
  {
    hide ToSleep, Run, Queued, Slept;
    GoesToSleep(s, t, op);
    Settles(s, t, op);
    RunThen(s, ToSleep(s, t, op), Queued(s, t, op), [DoFreeTx(t)] + ([DoFreeRx(t)] + ([DoResume(t)] + [])), Slept(s, t, op));
  }

  /** What a caller can check: a reset is safe when at most one sender waits or the queue has
      length 1, and if nobody is on the way it is safe only then. */
  lemma SafeResets(s: Sys, t: Task)
    requires Core(s) && SendersCovered(s) && Enabled(s, DoReset(t))
    ensures |s.q.toSend| <= 1 || s.q.length == 1 ==> SendersCovered(Apply(s, DoReset(t)))
    ensures s.wokenTx == {} ==>
      (SendersCovered(Apply(s, DoReset(t))) <==> |s.q.toSend| <= 1 || s.q.length == 1)
  {
    hide Apply;
    ResetAndSenders(s, t);
  }

  /** A reset of a full queue on which two senders wait: the one that is woken sends its item,
      and the other keeps waiting on a queue that is not full, with nobody to wake it. */
  lemma ResetLosesSender(s: Sys, t: Task, u: Task, v: Task, x: Item, y: Item) returns (steps: seq<Step>, s': Sys)
    requires Initial(s) && |s.q.items| == s.q.length >= 2
    requires t in s.pc && u in s.pc && v in s.pc && t != u && t != v && u != v
    ensures Run(s, steps, s') && s'.suspender == None && s'.wokenTx == {}
    ensures s'.q.toSend == [v] && |s'.q.items| == 1 < s'.q.length
  {
    var a, b := OpSend(x, SendToBack), OpSend(y, SendToBack);
    FallsAsleep(s, u, a);
    var s1 := Slept(s, u, a);
    FallsAsleep(s1, v, b);
    var s2 := Slept(s1, v, b);
    assert s2.q == s.q.(toSend := [u, v]);
    var s5 := AfterReset(s2, t, u, v, a);
    steps := ToSleep(s, u, a) + ([DoFreeTx(u)] + ([DoFreeRx(u)] + ([DoResume(u)] + [])));
    var more := ToSleep(s1, v, b) + ([DoFreeTx(v)] + ([DoFreeRx(v)] + ([DoResume(v)] + [])));
    hide Run, ToSleep, Slept;
    RunThen(s, steps, s1, more, s2);
    RunThen(s, steps + more, s2, [DoReset(t)] + ([WakeUp(u)] + ([DoTry(u, true)] + [])), s5);
    steps, s' := steps + more + ([DoReset(t)] + ([WakeUp(u)] + ([DoTry(u, true)] + []))), s5;
  }

  lemma AfterReset(s: Sys, t: Task, u: Task, v: Task, op: Op) returns (s': Sys)
    requires s.suspender == None && s.q.txLock == UNLOCKED && s.q.rxLock == UNLOCKED && s.q.length >= 2
    requires s.q.toSend == [u, v] && s.q.toReceive == [] && u != v && u != t && s.wokenTx == {} && s.wokenRx == {}
    requires t in s.pc && s.pc[t].Idle? && u in s.pc && s.pc[u] == Blocked(op) && op.OpSend? && op.pos == SendToBack
    ensures Run(s, [DoReset(t)] + ([WakeUp(u)] + ([DoTry(u, true)] + [])), s')
    ensures s'.q.toSend == [v] && |s'.q.items| == 1 && s'.wokenTx == {} && s'.suspender == None
    ensures s'.q.length == s.q.length
  {
    var s1 := Apply(s, DoReset(t));
    assert Head(s.q.toSend) == [u] && SetOf([u]) == {u} && s.wokenTx + {u} == {u};
    assert s1 == s.(q := s.q.(items := [], toSend := [v]), wokenTx := {u});
    var s2 := Apply(s1, WakeUp(u));
    assert s2 == s1.(pc := s.pc[u := Try(op)]);
    s' := Apply(s2, DoTry(u, true));
    assert s'.q.items == [op.x];
    hide Apply;
    RunFirst(s2, DoTry(u, true), [], s');
    RunFirst(s1, WakeUp(u), [DoTry(u, true)] + [], s');
    RunFirst(s, DoReset(t), [WakeUp(u)] + ([DoTry(u, true)] + []), s');
  }

  /** The posts of interrupts, one after the other, within the budget or not. */
  function Posts(s: Sys, xs: seq<Item>): Sys {
    if xs == [] then s else Apply(Posts(s, xs[..|xs| - 1]), IsrSend(xs[|xs| - 1], SendToBack))
  }

  /** The 8-bit lock counter after k posts.  It passes 127, and after 255 posts it has the value
      that means unlocked: from then on posts wake receivers again. */
  function LockAfter(k: nat): int {
    if k <= 127 then k else if k <= 255 then k - 256 else UNLOCKED
  }

  // how many receivers the k posts of a locked window wake by themselves ...
  function WakenAtOnce(k: nat): nat {
    if k <= 255 then 0 else k - 255
  }

  /** ... and together with the unlocking, if so many wait. */
  function Wakes(k: nat): nat {
    if k <= 127 then k else WakenAtOnce(k)
  }

  // the state after k posts, of which the first ones woke n receivers
  function Posted(s: Sys, xs: seq<Item>): Sys {
    var n := Min(WakenAtOnce(|xs|), |s.q.toReceive|);
    s.(q := s.q.(items := s.q.items + xs, txLock := LockAfter(|xs|), toReceive := s.q.toReceive[n..]),
       wokenRx := s.wokenRx + SetOf(s.q.toReceive[..n]))
  }

  lemma OnePost(s: Sys, x: Item)
    requires |s.q.items| < s.q.length
    ensures Apply(s, IsrSend(x, SendToBack)) ==
      if s.q.txLock == UNLOCKED then
        s.(q := s.q.(items := s.q.items + [x], toReceive := s.q.toReceive[|Head(s.q.toReceive)|..]),
           wokenRx := s.wokenRx + SetOf(Head(s.q.toReceive)))
      else s.(q := s.q.(items := s.q.items + [x], txLock := Increment8(s.q.txLock)))
  {
  }

  // while the counter counts
  lemma PostedCounted(s: Sys, xs: seq<Item>, x: Item)
    requires |s.q.items| + |xs| < s.q.length && |xs| < 255
    ensures Apply(Posted(s, xs), IsrSend(x, SendToBack)) == Posted(s, xs + [x])
  {
    OnePost(Posted(s, xs), x);
    hide Apply, SetOf;
    assert s.q.items + xs + [x] == s.q.items + (xs + [x]);
    assert LockAfter(|xs|) != UNLOCKED && LockAfter(|xs| + 1) == Increment8(LockAfter(|xs|));
  }

  // once it reads as unlocked
  lemma PostedAtOnce(s: Sys, xs: seq<Item>, x: Item)
    requires |s.q.items| + |xs| < s.q.length && |xs| >= 255
    ensures Apply(Posted(s, xs), IsrSend(x, SendToBack)) == Posted(s, xs + [x])
  {
    hide Apply, SetOf;
    var ts := s.q.toReceive;
    var n := Min(WakenAtOnce(|xs|), |ts|);
    var m := |Head(ts[n..])|;
    OnePost(Posted(s, xs), x);
    assert Head(ts[n..]) == ts[n..][..m] && n + m == Min(WakenAtOnce(|xs| + 1), |ts|);
    WokenInTwoGoes(ts, n, m);
    SetsInOrder(s.wokenRx, SetOf(ts[..n]), SetOf(ts[n..][..m]));
    assert (s.q.items + xs) + [x] == s.q.items + (xs + [x]);
  }

  lemma SetsInOrder(a: set<Task>, b: set<Task>, c: set<Task>)
    ensures (a + b) + c == a + (b + c)
  {
  }

  lemma {:induction false} PostsEffect(s: Sys, xs: seq<Item>)
    requires s.q.txLock == 0 && |s.q.items| + |xs| <= s.q.length
    ensures Posts(s, xs) == Posted(s, xs)
  {
    if xs == [] {
      assert s.q.items + xs == s.q.items && s.q.toReceive[0..] == s.q.toReceive;
      assert s.wokenRx + SetOf(s.q.toReceive[..0]) == s.wokenRx;
    } else {
      hide Apply, Posted;
      var most, last := xs[..|xs| - 1], xs[|xs| - 1];
      PostsEffect(s, most);
      if |most| < 255 {
        PostedCounted(s, most, last);
      } else {
        PostedAtOnce(s, most, last);
      }
      assert most + [last] == xs;
    }
  }

  // the first n and then the next m leave the list for the set of woken tasks
  lemma WokenInTwoGoes(ts: seq<Task>, n: nat, m: nat)
    requires n + m <= |ts|
    ensures ts[n..][m..] == ts[n + m..]
    ensures SetOf(ts[..n]) + SetOf(ts[n..][..m]) == SetOf(ts[..n + m])
  {
    assert ts[..n] + ts[n..][..m] == ts[..n + m];
    assert SetOf(ts[..n] + ts[n..][..m]) == SetOf(ts[..n]) + SetOf(ts[n..][..m]);
  }

  lemma WindowEffect(s: Sys, t: Task, xs: seq<Item>)
    requires t in s.pc && s.pc[t].FreeTx? && s.suspender == Some(t)
    requires s.q.txLock == 0 && s.wokenRx == {} && |s.q.items| + |xs| <= s.q.length
    ensures Enabled(Posts(s, xs), DoFreeTx(t))
    ensures var s' := Apply(Posts(s, xs), DoFreeTx(t));
            var n := Min(Wakes(|xs|), |s.q.toReceive|);
            && s'.q.toReceive == s.q.toReceive[n..] && s'.wokenRx == SetOf(s.q.toReceive[..n])
            && s'.q.items == s.q.items + xs && s'.q.txLock == UNLOCKED
            && s'.pc == s.pc[t := FreeRx(s.pc[t].op, s.pc[t].after)]
  {
    hide Posts, Apply, SetOf, Wakes, WakenAtOnce, LockAfter, Enabled;
    PostsEffect(s, xs);
    var ts, s1 := s.q.toReceive, Posts(s, xs);
    var n := Min(WakenAtOnce(|xs|), |ts|);
    assert s1.wokenRx == SetOf(ts[..n]) && s1.pc == s.pc && s1.suspender == Some(t);
    hide Posted;
    FreeTxEffect(s1, t);
    var m := Min(Pos(s1.q.txLock), |s1.q.toReceive|);
    WokenInTwoGoes(ts, n, m);
    WokenInAll(|xs|, |ts|);
  }

  lemma WokenInAll(k: nat, waiting: nat)
    ensures var n := Min(WakenAtOnce(k), waiting);
            n + Min(Pos(LockAfter(k)), waiting - n) == Min(Wakes(k), waiting)
  {
  }

  /** What the lock budget guards against, for any number of posts in one locked window that
      begins with nobody on the way: once the queue is unlocked the receivers are covered if and
      only if there were no more than 127 posts, or no more receivers wait than are woken. */
  lemma PostsInWindow(s: Sys, t: Task, xs: seq<Item>)
    requires Core(s) && ReceiversCovered(s) && t in s.pc && s.pc[t].FreeTx?
    requires s.q.txLock == 0 && s.wokenRx == {} && |s.q.items| + |xs| <= s.q.length
    ensures Enabled(Posts(s, xs), DoFreeTx(t))
    ensures ReceiversCovered(Apply(Posts(s, xs), DoFreeTx(t))) <==> |xs| <= 127 || |s.q.toReceive| <= Wakes(|xs|)
  {
    hide Apply, Posts;
    WindowEffect(s, t, xs);
    var ts := s.q.toReceive;
    var n := Min(Wakes(|xs|), |ts|);
    CountWoken({}, ts[..n]);
    assert {} + SetOf(ts[..n]) == SetOf(ts[..n]);
    hide SetOf, Distinct;
    var s' := Apply(Posts(s, xs), DoFreeTx(t));
    assert forall u :: u in s'.pc ==> !s'.pc[u].Place?;
  }

  // posts within the budget are a run
  lemma {:induction false} PostsRun(s: Sys, xs: seq<Item>) returns (steps: seq<Step>)
    requires s.q.txLock == 0 && |s.q.items| + |xs| <= s.q.length && |xs| <= 127
    ensures Run(s, steps, Posts(s, xs))
  {
    if xs == [] {
      steps := [];
    } else {
      var most, last := xs[..|xs| - 1], IsrSend(xs[|xs| - 1], SendToBack);
      steps := PostsRun(s, most);
      PostsEffect(s, most);
      assert WithinBudget(Posts(s, most), last);
      hide Apply;
      RunFirst(Posts(s, most), last, [], Posts(s, xs));
      RunThen(s, steps, Posts(s, most), [last] + [], Posts(s, xs));
      steps := steps + ([last] + []);
    }
  }

  /** It happens: a receiver goes to sleep on an empty queue, 127 posts follow while the queue is
      locked, all within the budget, and then one more.  When the receiver's call has unlocked
      the queue and resumed the scheduler the receiver sleeps on with 128 items in the queue and
      nobody on the way. */
  lemma OverrunLosesReceiver(s: Sys, t: Task, xs: seq<Item>) returns (steps: seq<Step>, s1: Sys, s2: Sys)
    requires Initial(s) && s.q.items == [] && s.q.length >= 128 && t in s.pc && |xs| == 128
    ensures Run(s, steps, s1) && s1.q.txLock == 127 && s2 == Apply(s1, IsrSend(xs[127], SendToBack))
    ensures t in s2.pc && s2.pc[t].FreeTx? && s2.suspender == Some(t)
    ensures var s3 := Apply(s2, DoFreeTx(t));
            && Enabled(s3, DoFreeRx(t)) && Enabled(Apply(s3, DoFreeRx(t)), DoResume(t))
            && var s5 := Apply(Apply(s3, DoFreeRx(t)), DoResume(t));
            && s5.suspender == None && s5.wokenRx == {} && s5.q.toReceive == [t] && |s5.q.items| == 128
  {
    var op := OpReceive;
    GoesToSleep(s, t, op);
    var s0 := Queued(s, t, op);
    assert s0.q.toReceive == [t] && s0.q.items == [] && s0.q.txLock == 0 && s0.wokenRx == {};
    assert t in s0.pc && s0.pc[t] == FreeTx(op, Sleep) && s0.suspender == Some(t);
    var most := xs[..127];
    assert xs[..|xs| - 1] == most;
    s1, s2 := Posts(s0, most), Posts(s0, xs);
    hide Queued, Run, ToSleep;
    PostsEffect(s0, most);
    PostsEffect(s0, xs);
    var posts := PostsRun(s0, most);
    RunThen(s, ToSleep(s, t, op), s0, posts, s1);
    steps := ToSleep(s, t, op) + posts;
    assert s2 == Apply(s1, IsrSend(xs[127], SendToBack));
    hide Posts;
    WindowEffect(s0, t, xs);
    WakesUpLate(s2, t, op);
  }

  // the rest of the call
  lemma WakesUpLate(s: Sys, t: Task, op: Op)
    requires t in s.pc && s.pc[t] == FreeTx(op, Sleep) && s.suspender == Some(t)
    ensures Enabled(s, DoFreeTx(t)) && Enabled(Apply(s, DoFreeTx(t)), DoFreeRx(t))
    ensures Enabled(Apply(Apply(s, DoFreeTx(t)), DoFreeRx(t)), DoResume(t))
    ensures var s3 := Apply(s, DoFreeTx(t));
            var s5 := Apply(Apply(s3, DoFreeRx(t)), DoResume(t));
            s5.suspender == None && s5.wokenRx == s3.wokenRx && s5.q.toReceive == s3.q.toReceive && s5.q.items == s3.q.items
  {
  }

  // ---------------------------------------------------------------- items are delivered once and in order

  /** The item a step puts into the queue, if any, and the item it takes out. */
  function Accepted(s: Sys, step: Step): seq<Item>
    requires Enabled(s, step)
  {
    match step
    case DoTry(t, _) => if s.pc[t].op.OpSend? && !Cannot(s.q, s.pc[t].op) then [s.pc[t].op.x] else []
    case IsrSend(x, pos) => if HasRoom(s.q, pos) then [x] else []
    case _ => []
  }

  function Delivered(s: Sys, step: Step): seq<Item>
    requires Enabled(s, step)
  {
    match step
    case DoTry(t, _) => if s.pc[t].op.OpReceive? && s.q.items != [] then [s.q.items[0]] else []
    case IsrReceive => if s.q.items != [] then [s.q.items[0]] else []
    case _ => []
  }

  function AllAccepted(s: Sys, steps: seq<Step>, s': Sys): seq<Item>
    requires Run(s, steps, s')
    decreases |steps|
  {
    if steps == [] then [] else Accepted(s, steps[0]) + AllAccepted(Apply(s, steps[0]), steps[1..], s')
  }

  function AllDelivered(s: Sys, steps: seq<Step>, s': Sys): seq<Item>
    requires Run(s, steps, s')
    decreases |steps|
  {
    if steps == [] then [] else Delivered(s, steps[0]) + AllDelivered(Apply(s, steps[0]), steps[1..], s')
  }

  /** Only sends to the back, and no reset. */
  predicate BackOnly(steps: seq<Step>) {
    forall i :: 0 <= i < |steps| ==> BackOnlyStep(steps[i])
  }

  predicate BackOnlyStep(step: Step) {
    match step
    case Call(_, op) => op.OpSend? ==> op.pos == SendToBack
    case IsrSend(_, pos) => pos == SendToBack
    case DoReset(_) => false
    case _ => true
  }

  predicate SendersAtBack(s: Sys) {
    forall t :: t in s.pc && s.pc[t] != Idle && s.pc[t].op.OpSend? ==> s.pc[t].op.pos == SendToBack
  }

  lemma StepIsFifo(s: Sys, step: Step)
    requires Enabled(s, step) && BackOnlyStep(step) && SendersAtBack(s)
    ensures SendersAtBack(Apply(s, step))
    ensures s.q.items + Accepted(s, step) == Delivered(s, step) + Apply(s, step).q.items
  {
    hide SendersAtBack, Apply, Accepted, Delivered, Enabled;
    StaysAtBack(s, step);
    BackOnItems(s, step);
  }

  // a task inside a call keeps what it was called with
  lemma OpKept(s: Sys, step: Step, t: Task)
    requires Enabled(s, step) && t in Apply(s, step).pc
    ensures var pc := Apply(s, step).pc[t];
            || pc == Idle
            || step == Call(t, pc.op)
            || (t in s.pc && s.pc[t] != Idle && s.pc[t].op == pc.op)
  {
    hide Put, SetOf, Without, InsertTask, Send, Receive, Peek, SendFromISR, ReceiveFromISR, Lock, UnlockTx, UnlockRx, Reset;
  }

  lemma StaysAtBack(s: Sys, step: Step)
    requires Enabled(s, step) && BackOnlyStep(step) && SendersAtBack(s)
    ensures SendersAtBack(Apply(s, step))
  {
    hide Apply, Enabled;
    var s' := Apply(s, step);
    forall t | t in s'.pc && s'.pc[t] != Idle && s'.pc[t].op.OpSend? ensures s'.pc[t].op.pos == SendToBack {
      OpKept(s, step, t);
    }
  }

  lemma BackOnItems(s: Sys, step: Step)
    requires Enabled(s, step) && BackOnlyStep(step) && SendersAtBack(s)
    ensures s.q.items + Accepted(s, step) == Delivered(s, step) + Apply(s, step).q.items
  {
  }

  /** Whatever tasks and interrupts do, the items delivered are the items accepted, each once
      and in order, up to those still in the queue. */
  lemma {:induction false} RunIsFifo(s: Sys, steps: seq<Step>, s': Sys)
    requires SendersAtBack(s) && BackOnly(steps) && Run(s, steps, s')
    ensures s.q.items + AllAccepted(s, steps, s') == AllDelivered(s, steps, s') + s'.q.items
    decreases |steps|
  {
    hide Enabled, Apply, Accepted, Delivered, SendersAtBack, BackOnlyStep;
    if steps == [] {
      assert s.q.items + [] == [] + s.q.items;
    } else {
      assert BackOnlyStep(steps[0]);
      var s1, a, d := Apply(s, steps[0]), Accepted(s, steps[0]), Delivered(s, steps[0]);
      StepIsFifo(s, steps[0]);
      RunIsFifo(s1, steps[1..], s');
      var a1, d1 := AllAccepted(s1, steps[1..], s'), AllDelivered(s1, steps[1..], s');
      calc {
        s.q.items + (a + a1);
        (s.q.items + a) + a1;
        (d + s1.q.items) + a1;
        d + (s1.q.items + a1);
        d + (d1 + s'.q.items);
        (d + d1) + s'.q.items;
      }
    }
  }

  // ---------------------------------------------------------------- items are conserved

  /** Sends to the front and to the back, and no reset. */
  predicate KeepsItems(step: Step) {
    match step
    case Call(_, op) => op.OpSend? ==> op.pos != Overwrite
    case IsrSend(_, pos) => pos != Overwrite
    case DoReset(_) => false
    case _ => true
  }

  predicate NobodyOverwrites(s: Sys) {
    forall t :: t in s.pc && s.pc[t] != Idle && s.pc[t].op.OpSend? ==> s.pc[t].op.pos != Overwrite
  }

  lemma PutConserves(items: seq<Item>, x: Item, pos: Position)
    requires pos != Overwrite
    ensures multiset(Put(items, x, pos)) == multiset(items) + multiset([x])
  {
  }

  lemma StepKeepsNobody(s: Sys, step: Step)
    requires Enabled(s, step) && KeepsItems(step) && NobodyOverwrites(s)
    ensures NobodyOverwrites(Apply(s, step))
  {
    hide Apply, Enabled;
    var s' := Apply(s, step);
    forall t | t in s'.pc && s'.pc[t] != Idle && s'.pc[t].op.OpSend? ensures s'.pc[t].op.pos != Overwrite {
      OpKept(s, step, t);
    }
  }

  // what a step does to the items: nothing, one more, or the first one less
  predicate OneItem(items: seq<Item>, a: seq<Item>, d: seq<Item>, items': seq<Item>) {
    || (a == [] && d == [] && items' == items)
    || (d == [] && |a| == 1 && (items' == Put(items, a[0], SendToBack) || items' == Put(items, a[0], SendToFront)))
    || (a == [] && |d| == 1 && items != [] && d[0] == items[0] && items' == items[1..])
  }

  lemma AttemptOnItems(s: Sys, t: Task, mayBlock: bool)
    requires Enabled(s, DoTry(t, mayBlock)) && NobodyOverwrites(s)
    ensures var step := DoTry(t, mayBlock);
            OneItem(s.q.items, Accepted(s, step), Delivered(s, step), Apply(s, step).q.items)
  {
  }

  lemma StepOnItems(s: Sys, step: Step)
    requires Enabled(s, step) && KeepsItems(step) && NobodyOverwrites(s)
    ensures OneItem(s.q.items, Accepted(s, step), Delivered(s, step), Apply(s, step).q.items)
  {
    if step.DoTry? {
      hide OneItem, Apply, Accepted, Delivered;
      AttemptOnItems(s, step.t, step.mayBlock);
    } else {
      hide Without, SetOf;
    }
  }

  lemma StepConserves(s: Sys, step: Step)
    requires Enabled(s, step) && KeepsItems(step) && NobodyOverwrites(s)
    ensures multiset(s.q.items) + multiset(Accepted(s, step))
         == multiset(Delivered(s, step)) + multiset(Apply(s, step).q.items)
  {
    hide Apply, Accepted, Delivered, Enabled, KeepsItems, NobodyOverwrites, OneItem;
    StepOnItems(s, step);
    OneItemConserves(s.q.items, Accepted(s, step), Delivered(s, step), Apply(s, step).q.items);
  }

  lemma OneItemConserves(items: seq<Item>, a: seq<Item>, d: seq<Item>, items': seq<Item>)
    requires OneItem(items, a, d, items')
    ensures multiset(items) + multiset(a) == multiset(d) + multiset(items')
  {
    hide Put;
    if d != [] {
      assert items == d + items';
    } else if a != [] {
      assert a == [a[0]];
      PutConserves(items, a[0], SendToBack);
      PutConserves(items, a[0], SendToFront);
    }
  }

  lemma InTwoStretches(m: multiset<Item>, a: multiset<Item>, d: multiset<Item>, m1: multiset<Item>,
                       a1: multiset<Item>, d1: multiset<Item>, m2: multiset<Item>)
    requires m + a == d + m1 && m1 + a1 == d1 + m2
    ensures m + (a + a1) == (d + d1) + m2
  {
    calc {
      m + (a + a1);
      (m + a) + a1;
      d + (m1 + a1);
      (d + d1) + m2;
    }
  }

  /** In every run of sends to the front and to the back no item is lost and none is made: what
      was there at first and what was accepted is what was delivered and what is left. */
  lemma {:induction false} RunConserves(s: Sys, steps: seq<Step>, s': Sys)
    requires NobodyOverwrites(s) && Run(s, steps, s') && forall i :: 0 <= i < |steps| ==> KeepsItems(steps[i])
    ensures multiset(s.q.items) + multiset(AllAccepted(s, steps, s'))
         == multiset(AllDelivered(s, steps, s')) + multiset(s'.q.items)
    decreases |steps|
  {
    hide Enabled, Apply, Accepted, Delivered, NobodyOverwrites, KeepsItems, WithinBudget;
    if steps != [] {
      assert KeepsItems(steps[0]);
      var s1 := Apply(s, steps[0]);
      StepKeepsNobody(s, steps[0]);
      StepConserves(s, steps[0]);
      RunConserves(s1, steps[1..], s');
      var a, a1 := Accepted(s, steps[0]), AllAccepted(s1, steps[1..], s');
      var d, d1 := Delivered(s, steps[0]), AllDelivered(s1, steps[1..], s');
      assert multiset(a + a1) == multiset(a) + multiset(a1) && multiset(d + d1) == multiset(d) + multiset(d1);
      InTwoStretches(multiset(s.q.items), multiset(a), multiset(d), multiset(s1.q.items),
                     multiset(a1), multiset(d1), multiset(s'.q.items));
    }
  }

  // ---------------------------------------------------------------- how blocking calls end

  /** The step ends the call that t is in. */
  predicate EndsCall(s: Sys, step: Step, t: Task) {
    Enabled(s, step) && t in s.pc && s.pc[t] != Idle && t in Apply(s, step).pc && Apply(s, step).pc[t] == Idle
  }

  /** t's item is accepted, or t is given the first item, or sees it. */
  predicate GetsItem(s: Sys, step: Step, t: Task) {
    && step.DoTry? && step.t == t && Enabled(s, step)
    && match s.pc[t].op
       case OpSend(x, _) => Accepted(s, step) == [x]
       case OpReceive => s.q.items != [] && Delivered(s, step) == [s.q.items[0]]
       case OpPeek => s.q.items != [] && Apply(s, step).q.items == s.q.items
  }

  /** t has been told that its time is up. */
  predicate GivesUp(pc: Pc) {
    pc.Recheck? || ((pc.FreeTx? || pc.FreeRx? || pc.Resume?) && pc.after == GiveUp)
  }

  lemma HowCallsEnd(s: Sys, step: Step, t: Task)
    requires EndsCall(s, step, t)
    ensures
      || GetsItem(s, step, t)
      || (step == DoTry(t, false) && Cannot(s.q, s.pc[t].op))
      || (GivesUp(s.pc[t]) && !Receiving(s.pc[t].op))
      || (GivesUp(s.pc[t]) && Receiving(s.pc[t].op) && s.q.items == [])
  {
    hide Without, InsertTask, SetOf;
  }

  /** A step ends t's call if and only if it is an attempt that can proceed or may not block, or
      the call has been told that its time is up and is through with unlocking, as a sender, or
      finds the queue still empty, as a receiver. */
  lemma WhenCallsEnd(s: Sys, step: Step, t: Task)
    requires Enabled(s, step) && t in s.pc && s.pc[t] != Idle
    ensures EndsCall(s, step, t) <==>
      || (step.DoTry? && step.t == t && (!Cannot(s.q, s.pc[t].op) || !step.mayBlock))
      || (step == DoResume(t) && GivesUp(s.pc[t]) && !Receiving(s.pc[t].op))
      || (step == DoRecheck(t) && s.q.items == [])
  {
    hide Without, InsertTask, SetOf, Put;
    if step.DoTry? && step.t == t {
      AttemptEnds(s, t, step.mayBlock);
    }
  }

  /** An attempt ends the call exactly when it can proceed or may not block. */
  lemma AttemptEnds(s: Sys, t: Task, mayBlock: bool)
    requires Enabled(s, DoTry(t, mayBlock))
    ensures EndsCall(s, DoTry(t, mayBlock), t) <==> !Cannot(s.q, s.pc[t].op) || !mayBlock
    ensures !Cannot(s.q, s.pc[t].op) ==> GetsItem(s, DoTry(t, mayBlock), t)
  {
    hide SetOf;
  }

  // what t's last time check said, since its call or its last recheck
  function CheckSays(said: bool, step: Step, t: Task): bool {
    match step
    case Call(u, _) => if u == t then false else said
    case DoCheckTime(u, expired) => if u == t then expired else said
    case DoRecheck(u) => if u == t then false else said
    case _ => said
  }

  function LastCheck(said: bool, steps: seq<Step>, t: Task): bool
    decreases |steps|
  {
    if steps == [] then said else LastCheck(CheckSays(said, steps[0], t), steps[1..], t)
  }

  // past the time check
  predicate Checked(pc: Pc) {
    pc.Test? || pc.Place? || pc.FreeTx? || pc.FreeRx? || pc.Resume? || pc.Blocked? || pc.Recheck?
  }

  predicate CheckTells(s: Sys, t: Task, said: bool) {
    t in s.pc && Checked(s.pc[t]) ==> (GivesUp(s.pc[t]) <==> said)
  }

  lemma StepTells(s: Sys, step: Step, t: Task, said: bool)
    requires Enabled(s, step) && CheckTells(s, t, said)
    ensures CheckTells(Apply(s, step), t, CheckSays(said, step, t))
  {
    hide Without, InsertTask, SetOf, Put;
  }

  lemma {:induction false} RunTells(s: Sys, steps: seq<Step>, s': Sys, t: Task, said: bool)
    requires Run(s, steps, s') && CheckTells(s, t, said)
    ensures CheckTells(s', t, LastCheck(said, steps, t))
    decreases |steps|
  {
    hide Enabled, Apply, WithinBudget, CheckTells, CheckSays;
    if steps != [] {
      StepTells(s, steps[0], t, said);
      RunTells(Apply(s, steps[0]), steps[1..], s', t, CheckSays(said, steps[0], t));
    }
  }

  /** In every run a call ends in one of three ways: with its item; without one in an attempt that
      could not proceed and may not block; or after its last time check had expired, and then, for
      a receiver, only on an empty queue. */
  lemma CallsEnd(s: Sys, steps: seq<Step>, s': Sys, step: Step, t: Task)
    requires Initial(s) && Run(s, steps, s') && EndsCall(s', step, t)
    ensures
      || GetsItem(s', step, t)
      || (step == DoTry(t, false) && Cannot(s'.q, s'.pc[t].op))
      || (LastCheck(false, steps, t) && (Receiving(s'.pc[t].op) ==> s'.q.items == []))
  {
    hide Run, GetsItem, Cannot, Apply, Enabled, EndsCall;
    StartsIdle(s, t);
    RunTells(s, steps, s', t, false);
    HowCallsEnd(s', step, t);
    Ending(s', step, t);
  }

  lemma StartsIdle(s: Sys, t: Task)
    requires Initial(s)
    ensures CheckTells(s, t, false)
  {
  }

  lemma Ending(s: Sys, step: Step, t: Task)
    requires EndsCall(s, step, t)
    ensures t in s.pc && s.pc[t] != Idle
  {
  }

  lemma {:induction false} NeverExpires(steps: seq<Step>, t: Task)
    requires forall i :: 0 <= i < |steps| ==> steps[i] != DoCheckTime(t, true)
    ensures !LastCheck(false, steps, t)
    decreases |steps|
  {
    if steps != [] {
      assert steps[0] != DoCheckTime(t, true);
      assert forall i :: 0 <= i < |steps| - 1 ==> steps[1..][i] == steps[i + 1];
      NeverExpires(steps[1..], t);
    }
  }

  /** A call that may block and whose time never expires ends only with its item. */
  lemma PatientCallsGetTheirItem(s: Sys, steps: seq<Step>, s': Sys, step: Step, t: Task)
    requires Initial(s) && Run(s, steps, s') && EndsCall(s', step, t) && step != DoTry(t, false)
    requires forall i :: 0 <= i < |steps| ==> steps[i] != DoCheckTime(t, true)
    ensures GetsItem(s', step, t)
  {
    hide Run, GetsItem, Initial, EndsCall;
    CallsEnd(s, steps, s', step, t);
    NeverExpires(steps, t);
  }

  /** And a call gives up, instead of going to sleep or trying again, exactly when its last time
      check had expired. */
  lemma GivesUpWhenExpired(s: Sys, steps: seq<Step>, s': Sys, t: Task)
    requires Initial(s) && Run(s, steps, s') && t in s'.pc && Checked(s'.pc[t])
    ensures GivesUp(s'.pc[t]) <==> LastCheck(false, steps, t)
  {
    hide Run, Initial;
    StartsIdle(s, t);
    RunTells(s, steps, s', t, false);
  }

  // ---------------------------------------------------------------- calls get on

  // between a failed attempt and the next attempt, the sleep or the return
  predicate Underway(pc: Pc) {
    !pc.Idle? && !pc.Try? && !pc.Blocked?
  }

  // how many steps t can still take before one of these
  function StepsLeft(pc: Pc): nat {
    match pc
    case Suspend(_) => 9
    case LockIt(_) => 8
    case CheckTime(_) => 7
    case Test(_) => 6
    case Place(_) => 5
    case FreeTx(_, _) => 4
    case FreeRx(_, _) => 3
    case Resume(_, _) => 2
    case Recheck(_) => 1
    case _ => 0
  }

  /** A step that t itself takes. */
  predicate OwnStep(step: Step, t: Task) {
    !step.IsrSend? && !step.IsrReceive? && !step.TimeOut? && step.t == t
  }

  /** Each step of its own takes a task nearer to its next attempt, its sleep or its return, and
      nobody else's step moves it. */
  lemma StepGetsOn(s: Sys, step: Step, t: Task)
    requires Enabled(s, step) && t in s.pc && Underway(s.pc[t])
    ensures t in Apply(s, step).pc
    ensures if OwnStep(step, t) then StepsLeft(Apply(s, step).pc[t]) < StepsLeft(s.pc[t])
            else Apply(s, step).pc[t] == s.pc[t]
  {
    hide Put, SetOf, Without, InsertTask, Send, Receive, Peek, SendFromISR, ReceiveFromISR, Lock, UnlockTx, UnlockRx, Reset;
  }

  // all through the run t is underway
  predicate StaysUnderway(s: Sys, steps: seq<Step>, s': Sys, t: Task)
    requires Run(s, steps, s')
    decreases |steps|
  {
    && t in s.pc && Underway(s.pc[t])
    && (steps == [] || StaysUnderway(Apply(s, steps[0]), steps[1..], s', t))
  }

  function OwnSteps(steps: seq<Step>, t: Task): nat
    decreases |steps|
  {
    if steps == [] then 0 else (if OwnStep(steps[0], t) then 1 else 0) + OwnSteps(steps[1..], t)
  }

  /** In no run does a task take more than nine steps without attempting, sleeping or returning. */
  lemma {:induction false} TriesAgainSoon(s: Sys, steps: seq<Step>, s': Sys, t: Task)
    requires Run(s, steps, s') && StaysUnderway(s, steps, s', t)
    ensures t in s'.pc && OwnSteps(steps, t) + StepsLeft(s'.pc[t]) <= StepsLeft(s.pc[t]) <= 9
    decreases |steps|
  {
    hide Enabled, Apply, WithinBudget, Underway, OwnStep;
    if steps != [] {
      StepGetsOn(s, steps[0], t);
      TriesAgainSoon(Apply(s, steps[0]), steps[1..], s', t);
    }
  }

  /** A call begins with an attempt, and so does what follows a wake-up or a time-out. */
  lemma BeginsWithAttempt(s: Sys, step: Step)
    requires Enabled(s, step) && (step.Call? || step.WakeUp?)
    ensures var op := if step.Call? then step.op else s.pc[step.t].op;
            Apply(s, step) == s.(pc := s.pc[step.t := Try(op)])
  {
  }

  /** No task is ever stuck: unless it is asleep on a list it has a next step whenever it may run. */
  lemma NeverStuck(s: Sys, steps: seq<Step>, s': Sys, t: Task) returns (step: Step)
    requires Initial(s) && Run(s, steps, s') && Runs(s', t) && s'.pc[t] != Idle
    requires t !in s'.q.toReceive && t !in s'.q.toSend
    ensures Enabled(s', step) && OwnStep(step, t)
  {
    hide Run, ListsMatch, Sizes, ReceiversCovered, LocksMatch;
    RunFromInitial(s, steps, s');
    step := NextStep(s', t);
  }

  lemma RunFromInitial(s: Sys, steps: seq<Step>, s': Sys)
    requires Initial(s) && Run(s, steps, s')
    ensures LocksMatch(s')
  {
    RunKeepsReceivers(s, steps, s');
  }

  lemma NextStep(s: Sys, t: Task) returns (step: Step)
    requires LocksMatch(s) && Runs(s, t) && s.pc[t] != Idle && t !in s.q.toReceive && t !in s.q.toSend
    ensures Enabled(s, step) && OwnStep(step, t)
  {
    step := match s.pc[t]
      case Try(_) => DoTry(t, true)
      case Suspend(_) => DoSuspend(t)
      case LockIt(_) => DoLock(t)
      case CheckTime(_) => DoCheckTime(t, false)
      case Test(_) => DoTest(t)
      case Place(_) => DoPlace(t, 0)
      case FreeTx(_, _) => DoFreeTx(t)
      case FreeRx(_, _) => DoFreeRx(t)
      case Resume(_, _) => DoResume(t)
      case Recheck(_) => DoRecheck(t)
      case _ => WakeUp(t);
  }
}
