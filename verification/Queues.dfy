/**
 The kernel queue (supports/rtos/queue.c): a byte ring buffer, two lists of blocked tasks and
 the two lock counters that record what interrupts did while a task was going to sleep.

 `QueueVal` is the value a queue stands for.  The functions on it are the critical sections of
 the source, one function each, and they are the atomic steps the protocol modules reason
 about.  Class `Queue` holds the byte buffer with its offsets; its methods follow the source
 and are proved against those functions.
 */
module Queues {
  import opened Common

  type Item = seq<byte>

  datatype Position = SendToBack | SendToFront | Overwrite

  // queueUNLOCKED and queueLOCKED_UNMODIFIED
  const UNLOCKED: int := -1
  const LOCKED_UNMODIFIED: int := 0

  /** ( int8_t )( lock + 1 ) */
  function Increment8(lock: int): int {
    if lock == 127 then -128 else lock + 1
  }

  // ---------------------------------------------------------------- values and critical sections

  datatype QueueVal<T> = QueueVal(
    items: seq<T>, length: nat,
    rxLock: int, txLock: int,
    toReceive: seq<Task>, toSend: seq<Task>)

  /** An overwrite puts the item in front and leaves the count as it is: on a queue of length 1,
      the only kind that callers may overwrite, it replaces the item. */
  function Put<T>(items: seq<T>, x: T, pos: Position): seq<T> {
    match pos
    case SendToBack => items + [x]
    case SendToFront => [x] + items
    case Overwrite => [x] + (if items == [] then [] else items[..|items| - 1])
  }

  predicate HasRoom<T>(q: QueueVal<T>, pos: Position) {
    |q.items| < q.length || pos == Overwrite
  }

  /** xTaskRemoveFromEventList behind the test that the list is not empty: the task at the
      head of the list, if any, is woken. */
  function WakeReceiver<T>(q: QueueVal<T>): QueueVal<T> {
    if q.toReceive == [] then q else q.(toReceive := q.toReceive[1..])
  }

  function WakeSender<T>(q: QueueVal<T>): QueueVal<T> {
    if q.toSend == [] then q else q.(toSend := q.toSend[1..])
  }

  function Head(tasks: seq<Task>): seq<Task> {
    if tasks == [] then [] else tasks[..1]
  }

  /** The critical section of xQueueGenericSend when there is room. */
  function Send<T>(q: QueueVal<T>, x: T, pos: Position): QueueVal<T> {
    WakeReceiver(q.(items := Put(q.items, x, pos)))
  }

  /** xQueueGenericSendFromISR and xQueueGiveFromISR when there is room, and
      prvNotifyQueueSetContainer seen from the set. */
  function SendFromISR<T>(q: QueueVal<T>, x: T, pos: Position): QueueVal<T> {
    var q' := q.(items := Put(q.items, x, pos));
    if q.txLock == UNLOCKED then WakeReceiver(q') else q'.(txLock := Increment8(q.txLock))
  }

  /** prvNotifyQueueSetContainer, acting on the set. */
  function Notify<T>(q: QueueVal<T>, handle: T, pos: Position): QueueVal<T> {
    if |q.items| < q.length then SendFromISR(q, handle, pos) else q
  }

  function NotifyTimes<T>(q: QueueVal<T>, handle: T, k: nat): QueueVal<T> {
    if k == 0 then q else Notify(NotifyTimes(q, handle, k - 1), handle, SendToBack)
  }

  /** The critical section of xQueueReceive and xQueueSemaphoreTake when there is an item. */
  function Receive<T>(q: QueueVal<T>): QueueVal<T>
    requires q.items != []
  {
    WakeSender(q.(items := q.items[1..]))
  }

  function ReceiveFromISR<T>(q: QueueVal<T>): QueueVal<T>
    requires q.items != []
  {
    var q' := q.(items := q.items[1..]);
    if q.rxLock == UNLOCKED then WakeSender(q') else q'.(rxLock := Increment8(q.rxLock))
  }

  /** The critical section of xQueuePeek when there is an item: the item stays, and so the next
      task waiting for it is woken. */
  function Peek<T>(q: QueueVal<T>): QueueVal<T> {
    WakeReceiver(q)
  }

  /** prvLockQueue */
  function Lock<T>(q: QueueVal<T>): QueueVal<T> {
    q.(rxLock := if q.rxLock == UNLOCKED then LOCKED_UNMODIFIED else q.rxLock,
       txLock := if q.txLock == UNLOCKED then LOCKED_UNMODIFIED else q.txLock)
  }

  function Pos(a: int): nat {
    if a < 0 then 0 else a
  }

  /** The first critical section of prvUnlockQueue: one waiting receiver is woken for each item
      posted while the queue was locked. */
  function UnlockTx<T>(q: QueueVal<T>): QueueVal<T> {
    q.(toReceive := q.toReceive[Min(Pos(q.txLock), |q.toReceive|)..], txLock := UNLOCKED)
  }

  /** The second critical section of prvUnlockQueue. */
  function UnlockRx<T>(q: QueueVal<T>): QueueVal<T> {
    q.(toSend := q.toSend[Min(Pos(q.rxLock), |q.toSend|)..], rxLock := UNLOCKED)
  }

  /** xQueueGenericReset of a queue in use. */
  function Reset<T>(q: QueueVal<T>): QueueVal<T> {
    WakeSender(q.(items := [], rxLock := UNLOCKED, txLock := UNLOCKED))
  }

  /** Telling a set k times puts k handles behind those it has, as far as there is room. */
  lemma {:induction false} ToldTimes<T>(q: QueueVal<T>, handle: T, k: nat)
    ensures NotifyTimes(q, handle, k).length == q.length
    ensures NotifyTimes(q, handle, k).items == q.items + seq(Min(k, Pos(q.length - |q.items|)), _ => handle)
  {
    if k == 0 {
      assert q.items + [] == q.items;
    } else {
      ToldTimes(q, handle, k - 1);
      var q1, n := NotifyTimes(q, handle, k - 1), Min(k - 1, Pos(q.length - |q.items|));
      assert seq(n + 1, _ => handle) == seq(n, _ => handle) + [handle];
      if |q1.items| < q.length {
        assert q1.items + [handle] == q.items + seq(n + 1, _ => handle);
      }
    }
  }

  // ---------------------------------------------------------------- the byte buffer

  /** Slot i of a buffer of n slots, counting round and round. */
  function Slot(i: nat, n: nat): (s: nat)
    requires n > 0
    ensures s < n
  {
    if i < n then i else Slot(i - n, n)
  }

  lemma {:induction false} SlotStep(i: nat, n: nat)
    requires n > 0
    ensures Slot(i + 1, n) == if Slot(i, n) + 1 == n then 0 else Slot(i, n) + 1
    decreases i
  {
    if i >= n {
      SlotStep(i - n, n);
    }
  }

  lemma SlotNext(i: nat, n: nat)
    requires n > 0
    ensures Slot(Slot(i, n) + 1, n) == Slot(i + 1, n)
  {
    SlotStep(i, n);
    SlotStep(Slot(i, n), n);
  }

  /** Fewer than n consecutive slots are all different. */
  lemma {:induction false} SlotsDiffer(i: nat, d: nat, n: nat)
    requires 0 < d < n
    ensures Slot(i, n) != Slot(i + d, n)
    decreases i
  {
    if i >= n {
      SlotsDiffer(i - n, d, n);
    } else if i + d >= n {
      assert Slot(i + d, n) == Slot(i + d - n, n) == i + d - n;
    }
  }

  /** slot * size, built up one slot at a time. */
  function Offset(slot: nat, size: nat): nat {
    if slot == 0 then 0 else Offset(slot - 1, size) + size
  }

  lemma {:induction false} OffsetIsProduct(slot: nat, size: nat)
    ensures Offset(slot, size) == slot * size
  {
    if slot > 0 {
      OffsetIsProduct(slot - 1, size);
      assert slot * size == (slot - 1) * size + size;
    }
  }

  lemma {:induction false} OffsetMonotone(a: nat, b: nat, size: nat)
    requires a < b
    ensures Offset(a, size) + size <= Offset(b, size)
  {
    if a + 1 < b {
      OffsetMonotone(a, b - 1, size);
    }
  }

  predicate Sized(bytes: seq<byte>, n: nat, size: nat) {
    n > 0 && |bytes| == Offset(n, size)
  }

  /** The bytes of one slot. */
  function Cell(bytes: seq<byte>, n: nat, size: nat, slot: nat): (item: Item)
    requires Sized(bytes, n, size) && slot < n
    ensures |item| == size
  {
    OffsetMonotone(slot, n, size);
    bytes[Offset(slot, size)..Offset(slot, size) + size]
  }

  /** The items of the queue: those of the `count` slots after slot r. */
  function Items(bytes: seq<byte>, n: nat, size: nat, r: nat, count: nat): (items: seq<Item>)
    requires Sized(bytes, n, size)
    ensures |items| == count
  {
    if count == 0 then []
    else Items(bytes, n, size, r, count - 1) + [Cell(bytes, n, size, Slot(r + count, n))]
  }

  /** The buffer after memcpy of an item to slot w. */
  function Stored(bytes: seq<byte>, n: nat, size: nat, w: nat, item: Item): (b: seq<byte>)
    requires Sized(bytes, n, size) && w < n && |item| == size
    ensures Sized(b, n, size)
  {
    OffsetMonotone(w, n, size);
    bytes[..Offset(w, size)] + item + bytes[Offset(w, size) + size..]
  }

  lemma StoredCell(bytes: seq<byte>, n: nat, size: nat, w: nat, s: nat, item: Item)
    requires Sized(bytes, n, size) && w < n && s < n && |item| == size
    ensures Cell(Stored(bytes, n, size, w, item), n, size, s) == if s == w then item else Cell(bytes, n, size, s)
  {
    hide Offset;
    OffsetMonotone(w, n, size);
    OffsetMonotone(s, n, size);
    var (a, b) := (Offset(w, size), Offset(s, size));
    var stored := bytes[..a] + item + bytes[a + size..];
    if s == w {
      assert stored[a..a + size] == item;
    } else if s < w {
      OffsetMonotone(s, w, size);
      assert stored[b..b + size] == bytes[b..b + size];
    } else {
      OffsetMonotone(w, s, size);
      assert stored[b..b + size] == bytes[b..b + size];
    }
  }

  /** None of the `count` slots after slot r is slot w. */
  predicate Free(r: nat, count: nat, n: nat, w: nat)
    requires n > 0
  {
    count == 0 || (Slot(r + count, n) != w && Free(r, count - 1, n, w))
  }

  lemma {:induction false} SlotBehindIsFree(r: nat, count: nat, n: nat, upto: nat)
    requires upto <= count < n
    ensures Free(r, upto, n, Slot(r + count + 1, n))
  {
    if upto > 0 {
      SlotsDiffer(r + upto, count + 1 - upto, n);
      SlotBehindIsFree(r, count, n, upto - 1);
    }
  }

  lemma {:induction false} SlotInFrontIsFree(r: nat, count: nat, n: nat)
    requires r < n && count < n
    ensures Free(r, count, n, r)
  {
    if count > 0 {
      SlotsDiffer(r, count, n);
      SlotInFrontIsFree(r, count - 1, n);
    }
  }

  /** A slot that no item occupies can be written without changing the items. */
  lemma {:induction false} ItemsUntouched(bytes: seq<byte>, n: nat, size: nat, r: nat, count: nat, w: nat, item: Item)
    requires Sized(bytes, n, size) && w < n && |item| == size && Free(r, count, n, w)
    ensures Items(Stored(bytes, n, size, w, item), n, size, r, count) == Items(bytes, n, size, r, count)
  {
    if count > 0 {
      ItemsUntouched(bytes, n, size, r, count - 1, w, item);
      StoredCell(bytes, n, size, w, Slot(r + count, n), item);
    }
  }

  /** Writing the slot behind the last item appends. */
  lemma AppendItem(bytes: seq<byte>, n: nat, size: nat, r: nat, count: nat, item: Item)
    requires Sized(bytes, n, size) && count < n && |item| == size
    ensures Items(Stored(bytes, n, size, Slot(r + count + 1, n), item), n, size, r, count + 1)
         == Items(bytes, n, size, r, count) + [item]
  {
    var w := Slot(r + count + 1, n);
    StoredCell(bytes, n, size, w, w, item);
    SlotBehindIsFree(r, count, n, count);
    ItemsUntouched(bytes, n, size, r, count, w, item);
  }

  /** The first item is in the slot after slot r; the others are seen from there. */
  lemma {:induction false} ItemsFrom(bytes: seq<byte>, n: nat, size: nat, r: nat, count: nat)
    requires Sized(bytes, n, size) && r < n
    ensures Items(bytes, n, size, r, count + 1)
         == [Cell(bytes, n, size, Slot(r + 1, n))] + Items(bytes, n, size, Slot(r + 1, n), count)
  {
    if count > 0 {
      ItemsFrom(bytes, n, size, r, count - 1);
      assert Slot(Slot(r + 1, n) + count, n) == Slot(r + 1 + count, n);
    }
  }

  // a buffer that holds nothing, with its offsets at the head
  lemma EmptyLayout(bytes: seq<byte>, n: nat, size: nat)
    requires Sized(bytes, n, size)
    ensures Items(bytes, n, size, n - 1, 0) == [] && Offset(Slot(n - 1 + 0 + 1, n), size) == 0
  {
  }

  // the items but the last
  lemma AllButLast(bytes: seq<byte>, n: nat, size: nat, r: nat, count: nat)
    requires Sized(bytes, n, size)
    ensures Items(bytes, n, size, r, count + 1)[..count] == Items(bytes, n, size, r, count)
  {
  }

  /** Writing the slot in front of the first item prepends. */
  lemma PrependItem(bytes: seq<byte>, n: nat, size: nat, r0: nat, count: nat, item: Item)
    requires Sized(bytes, n, size) && count < n && |item| == size && r0 < n
    ensures var r := Slot(r0 + 1, n);
            Items(Stored(bytes, n, size, r, item), n, size, r0, count + 1) == [item] + Items(bytes, n, size, r, count)
  {
    var r := Slot(r0 + 1, n);
    StoredCell(bytes, n, size, r, r, item);
    ItemsFrom(Stored(bytes, n, size, r, item), n, size, r0, count);
    SlotInFrontIsFree(r, count, n);
    ItemsUntouched(bytes, n, size, r, count, r, item);
  }

  // ---------------------------------------------------------------- items of size 0 (semaphores)

  lemma {:induction false} ZeroOffset(slot: nat)
    ensures Offset(slot, 0) == 0
  {
    if slot > 0 {
      ZeroOffset(slot - 1);
    }
  }

  /** With item size 0 every item is empty, so only their number matters. */
  lemma {:induction false} ZeroItems(bytes: seq<byte>, n: nat, r: nat, count: nat)
    requires Sized(bytes, n, 0)
    ensures Items(bytes, n, 0, r, count) == seq(count, _ => [])
  {
    if count > 0 {
      ZeroItems(bytes, n, r, count - 1);
    }
  }

  // ---------------------------------------------------------------- moving the two offsets

  /** Stepping one slot on, wrapping at the tail. */
  lemma OffsetForward(s: nat, n: nat, size: nat)
    requires s < n
    ensures var p := Offset(s, size) + size;
            (if p >= Offset(n, size) then 0 else p) == Offset(Slot(s + 1, n), size)
  {
    if size == 0 {
      ZeroOffset(s);
      ZeroOffset(n);
      ZeroOffset(Slot(s + 1, n));
    } else if s + 1 < n {
      OffsetMonotone(s + 1, n, size);
    }
  }

  /** Stepping one slot back, wrapping at the head. */
  lemma OffsetBackward(s: nat, n: nat, size: nat)
    requires s < n && size > 0
    ensures var p := Offset(s, size) - size;
            && (if p < 0 then Offset(n, size) - size else p) == Offset(if s == 0 then n - 1 else s - 1, size)
            && Slot((if s == 0 then n - 1 else s - 1) + 1, n) == s
  {
  }

  /** Counting on from the slot after r is counting on from r. */
  lemma SlotFrom(r: nat, k: nat, n: nat)
    requires r < n
    ensures Slot(Slot(r + 1, n) + k, n) == Slot(r + 1 + k, n)
  {
  }

  // the slots that the write offset is at and should be at, after an overwrite has moved the read
  // offset one slot back and left count and write offset alone
  lemma OverwriteLeavesGap(slot: nat, count: nat, n: nat)
    requires slot < n && 0 < count
    ensures var back := if slot == 0 then n - 1 else slot - 1;
            Slot(slot + count + 1, n) == Slot(back + count + 1, n) <==> n == 1
  {
    var back := if slot == 0 then n - 1 else slot - 1;
    if n > 1 {
      if slot == 0 {
        assert Slot(back + count + 1, n) == Slot(count, n);
        SlotsDiffer(count, 1, n);
      } else {
        SlotsDiffer(back + count + 1, 1, n);
      }
    }
  }

  lemma OffsetsDiffer(a: nat, b: nat, size: nat)
    requires size > 0
    ensures Offset(a, size) == Offset(b, size) <==> a == b
  {
    if a < b {
      OffsetMonotone(a, b, size);
    } else if b < a {
      OffsetMonotone(b, a, size);
    }
  }

  /** What the gap does: after x has overwritten a buffer with `count` items and room for two more,
      y is sent to the back.  What is read then is x and all the old items, and y is not read. */
  lemma GapHidesItem(bytes: seq<byte>, n: nat, size: nat, slot: nat, count: nat, x: Item, y: Item)
    requires Sized(bytes, n, size) && slot < n && 0 < count && count + 1 < n && |x| == |y| == size
    ensures var back := if slot == 0 then n - 1 else slot - 1;
            var w := Slot(slot + count + 1, n);
            Items(Stored(Stored(bytes, n, size, slot, x), n, size, w, y), n, size, back, count + 1)
              == [x] + Items(bytes, n, size, slot, count)
  {
    hide Items, Stored;
    var back := if slot == 0 then n - 1 else slot - 1;
    assert Slot(back + 1, n) == slot;
    PrependItem(bytes, n, size, back, count, x);
    SlotFrom(back, count + 1, n);
    SlotBehindIsFree(back, count + 1, n, count + 1);
    ItemsUntouched(Stored(bytes, n, size, slot, x), n, size, back, count + 1, Slot(back + count + 2, n), y);
  }

  // what is read and where the write offset should be, after an item was stored in front
  lemma InFront(bytes: seq<byte>, n: nat, size: nat, slot: nat, count: nat, item: Item, pos: Position)
    requires Sized(bytes, n, size) && slot < n && |item| == size > 0 && pos != SendToBack && count <= n
    requires count < n || pos == Overwrite
    ensures var back := if slot == 0 then n - 1 else slot - 1;
            var count' := if pos == Overwrite && count > 0 then count else count + 1;
            && Items(Stored(bytes, n, size, slot, item), n, size, back, count')
               == Put(Items(bytes, n, size, slot, count), item, pos)
            && (Offset(Slot(slot + count + 1, n), size) == Offset(Slot(back + count' + 1, n), size)
                <==> pos != Overwrite || n == 1 || count == 0)
  {
    hide Items, Stored, Offset;
    var back := if slot == 0 then n - 1 else slot - 1;
    assert Slot(back + 1, n) == slot;
    if pos == Overwrite && count > 0 {
      PrependItem(bytes, n, size, back, count - 1, item);
      AllButLast(bytes, n, size, slot, count - 1);
      OverwriteLeavesGap(slot, count, n);
      OffsetsDiffer(Slot(slot + count + 1, n), Slot(back + count + 1, n), size);
    } else {
      PrependItem(bytes, n, size, back, count, item);
      SlotFrom(back, count + 1, n);
    }
  }

  // the position the copy routine acts on: items of size 0 are only counted
  function Effective(pos: Position, itemSize: nat): Position {
    if itemSize == 0 then SendToBack else pos
  }

  /** On a queue of length 1 an overwrite replaces the item, unless the items have size 0: then
      it is only counted, and a full semaphore would come to hold two. */
  lemma OverwriteReplaces(items: seq<Item>, x: Item, itemSize: nat)
    requires |items| <= 1
    ensures Put(items, x, Effective(Overwrite, itemSize)) == [x] <==> itemSize > 0 || items == []
  {
    if itemSize == 0 && items != [] {
      assert |items + [x]| == 2;
    }
  }

  /** A full binary semaphore that is overwritten comes to hold two. */
  lemma SemaphoreOvercounts()
    ensures Put<Item>([[]], [], Effective(Overwrite, 0)) == [[], []]
  {
  }

  method Memcpy(dst: array<byte>, at: nat, src: Item)
    requires at + |src| <= dst.Length
    modifies dst
    ensures dst[..] == old(dst[..])[..at] + src + old(dst[..])[at + |src|..]
  {
    for i := 0 to |src|
      invariant forall j :: at <= j < at + i ==> dst[j] == src[j - at]
      invariant forall j :: 0 <= j < dst.Length && !(at <= j < at + i) ==> dst[j] == old(dst[j])
    {
      dst[at + i] := src[i];
    }
    assert forall j :: 0 <= j < dst.Length ==>
      dst[j] == (old(dst[..])[..at] + src + old(dst[..])[at + |src|..])[j];
  }

  // uxSlots * uxItemSize
  method ByteCount(slots: nat, size: nat) returns (n: nat)
    ensures n == Offset(slots, size)
  {
    OffsetIsProduct(slots, size);
    n := slots * size;
  }

  class Queue {
    const storage: array<byte>
    const length: nat
    const itemSize: nat
    var tail: nat
    var writeTo: nat
    var readFrom: nat
    var messagesWaiting: nat
    var rxLock: int
    var txLock: int
    var toReceive: seq<Task>
    var toSend: seq<Task>
    // the slot readFrom points at
    ghost var slot: nat

    /** The buffer stands for a sequence of items ... */
    ghost predicate Laid()
      reads this
    {
      && length > 0 && slot < length
      && storage.Length == tail == Offset(length, itemSize)
      && readFrom == Offset(slot, itemSize)
      && (itemSize > 0 ==> messagesWaiting <= length)
    }

    /** ... and the next one sent to the back will be written behind the last of them. */
    ghost predicate Valid()
      reads this
    {
      Laid() && writeTo == Offset(Slot(slot + messagesWaiting + 1, length), itemSize)
    }

    ghost function Contents(): seq<Item>
      reads this, storage
      requires Laid()
    {
      Items(storage[..], length, itemSize, slot, messagesWaiting)
    }

    ghost function Val(): QueueVal<Item>
      reads this, storage
      requires Laid()
    {
      QueueVal(Contents(), length, rxLock, txLock, toReceive, toSend)
    }

    /** xQueueGenericCreate: prvInitialiseNewQueue and the reset it performs. */
    constructor (queueLength: nat, size: nat)
      requires queueLength > 0
      ensures Valid() && length == queueLength && itemSize == size && fresh(storage)
      ensures Val() == QueueVal([], queueLength, UNLOCKED, UNLOCKED, [], [])
    {
      length := queueLength;
      itemSize := size;
      var bytes := ByteCount(queueLength, size);
      var last := ByteCount(queueLength - 1, size);
      storage := new byte[bytes];
      tail := bytes;
      messagesWaiting := 0;
      writeTo := 0;
      readFrom := last;
      rxLock, txLock := UNLOCKED, UNLOCKED;
      toReceive, toSend := [], [];
      slot := queueLength - 1;
    }

    /** xQueueGenericReset with xNewQueue == pdFALSE */
    method GenericReset() returns (woken: seq<Task>)
      requires Valid()
      modifies this
      ensures Valid() && Val() == Reset(old(Val())) && woken == Head(old(toSend))
      ensures messagesWaiting == 0 && Contents() == [] && rxLock == txLock == UNLOCKED
      ensures woken + toSend == old(toSend) && |woken| == Min(1, |old(toSend)|) && toReceive == old(toReceive)
    {
      hide Items, Slot, Offset;
      Clear();
      woken := RemoveFromSenders();
    }

    // the fields that a reset sets
    method Clear()
      requires Valid()
      modifies this`tail, this`writeTo, this`readFrom, this`messagesWaiting, this`slot, this`rxLock, this`txLock
      ensures Valid() && messagesWaiting == 0 && Contents() == [] && rxLock == txLock == UNLOCKED
    {
      hide Items, Slot, Offset;
      tail := ByteCount(length, itemSize);
      messagesWaiting := 0;
      writeTo := 0;
      readFrom := ByteCount(length - 1, itemSize);
      rxLock := UNLOCKED;
      txLock := UNLOCKED;
      slot := length - 1;
      EmptyLayout(storage[..], length, itemSize);
    }

    // xTaskRemoveFromEventList on each of the two lists, behind the test for emptiness
    method RemoveFromSenders() returns (woken: seq<Task>)
      modifies this`toSend
      ensures woken == Head(old(toSend)) && toSend == old(toSend)[|woken|..]
      ensures woken + toSend == old(toSend) && |woken| == Min(1, |old(toSend)|)
    {
      if toSend != [] {
        woken := toSend[..1];
        toSend := toSend[1..];
      } else {
        woken := [];
      }
    }

    method RemoveFromReceivers() returns (woken: seq<Task>)
      modifies this`toReceive
      ensures woken == Head(old(toReceive)) && toReceive == old(toReceive)[|woken|..]
      ensures woken + toReceive == old(toReceive) && |woken| == Min(1, |old(toReceive)|)
    {
      if toReceive != [] {
        woken := toReceive[..1];
        toReceive := toReceive[1..];
      } else {
        woken := [];
      }
    }

    /** Whether the copy routine leaves no gap: it does when it overwrites a queue that has more
        than one slot and is not empty. */
    predicate NoGap(pos: Position)
      reads this
    {
      pos != Overwrite || itemSize == 0 || length == 1 || messagesWaiting == 0
    }

    /** prvCopyDataToQueue */
    method CopyDataToQueue(item: Item, pos: Position)
      requires Valid() && |item| == itemSize
      requires messagesWaiting < length || pos == Overwrite
      modifies this`writeTo, this`readFrom, this`messagesWaiting, this`slot, storage
      ensures Laid() && Contents() == Put(old(Contents()), item, Effective(pos, itemSize))
      ensures pos == SendToBack || itemSize == 0 ==> Contents() == old(Contents()) + [item]
      ensures pos == SendToFront && itemSize > 0 ==> Contents() == [item] + old(Contents())
      ensures pos == Overwrite && itemSize > 0 ==>
        Contents() == [item] + old(Contents())[..if messagesWaiting > old(messagesWaiting) then 0 else messagesWaiting - 1]
      ensures messagesWaiting == old(messagesWaiting) + if pos == Overwrite && itemSize > 0 && old(messagesWaiting) > 0 then 0 else 1
      ensures Valid() <==> old(NoGap(pos))
    {
      if itemSize == 0 {
        CountItem();
      } else if pos == SendToBack {
        CopyToBack(item);
      } else {
        CopyToFront(item, pos);
      }
    }

    // the three branches of prvCopyDataToQueue
    method CountItem()
      requires Valid() && itemSize == 0
      modifies this`messagesWaiting
      ensures Valid() && Contents() == old(Contents()) + [[]]
    {
      messagesWaiting := messagesWaiting + 1;
      ZeroOffset(Slot(slot + messagesWaiting + 1, length));
      ZeroOffset(Slot(slot + messagesWaiting, length));
      ZeroItems(storage[..], length, slot, messagesWaiting);
      ZeroItems(storage[..], length, slot, messagesWaiting - 1);
    }

    method CopyToBack(item: Item)
      requires Valid() && |item| == itemSize && messagesWaiting < length
      modifies this`writeTo, this`messagesWaiting, storage
      ensures Valid() && Contents() == old(Contents()) + [item]
    {
      hide Items, Slot, Offset;
      ghost var w := Slot(slot + messagesWaiting + 1, length);
      ghost var was := storage[..];
      OffsetMonotone(w, length, itemSize);
      Memcpy(storage, writeTo, item);
      assert storage[..] == Stored(was, length, itemSize, w, item);
      AppendItem(was, length, itemSize, slot, messagesWaiting, item);
      OffsetForward(w, length, itemSize);
      SlotNext(slot + messagesWaiting + 1, length);
      writeTo := writeTo + itemSize;
      if writeTo >= tail {
        writeTo := 0;
      }
      messagesWaiting := messagesWaiting + 1;
    }

    // the item goes to the slot readFrom points at, and readFrom one slot back
    method StoreInFront(item: Item)
      requires Laid() && |item| == itemSize > 0
      modifies this`readFrom, this`slot, storage
      ensures Laid() && slot == if old(slot) == 0 then length - 1 else old(slot) - 1
      ensures storage[..] == Stored(old(storage[..]), length, itemSize, old(slot), item)
    {
      hide Items, Slot, Offset;
      OffsetMonotone(slot, length, itemSize);
      OffsetBackward(slot, length, itemSize);
      Memcpy(storage, readFrom, item);
      if readFrom < itemSize {
        readFrom := tail - itemSize;
      } else {
        readFrom := readFrom - itemSize;
      }
      slot := if slot == 0 then length - 1 else slot - 1;
    }

    method CopyToFront(item: Item, pos: Position)
      requires Valid() && |item| == itemSize > 0 && pos != SendToBack
      requires messagesWaiting < length || pos == Overwrite
      modifies this`readFrom, this`messagesWaiting, this`slot, storage
      ensures Laid() && Contents() == Put(old(Contents()), item, pos)
      ensures Valid() <==> old(NoGap(pos))
    {
      hide Items, Slot, Offset, Stored, Put;
      ghost var was := storage[..];
      var waiting := messagesWaiting;
      StoreInFront(item);
      if pos == Overwrite {
        if waiting > 0 {
          waiting := waiting - 1;
        }
      }
      messagesWaiting := waiting + 1;
      InFront(was, length, itemSize, old(slot), old(messagesWaiting), item, pos);
    }

    /** prvCopyDataFromQueue, and the same steps written out in xQueueCRReceive: the read
        offset moves on and the item found there is the first one. */
    method CopyDataFromQueue() returns (item: Item)
      requires Valid()
      modifies this`readFrom, this`slot
      ensures slot < length && readFrom == Offset(slot, itemSize)
      ensures messagesWaiting > 0 ==>
                && writeTo == Offset(Slot(slot + messagesWaiting, length), itemSize)
                && old(Contents()) == [item] + Items(storage[..], length, itemSize, slot, messagesWaiting - 1)
    {
      hide Items, Slot, Offset, Cell;
      ghost var was := slot;
      if itemSize != 0 {
        item := ReadNext();
        if messagesWaiting > 0 {
          SlotFrom(was, messagesWaiting, length);
          ItemsFrom(storage[..], length, itemSize, was, messagesWaiting - 1);
        }
      } else {
        item := [];
        if messagesWaiting > 0 {
          ZeroOffset(Slot(slot + messagesWaiting, length));
          ZeroOffset(Slot(slot + messagesWaiting + 1, length));
          ZeroItems(storage[..], length, slot, messagesWaiting);
          ZeroItems(storage[..], length, slot, messagesWaiting - 1);
        }
      }
    }

    method ReadNext() returns (item: Item)
      requires Valid()
      modifies this`readFrom, this`slot
      ensures slot == Slot(old(slot) + 1, length) && readFrom == Offset(slot, itemSize)
      ensures item == Cell(storage[..], length, itemSize, slot)
    {
      OffsetForward(slot, length, itemSize);
      readFrom := readFrom + itemSize;
      if readFrom >= tail {
        readFrom := 0;
      }
      slot := Slot(slot + 1, length);
      OffsetMonotone(slot, length, itemSize);
      item := storage[readFrom..readFrom + itemSize];
    }

    // ---- critical sections

    /** The critical section of xQueueGenericSend for a queue that is in no set. */
    method SendCritical(item: Item, pos: Position) returns (ok: bool, woken: seq<Task>)
      requires Valid() && |item| == itemSize && (pos == Overwrite ==> length == 1)
      modifies this, storage
      ensures Valid() && ok == HasRoom(old(Val()), pos)
      ensures Val() == if ok then Send(old(Val()), item, Effective(pos, itemSize)) else old(Val())
      ensures ok <==> old(messagesWaiting) < length || pos == Overwrite
      ensures ok && (pos == SendToBack || itemSize == 0) ==> Contents() == old(Contents()) + [item]
      ensures ok && pos == SendToFront && itemSize > 0 ==> Contents() == [item] + old(Contents())
      ensures ok && pos == Overwrite && itemSize > 0 ==> Contents() == [item]
      ensures !ok ==> Contents() == old(Contents()) && toReceive == old(toReceive)
      ensures woken + toReceive == old(toReceive) && |woken| == if ok then Min(1, |old(toReceive)|) else 0
      ensures rxLock == old(rxLock) && txLock == old(txLock) && toSend == old(toSend)
    {
      hide Items, Slot, Offset;
      ok, woken := false, [];
      if messagesWaiting < length || pos == Overwrite {
        CopyDataToQueue(item, pos);
        woken := RemoveFromReceivers();
        ok := true;
      }
    }

    // the copy, and then waking a receiver or counting the post
    method Post(item: Item, pos: Position) returns (woken: seq<Task>)
      requires Valid() && |item| == itemSize && (messagesWaiting < length || pos == Overwrite)
      modifies this, storage
      ensures Laid() && Val() == SendFromISR(old(Val()), item, Effective(pos, itemSize))
      ensures Valid() <==> old(NoGap(pos))
      ensures woken == if old(txLock) == UNLOCKED then Head(old(toReceive)) else []
    {
      hide Items, Slot, Offset;
      var lock := txLock;
      CopyDataToQueue(item, pos);
      woken := [];
      if lock == UNLOCKED {
        woken := RemoveFromReceivers();
      } else {
        txLock := if lock == 127 then -128 else lock + 1;
      }
    }

    /** xQueueGenericSendFromISR for a queue that is in no set. */
    method SendInterrupt(item: Item, pos: Position) returns (ok: bool, woken: seq<Task>)
      requires Valid() && |item| == itemSize && (pos == Overwrite ==> length == 1)
      modifies this, storage
      ensures Valid() && ok == HasRoom(old(Val()), pos)
      ensures Val() == if ok then SendFromISR(old(Val()), item, Effective(pos, itemSize)) else old(Val())
      ensures ok <==> old(messagesWaiting) < length || pos == Overwrite
      ensures ok && (pos == SendToBack || itemSize == 0) ==> Contents() == old(Contents()) + [item]
      ensures ok && pos == SendToFront && itemSize > 0 ==> Contents() == [item] + old(Contents())
      ensures ok && pos == Overwrite && itemSize > 0 ==> Contents() == [item]
      ensures !ok ==> Contents() == old(Contents())
      // on an unlocked queue the first receiver is woken, on a locked one the post is counted
      ensures woken + toReceive == old(toReceive)
      ensures |woken| == if ok && old(txLock) == UNLOCKED then Min(1, |old(toReceive)|) else 0
      ensures txLock == if ok && old(txLock) != UNLOCKED then Increment8(old(txLock)) else old(txLock)
      ensures rxLock == old(rxLock) && toSend == old(toSend)
    {
      hide Items, Slot, Offset;
      ok, woken := false, [];
      if messagesWaiting < length || pos == Overwrite {
        woken := Post(item, pos);
        ok := true;
      }
    }

    /** prvNotifyQueueSetContainer, with this queue as the set.  Unlike a send it does nothing
        when the set is full, whatever the position; and nothing keeps it from overwriting a set
        that is longer than 1, which leaves a gap if there are handles in it. */
    method NotifyContainer(handle: Item, pos: Position) returns (woken: seq<Task>)
      requires Valid() && |handle| == itemSize > 0
      modifies this, storage
      ensures Laid() && Val() == Notify(old(Val()), handle, pos)
      ensures Valid() <==> old(messagesWaiting == length || NoGap(pos))
      ensures old(messagesWaiting) < length && pos == SendToBack ==> Contents() == old(Contents()) + [handle]
      ensures old(messagesWaiting) < length && pos == SendToFront ==> Contents() == [handle] + old(Contents())
      ensures old(messagesWaiting) == length ==> Contents() == old(Contents())
      ensures woken + toReceive == old(toReceive)
      ensures |woken| == if old(messagesWaiting) < length && old(txLock) == UNLOCKED then Min(1, |old(toReceive)|) else 0
      ensures txLock == if old(messagesWaiting) < length && old(txLock) != UNLOCKED then Increment8(old(txLock)) else old(txLock)
      ensures rxLock == old(rxLock) && toSend == old(toSend)
    {
      hide Items, Slot, Offset;
      woken := [];
      if messagesWaiting < length {
        woken := Post(handle, pos);
      }
    }

    /** xQueueGiveFromISR: the count goes up without going through the copy routine. */
    method GiveInterrupt() returns (ok: bool, woken: seq<Task>)
      requires Valid() && itemSize == 0
      modifies this
      ensures Valid() && ok == HasRoom(old(Val()), SendToBack)
      ensures Val() == if ok then SendFromISR(old(Val()), [], SendToBack) else old(Val())
      ensures ok <==> old(messagesWaiting) < length
      ensures messagesWaiting == old(messagesWaiting) + if ok then 1 else 0
      ensures woken + toReceive == old(toReceive)
      ensures |woken| == if ok && old(txLock) == UNLOCKED then Min(1, |old(toReceive)|) else 0
      ensures txLock == if ok && old(txLock) != UNLOCKED then Increment8(old(txLock)) else old(txLock)
      ensures rxLock == old(rxLock) && toSend == old(toSend)
    {
      hide Items, Slot, Offset;
      ok, woken := false, [];
      if messagesWaiting < length {
        var lock := txLock;
        CountItem();
        if lock == UNLOCKED {
          woken := RemoveFromReceivers();
        } else {
          txLock := if lock == 127 then -128 else lock + 1;
        }
        ok := true;
      }
    }

    // removing the first item, as the receiving functions do
    method TakeItem() returns (item: Item)
      requires Valid() && messagesWaiting > 0
      modifies this`readFrom, this`slot, this`messagesWaiting
      ensures Valid() && old(Contents()) == [item] + Contents()
    {
      item := CopyDataFromQueue();
      messagesWaiting := messagesWaiting - 1;
    }

    /** The same removal as xQueueCRReceive and xQueueCRReceiveFromISR write it out. */
    method CoRoutineTakeItem() returns (item: Item)
      requires Valid() && messagesWaiting > 0
      modifies this`readFrom, this`slot, this`messagesWaiting
      ensures Valid() && old(Contents()) == [item] + Contents()
    {
      hide Items, Slot, Offset, Cell;
      ghost var was := slot;
      item := ReadNext();
      SlotFrom(was, messagesWaiting, length);
      ItemsFrom(storage[..], length, itemSize, was, messagesWaiting - 1);
      messagesWaiting := messagesWaiting - 1;
    }

    /** The critical section of xQueueReceive, and of xQueueSemaphoreTake on a semaphore. */
    method ReceiveCritical() returns (item: Option<Item>, woken: seq<Task>)
      requires Valid()
      modifies this
      ensures Valid()
      ensures old(Contents()) == [] ==> item == None && woken == [] && Val() == old(Val())
      ensures old(Contents()) != [] ==>
                item == Some(old(Contents())[0]) && woken == Head(old(toSend)) && Val() == Receive(old(Val()))
      ensures old(Contents()) != [] ==> Contents() == old(Contents())[1..] && |woken| == Min(1, |old(toSend)|)
      ensures woken + toSend == old(toSend) && toReceive == old(toReceive)
      ensures rxLock == old(rxLock) && txLock == old(txLock)
    {
      hide Items, Slot, Offset;
      item, woken := None, [];
      if messagesWaiting > 0 {
        var x := TakeItem();
        item := Some(x);
        woken := RemoveFromSenders();
      }
    }

    /** xQueueReceiveFromISR */
    method ReceiveInterrupt() returns (item: Option<Item>, woken: seq<Task>)
      requires Valid()
      modifies this
      ensures Valid()
      ensures old(Contents()) == [] ==> item == None && woken == [] && Val() == old(Val())
      ensures old(Contents()) != [] ==>
                && item == Some(old(Contents())[0]) && Val() == ReceiveFromISR(old(Val()))
                && woken == if old(rxLock) == UNLOCKED then Head(old(toSend)) else []
      // on an unlocked queue the first sender is woken, on a locked one the removal is counted
      ensures old(Contents()) != [] ==>
        && Contents() == old(Contents())[1..]
        && |woken| == (if old(rxLock) == UNLOCKED then Min(1, |old(toSend)|) else 0)
        && rxLock == (if old(rxLock) == UNLOCKED then UNLOCKED else Increment8(old(rxLock)))
      ensures woken + toSend == old(toSend) && toReceive == old(toReceive) && txLock == old(txLock)
    {
      hide Items, Slot, Offset;
      item, woken := None, [];
      if messagesWaiting > 0 {
        var lock := rxLock;
        var x := TakeItem();
        item := Some(x);
        if lock == UNLOCKED {
          woken := RemoveFromSenders();
        } else {
          rxLock := if lock == 127 then -128 else lock + 1;
        }
      }
    }

    // reading the first item and putting the read offset back, as the peeking functions do
    method LookAtItem() returns (item: Item)
      requires Valid() && messagesWaiting > 0
      modifies this`readFrom, this`slot
      ensures Valid() && readFrom == old(readFrom) && slot == old(slot) && item == old(Contents())[0]
    {
      var original := readFrom;
      ghost var was := slot;
      item := CopyDataFromQueue();
      readFrom := original;
      slot := was;
    }

    /** The critical section of xQueuePeek. */
    method PeekCritical() returns (item: Option<Item>, woken: seq<Task>)
      requires Valid()
      modifies this
      ensures Valid()
      ensures old(Contents()) == [] ==> item == None && woken == [] && Val() == old(Val())
      ensures old(Contents()) != [] ==>
                item == Some(old(Contents())[0]) && woken == Head(old(toReceive)) && Val() == Peek(old(Val()))
      ensures Contents() == old(Contents()) && rxLock == old(rxLock) && txLock == old(txLock) && toSend == old(toSend)
      ensures woken + toReceive == old(toReceive)
      ensures |woken| == if old(Contents()) == [] then 0 else Min(1, |old(toReceive)|)
    {
      hide Items, Slot, Offset;
      item, woken := None, [];
      if messagesWaiting > 0 {
        var x := LookAtItem();
        item := Some(x);
        woken := RemoveFromReceivers();
      }
    }

    /** xQueuePeekFromISR */
    method PeekInterrupt() returns (item: Option<Item>)
      requires Valid()
      modifies this
      ensures Valid() && Val() == old(Val())
      ensures item == if old(Contents()) == [] then None else Some(old(Contents())[0])
    {
      item := None;
      if messagesWaiting > 0 {
        var x := LookAtItem();
        item := Some(x);
      }
    }

    /** prvLockQueue */
    method LockQueue()
      requires Valid()
      modifies this`rxLock, this`txLock
      ensures Valid() && Val() == Lock(old(Val()))
      // both counters are now locked, and what they had counted is not lost
      ensures rxLock != UNLOCKED && Pos(rxLock) == Pos(old(rxLock))
      ensures txLock != UNLOCKED && Pos(txLock) == Pos(old(txLock))
    {
      if rxLock == UNLOCKED {
        rxLock := LOCKED_UNMODIFIED;
      }
      if txLock == UNLOCKED {
        txLock := LOCKED_UNMODIFIED;
      }
    }

    /** The first half of prvUnlockQueue for a queue that is in no set. */
    method UnlockTransmit() returns (woken: seq<Task>)
      requires Valid()
      modifies this`txLock, this`toReceive
      ensures Valid() && Val() == UnlockTx(old(Val()))
      ensures woken + toReceive == old(toReceive)
      ensures |woken| == Min(Pos(old(txLock)), |old(toReceive)|) && txLock == UNLOCKED
    {
      hide Items, Slot, Offset;
      var lock := txLock;
      woken := [];
      while lock > LOCKED_UNMODIFIED
        invariant |woken| + Pos(lock) == Pos(txLock) && txLock == old(txLock) && |woken| <= |old(toReceive)|
        invariant woken == old(toReceive)[..|woken|] && toReceive == old(toReceive)[|woken|..]
      {
        if toReceive == [] {
          break;
        }
        woken := woken + toReceive[..1];
        toReceive := toReceive[1..];
        lock := lock - 1;
      }
      assert |woken| == Min(Pos(old(txLock)), |old(toReceive)|);
      txLock := UNLOCKED;
    }

    /** The second half of prvUnlockQueue. */
    method UnlockReceive() returns (woken: seq<Task>)
      requires Valid()
      modifies this`rxLock, this`toSend
      ensures Valid() && Val() == UnlockRx(old(Val()))
      ensures woken + toSend == old(toSend)
      ensures |woken| == Min(Pos(old(rxLock)), |old(toSend)|) && rxLock == UNLOCKED
    {
      hide Items, Slot, Offset;
      var lock := rxLock;
      woken := [];
      while lock > LOCKED_UNMODIFIED
        invariant |woken| + Pos(lock) == Pos(rxLock) && rxLock == old(rxLock) && |woken| <= |old(toSend)|
        invariant woken == old(toSend)[..|woken|] && toSend == old(toSend)[|woken|..]
      {
        if toSend != [] {
          woken := woken + toSend[..1];
          toSend := toSend[1..];
          lock := lock - 1;
        } else {
          break;
        }
      }
      assert |woken| == Min(Pos(old(rxLock)), |old(toSend)|);
      rxLock := UNLOCKED;
    }

    // ---- the same critical sections for a member of a queue set

    /** The critical section of xQueueGenericSend for a member: the set is told instead of the
        tasks waiting on the member. */
    method SendCriticalInSet(item: Item, pos: Position, container: Queue, handle: Item)
      returns (ok: bool, woken: seq<Task>)
      requires Valid() && |item| == itemSize && (pos == Overwrite ==> length == 1)
      requires container.Valid() && container.itemSize == |handle| > 0
      requires container != this && container.storage != storage
      modifies this, storage, container, container.storage
      ensures Valid() && container.Laid() && ok == HasRoom(old(Val()), pos)
      ensures container.Valid() <==> !ok || old(container.messagesWaiting == container.length || container.NoGap(pos))
      ensures Val() == if ok then old(Val()).(items := Put(old(Contents()), item, Effective(pos, itemSize))) else old(Val())
      ensures container.Val() == if ok then Notify(old(container.Val()), handle, pos) else old(container.Val())
      ensures woken == if ok && old(container.messagesWaiting < container.length && container.txLock == UNLOCKED)
                       then Head(old(container.toReceive)) else []
      ensures ok && old(container.messagesWaiting) < container.length && pos == SendToBack ==>
        container.Contents() == old(container.Contents()) + [handle]
      ensures ok && old(container.messagesWaiting) < container.length && pos == SendToFront ==>
        container.Contents() == [handle] + old(container.Contents())
      ensures ok && pos == SendToBack ==> Contents() == old(Contents()) + [item]
      ensures ok && pos == SendToFront && itemSize > 0 ==> Contents() == [item] + old(Contents())
      ensures toReceive == old(toReceive)
    {
      hide Items, Slot, Offset;
      ok, woken := false, [];
      if messagesWaiting < length || pos == Overwrite {
        CopyDataToQueue(item, pos);
        woken := container.NotifyContainer(handle, pos);
        ok := true;
      }
    }

    /** xQueueGenericSendFromISR for a member: while the member is locked the post is counted and
        the set is told when the member is unlocked. */
    method SendInterruptInSet(item: Item, pos: Position, container: Queue, handle: Item)
      returns (ok: bool, woken: seq<Task>)
      requires Valid() && |item| == itemSize && (pos == Overwrite ==> length == 1)
      requires container.Valid() && container.itemSize == |handle| > 0
      requires container != this && container.storage != storage
      modifies this, storage, container, container.storage
      ensures Valid() && container.Laid() && ok == HasRoom(old(Val()), pos)
      ensures container.Valid() <==>
        !ok || old(txLock) != UNLOCKED || old(container.messagesWaiting == container.length || container.NoGap(pos))
      ensures var tells := ok && old(txLock) == UNLOCKED;
        && Val() == (if !ok then old(Val())
                     else old(Val()).(items := Put(old(Contents()), item, Effective(pos, itemSize)),
                                      txLock := if tells then UNLOCKED else Increment8(old(txLock))))
        && container.Val() == (if tells then Notify(old(container.Val()), handle, pos) else old(container.Val()))
        && woken == (if tells && old(container.messagesWaiting < container.length && container.txLock == UNLOCKED)
                     then Head(old(container.toReceive)) else [])
      ensures ok && old(txLock) == UNLOCKED && old(container.messagesWaiting) < container.length && pos == SendToBack ==>
        container.Contents() == old(container.Contents()) + [handle]
      ensures ok && old(txLock) == UNLOCKED && old(container.messagesWaiting) < container.length && pos == SendToFront ==>
        container.Contents() == [handle] + old(container.Contents())
      ensures ok && pos == SendToBack ==> Contents() == old(Contents()) + [item]
      ensures ok && pos == SendToFront && itemSize > 0 ==> Contents() == [item] + old(Contents())
      ensures toReceive == old(toReceive)
      ensures txLock == if ok && old(txLock) != UNLOCKED then Increment8(old(txLock)) else old(txLock)
    {
      hide Items, Slot, Offset, Put, Notify;
      ok, woken := false, [];
      if messagesWaiting < length || pos == Overwrite {
        var lock := txLock;
        CopyDataToQueue(item, pos);
        if lock == UNLOCKED {
          woken := container.NotifyContainer(handle, pos);
        } else {
          txLock := if lock == 127 then -128 else lock + 1;
        }
        ok := true;
      }
    }

    /** The first half of prvUnlockQueue for a member: the set is told once for each item
        posted while the member was locked. */
    method UnlockTransmitInSet(container: Queue, handle: Item)
      requires Valid() && container.Valid() && container.itemSize == |handle| > 0
      requires container != this && container.storage != storage
      modifies this`txLock, container, container.storage
      ensures Valid() && Val() == old(Val()).(txLock := UNLOCKED)
      ensures container.Valid() && container.Val() == NotifyTimes(old(container.Val()), handle, Pos(old(txLock)))
      ensures container.Contents() == old(container.Contents())
        + seq(Min(Pos(old(txLock)), Pos(container.length - old(container.messagesWaiting))), _ => handle)
    {
      hide Items, Slot, Offset;
      var lock := txLock;
      ghost var k := 0;
      while lock > LOCKED_UNMODIFIED
        invariant k + Pos(lock) == Pos(old(txLock)) && txLock == old(txLock)
        invariant Valid() && Val() == old(Val())
        invariant container.Valid() && container.Val() == NotifyTimes(old(container.Val()), handle, k)
        decreases lock
      {
        var woken := container.NotifyContainer(handle, SendToBack);
        lock := lock - 1;
        k := k + 1;
      }
      txLock := UNLOCKED;
      ToldTimes(old(container.Val()), handle, Pos(old(txLock)));
      hide NotifyTimes;
    }
  }
}
