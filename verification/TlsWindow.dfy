/**
 Receive-window accounting of the TLS layer (lwipApps/altcp_tls/altcp_tls_mbedtls.c).

 Every byte the TLS engine pulls from the inner TCP connection must in the end be credited back
 to that connection's receive window: protocol overhead at the end of each record, application
 bytes when the application acknowledges them.  `Ledger` holds the counters of the source and
 two totals that the source does not keep; the lemmas say exactly when each event keeps it
 balanced.  Class `Connection` holds the callbacks, with the engine and the application as
 parameters that may choose any behaviour.
 */
module TlsWindow {
  import opened Common

  function Max0(a: int): nat {
    if a < 0 then 0 else a
  }

  // ---------------------------------------------------------------- the ledger

  /** pulled and credited are totals over the connection; read is bio_bytes_read, appl is
      bio_bytes_appl, held the bytes in rx_app and unrecved is rx_passed_unrecved. */
  datatype Ledger = Ledger(pulled: int, credited: int, read: int, appl: int, held: int, unrecved: int) {
    /** Every byte pulled is credited, part of an unfinished record, held, or with the application. */
    predicate Balanced() {
      pulled == credited + (read - appl) + held + unrecved
    }
  }

  const NEW := Ledger(0, 0, 0, 0, 0, 0)

  /** altcp_mbedtls_bio_recv hands n bytes to the engine. */
  function Pull(l: Ledger, n: nat): Ledger {
    l.(pulled := l.pulled + n, read := l.read + n)
  }

  /** During the handshake everything read is credited at once. */
  function Settle(l: Ledger): Ledger {
    l.(credited := l.credited + Max0(l.read), read := 0)
  }

  /** The engine has decrypted n bytes; last says that the record is done. */
  function Decrypt(l: Ledger, n: nat, last: bool): Ledger {
    var l1 := l.(appl := l.appl + n, held := l.held + n);
    if last then l1.(credited := l1.credited + Max0(l1.read - l1.appl), read := 0, appl := 0) else l1
  }

  /** altcp_mbedtls_recved: what is acknowledged beyond what was passed on does not count. */
  function Ack(l: Ledger, n: nat): Ledger {
    var k := if n > l.unrecved then l.unrecved else n;
    l.(unrecved := l.unrecved - k, credited := l.credited + k)
  }

  function Acks(l: Ledger, ns: seq<nat>): Ledger {
    if ns == [] then l else Ack(Acks(l, ns[..|ns| - 1]), ns[|ns| - 1])
  }

  function Sum(ns: seq<nat>): nat {
    if ns == [] then 0 else Sum(ns[..|ns| - 1]) + ns[|ns| - 1]
  }

  /** altcp_mbedtls_pass_rx_data with a callback: the application may acknowledge while it is
      being called, and takes the data or refuses it. */
  function Deliver(l: Ledger, acks: seq<nat>, taken: bool): Ledger {
    var l1 := Acks(l.(unrecved := l.unrecved + l.held), acks);
    if taken then l1.(held := 0) else l1.(unrecved := Max0(l1.unrecved - l.held))
  }

  /** ... and without one: the data is freed. */
  function Drop(l: Ledger): Ledger {
    l.(held := 0)
  }

  lemma PullBalanced(l: Ledger, n: nat)
    ensures Pull(l, n).Balanced() <==> l.Balanced()
  {
  }

  lemma SettleBalanced(l: Ledger)
    requires l.Balanced()
    ensures Settle(l).Balanced() <==> l.read >= 0
    ensures Settle(l).read == 0
  {
  }

  /** A record may not yield more bytes than were read for it: that is the assertion
      "bogus byte counts". */
  lemma DecryptBalanced(l: Ledger, n: nat, last: bool)
    requires l.Balanced()
    ensures Decrypt(l, n, last).Balanced() <==> !last || l.appl + n <= l.read
  {
  }

  lemma AckBalanced(l: Ledger, n: nat)
    requires l.unrecved >= 0
    ensures Ack(l, n).Balanced() <==> l.Balanced()
    ensures Ack(l, n).unrecved == Max0(l.unrecved - n)
  {
  }

  lemma {:induction false} AcksBalanced(l: Ledger, ns: seq<nat>)
    requires l.unrecved >= 0
    ensures Acks(l, ns).Balanced() <==> l.Balanced()
    ensures Acks(l, ns).unrecved == Max0(l.unrecved - Sum(ns))
    ensures Acks(l, ns).held == l.held && Acks(l, ns).read == l.read && Acks(l, ns).appl == l.appl
    ensures Acks(l, ns).pulled == l.pulled && Acks(l, ns).credited >= l.credited
    ensures Acks(l, ns).credited + Acks(l, ns).unrecved == l.credited + l.unrecved
  {
    if ns != [] {
      AcksBalanced(l, ns[..|ns| - 1]);
      AckBalanced(Acks(l, ns[..|ns| - 1]), ns[|ns| - 1]);
    }
  }

  /** An application that refuses data may have acknowledged meanwhile, but not more than it had
      been given before. */
  lemma DeliverBalanced(l: Ledger, acks: seq<nat>, taken: bool)
    requires l.Balanced() && l.unrecved >= 0 && l.held > 0
    ensures Deliver(l, acks, taken).Balanced() <==> taken || Sum(acks) <= l.unrecved
    ensures Deliver(l, acks, taken).unrecved >= 0
  {
    AcksBalanced(l.(unrecved := l.unrecved + l.held), acks);
  }

  /** Only acknowledgements credit application bytes, and never more than the application has:
      taken data moves to the application, refused data stays, and nothing else changes. */
  lemma DeliverEffect(l: Ledger, acks: seq<nat>, taken: bool)
    requires l.unrecved >= 0 && l.held > 0
    ensures var r := Deliver(l, acks, taken);
            && r.credited == l.credited + Min(Sum(acks), l.unrecved + l.held)
            && r.held == (if taken then 0 else l.held)
            && r.unrecved == (if taken then Max0(l.unrecved + l.held - Sum(acks)) else Max0(l.unrecved - Sum(acks)))
            && r.pulled == l.pulled && r.read == l.read && r.appl == l.appl
  {
    AcksBalanced(l.(unrecved := l.unrecved + l.held), acks);
  }

  /** Without a receive callback data is lost to the ledger. */
  lemma DropBalanced(l: Ledger)
    requires l.Balanced()
    ensures Drop(l).Balanced() <==> l.held == 0
  {
  }

  // ---------------------------------------------------------------- every run

  datatype Event =
    | EvPull(n: nat)
    | EvSettle
    | EvDecrypt(n: nat, last: bool)
    | EvAck(n: nat)
    | EvDeliver(acks: seq<nat>, taken: bool)
    | EvDrop

  function Apply(l: Ledger, e: Event): Ledger {
    match e
    case EvPull(n) => Pull(l, n)
    case EvSettle => Settle(l)
    case EvDecrypt(n, last) => Decrypt(l, n, last)
    case EvAck(n) => Ack(l, n)
    case EvDeliver(acks, taken) => Deliver(l, acks, taken)
    case EvDrop => Drop(l)
  }

  function Replay(log: seq<Event>): Ledger {
    if log == [] then NEW else Apply(Replay(log[..|log| - 1]), log[|log| - 1])
  }

  /** What the source itself sees to: data is delivered only when there is some, and during the
      handshake nothing has been decrypted. */
  predicate Orderly(l: Ledger, e: Event) {
    match e
    case EvSettle => l.appl == 0
    case EvDeliver(_, _) => l.held > 0
    case EvDrop => l.held > 0
    case _ => true
  }

  /** The engine's side of the bargain: a record that is done has not yielded more bytes than
      were read for it. */
  predicate EngineFair(l: Ledger, e: Event) {
    e.EvDecrypt? && e.last ==> l.appl + e.n <= l.read
  }

  /** The application's side: it is there, and does not acknowledge data that it then refuses. */
  predicate AppFair(l: Ledger, e: Event) {
    match e
    case EvDeliver(acks, taken) => taken || Sum(acks) <= l.unrecved
    case EvDrop => false
    case _ => true
  }

  predicate OrderlyLog(log: seq<Event>) {
    log == [] || (OrderlyLog(log[..|log| - 1]) && Orderly(Replay(log[..|log| - 1]), log[|log| - 1]))
  }

  predicate EngineFairLog(log: seq<Event>) {
    log == [] || (EngineFairLog(log[..|log| - 1]) && EngineFair(Replay(log[..|log| - 1]), log[|log| - 1]))
  }

  predicate AppFairLog(log: seq<Event>) {
    log == [] || (AppFairLog(log[..|log| - 1]) && AppFair(Replay(log[..|log| - 1]), log[|log| - 1]))
  }

  predicate Ranges(l: Ledger) {
    0 <= l.appl && 0 <= l.read && l.held >= 0 && l.unrecved >= 0
  }

  /** The counters stay in range whatever engine and application do ... */
  lemma EventKeepsRanges(l: Ledger, e: Event)
    requires Ranges(l) && Orderly(l, e)
    ensures Ranges(Apply(l, e)) && Apply(l, e).credited >= l.credited
  {
    if e.EvDeliver? {
      AcksBalanced(l.(unrecved := l.unrecved + l.held), e.acks);
    }
  }

  /** ... and an event keeps the balance exactly when both are fair. */
  lemma EventBalance(l: Ledger, e: Event)
    requires Ranges(l) && Orderly(l, e) && l.Balanced()
    ensures Apply(l, e).Balanced() <==> EngineFair(l, e) && AppFair(l, e)
  {
    match e
    case EvPull(n) => PullBalanced(l, n);
    case EvSettle => SettleBalanced(l);
    case EvDecrypt(n, last) => DecryptBalanced(l, n, last);
    case EvAck(n) => AckBalanced(l, n);
    case EvDeliver(acks, taken) => DeliverBalanced(l, acks, taken);
    case EvDrop => DropBalanced(l);
  }

  lemma {:induction false} RunKeepsRanges(log: seq<Event>)
    requires OrderlyLog(log)
    ensures Ranges(Replay(log))
  {
    if log != [] {
      RunKeepsRanges(log[..|log| - 1]);
      EventKeepsRanges(Replay(log[..|log| - 1]), log[|log| - 1]);
    }
  }

  /** In every run of fair engines and applications no window is lost and none is created: what
      has not been credited is exactly what is in the unfinished record, held, or with the
      application; so, unless the engine is ahead of itself in the middle of a record, the
      credit never exceeds what was pulled, and catches up exactly when all three are empty. */
  lemma {:induction false} WindowConserved(log: seq<Event>)
    requires OrderlyLog(log) && EngineFairLog(log) && AppFairLog(log)
    ensures var l := Replay(log);
      && l.Balanced() && Ranges(l)
      && (l.appl <= l.read ==>
            && l.credited <= l.pulled
            && (l.read == l.appl && l.held == 0 && l.unrecved == 0 <==> l.credited == l.pulled))
  {
    RunKeepsRanges(log);
    if log != [] {
      WindowConserved(log[..|log| - 1]);
      RunKeepsRanges(log[..|log| - 1]);
      EventBalance(Replay(log[..|log| - 1]), log[|log| - 1]);
    }
  }

  lemma Appended(log: seq<Event>, e: Event)
    ensures Replay(log + [e]) == Apply(Replay(log), e)
    ensures OrderlyLog(log + [e]) <==> OrderlyLog(log) && Orderly(Replay(log), e)
    ensures EngineFairLog(log + [e]) <==> EngineFairLog(log) && EngineFair(Replay(log), e)
    ensures AppFairLog(log + [e]) <==> AppFairLog(log) && AppFair(Replay(log), e)
  {
    assert (log + [e])[..|log|] == log;
  }

  /** The first unfair act, of the engine or of the application, breaks the balance. */
  lemma UnfairActBreaks(log: seq<Event>, e: Event)
    requires OrderlyLog(log + [e]) && EngineFairLog(log) && AppFairLog(log)
    ensures Replay(log + [e]).Balanced() <==> EngineFairLog(log + [e]) && AppFairLog(log + [e])
  {
    hide OrderlyLog, EngineFairLog, AppFairLog, Replay, Apply;
    Appended(log, e);
    WindowConserved(log);
    EventBalance(Replay(log), e);
  }

  /** An engine that makes 10 bytes of a record of 5, and an application that acknowledges 5
      bytes and then refuses them: both end up with more window than they are due.  Without a
      receive callback there is less. */
  lemma UnfairActs()
    ensures var l := Apply(Apply(NEW, EvPull(5)), EvDecrypt(10, true));
            !EngineFair(Apply(NEW, EvPull(5)), EvDecrypt(10, true)) && l.held > l.pulled - l.credited
    ensures var l := Apply(Apply(Apply(NEW, EvPull(9)), EvDecrypt(5, true)), EvDeliver([5], false));
            l.credited + l.held > l.pulled && !l.Balanced()
    ensures var l := Apply(Apply(Apply(NEW, EvPull(9)), EvDecrypt(5, true)), EvDrop);
            l.credited + l.held + l.unrecved < l.pulled && !l.Balanced()
  {
    var l := Apply(Apply(NEW, EvPull(9)), EvDecrypt(5, true));
    assert Acks(l.(unrecved := 5), [5]) == Ack(Acks(l.(unrecved := 5), [5][..0]), 5);
    assert l.(unrecved := l.unrecved + l.held) == l.(unrecved := 5);
  }

  // ---------------------------------------------------------------- where the credit comes from

  /** Totals that are counted from the events one by one, without the ledger: bytes pulled, bytes
      that the handshake read, overhead of finished records and bytes acknowledged; and what is
      read and made of the open record, held, and with the application. */
  datatype Tally = Tally(
    pulled: int, handshake: int, overhead: int, acknowledged: int,
    read: int, made: int, held: int, passed: int)

  function Count(log: seq<Event>): Tally {
    if log == [] then Tally(0, 0, 0, 0, 0, 0, 0, 0)
    else
      var t := Count(log[..|log| - 1]);
      match log[|log| - 1]
      case EvPull(n) => t.(pulled := t.pulled + n, read := t.read + n)
      case EvSettle => t.(handshake := t.handshake + t.read, read := 0)
      case EvDecrypt(n, last) =>
        if last then t.(overhead := t.overhead + Max0(t.read - t.made - n), read := 0, made := 0, held := t.held + n)
        else t.(made := t.made + n, held := t.held + n)
      case EvAck(n) => t.(acknowledged := t.acknowledged + Min(n, t.passed), passed := Max0(t.passed - n))
      case EvDeliver(acks, taken) =>
        t.(acknowledged := t.acknowledged + Min(Sum(acks), t.passed + t.held),
           held := if taken then 0 else t.held,
           passed := if taken then Max0(t.passed + t.held - Sum(acks)) else Max0(t.passed - Sum(acks)))
      case EvDrop => t.(held := 0)
  }

  predicate Agrees(l: Ledger, t: Tally) {
    && l.pulled == t.pulled && l.credited == t.handshake + t.overhead + t.acknowledged
    && l.read == t.read && l.appl == t.made && l.held == t.held && l.unrecved == t.passed
  }

  /** In every run, whatever engine and application do, what has been credited is what the
      handshake read, the overhead of the finished records, and what the application has
      acknowledged, and no more. */
  lemma {:induction false} CreditComesFrom(log: seq<Event>)
    requires OrderlyLog(log)
    ensures Agrees(Replay(log), Count(log))
  {
    if log != [] {
      var most, e := log[..|log| - 1], log[|log| - 1];
      CreditComesFrom(most);
      RunKeepsRanges(most);
      var l := Replay(most);
      assert Replay(log) == Apply(l, e);
      if e.EvDeliver? {
        DeliverEffect(l, e.acks, e.taken);
      }
      hide Replay, Acks, Sum, OrderlyLog;
    }
  }

  // ---------------------------------------------------------------- the callbacks

  datatype Err = ErrOk | ErrRefused | ErrAbort | ErrNotReady

  /** What the application does when it is called: acknowledgements, then its answer. */
  datatype AppCall = AppCall(acks: seq<nat>, answer: Err)

  /** What the engine does in mbedtls_ssl_read: the sizes it asks bio_recv for, then a negative
      code or the number of bytes decrypted, and what it says is left of the record. */
  datatype EngineRead = EngineRead(asks: seq<nat>, failed: bool, reconnect: bool, wanted: nat, avail: nat)

  /** One turn of the loop in altcp_mbedtls_handle_rx_appldata. */
  datatype Turn = Turn(buffer: bool, engine: EngineRead, app: AppCall)

  datatype Handshake = Done | Wants | Fails

  /** A buffer of the inner connection, or the end of its stream. */
  datatype Arrival = Data(len: nat) | Fin

  function Total(chain: seq<nat>): nat {
    if chain == [] then 0 else chain[0] + Total(chain[1..])
  }

  predicate Narrow(ns: seq<nat>) {
    forall i :: 0 <= i < |ns| ==> ns[i] <= 0xFFFF
  }

  lemma SumAppend(ns: seq<nat>, n: nat)
    ensures Sum(ns + [n]) == Sum(ns) + n
  {
    assert (ns + [n])[..|ns|] == ns;
  }

  lemma {:induction false} TotalAppend(ns: seq<nat>, n: nat)
    ensures Total(ns + [n]) == Total(ns) + n
  {
    if ns == [] {
      assert [n][1..] == [];
    } else {
      TotalAppend(ns[1..], n);
      assert (ns + [n])[1..] == ns[1..] + [n];
    }
  }

  // what is left of a chain after n bytes from its first buffer
  function After(rx: seq<nat>, n: nat): (left: seq<nat>)
    requires rx != [] && n <= rx[0]
    ensures Total(left) == Total(rx) - n
  {
    if n == rx[0] then rx[1..]
    else
      var left := [rx[0] - n] + rx[1..];
      assert left[1..] == rx[1..];
      left
  }

  /** An event of the engine, or a call of the application as one of the turns describes it. */
  predicate Permitted(e: Event, turns: seq<Turn>, hasRecv: bool) {
    match e
    case EvPull(_) => true
    case EvSettle => true
    case EvDecrypt(_, _) => true
    case EvDeliver(acks, taken) =>
      hasRecv && exists k :: 0 <= k < |turns| && turns[k].app.acks == acks
                             && (turns[k].app.answer == ErrOk) == taken
    case EvDrop => !hasRecv
    case _ => false
  }

  predicate Grown(before: seq<Event>, after: seq<Event>, turns: seq<Turn>, hasRecv: bool) {
    before <= after && forall i :: |before| <= i < |after| ==> Permitted(after[i], turns, hasRecv)
  }

  /** The events of one turn, from log a to log b: a pull for each time the engine asked, then
      what was decrypted if anything was, then the delivery of what is held if there is any.
      The loop goes on exactly when something was decrypted and not refused. */
  predicate TurnDone(a: seq<Event>, b: seq<Event>, turn: Turn, pool: nat, hasRecv: bool, more: bool) {
    if !turn.buffer then b == a && !more
    else
      var k := |a| + |turn.engine.asks|;
      && a <= b && k <= |b| && (forall i :: |a| <= i < k ==> b[i].EvPull?)
      && if turn.engine.failed then |b| == k && !more
         else ReadDone(b[..k], b, turn, pool, hasRecv, more)
  }

  predicate ReadDone(pulls: seq<Event>, b: seq<Event>, turn: Turn, pool: nat, hasRecv: bool, more: bool) {
    var n := Min(turn.engine.wanted, pool);
    var dec := if n > 0 then pulls + [EvDecrypt(n, turn.engine.avail == 0)] else pulls;
    && b == (if Replay(dec).held <= 0 then dec
             else if hasRecv then dec + [EvDeliver(turn.app.acks, turn.app.answer == ErrOk)]
             else dec + [EvDrop])
    && (more <==> n > 0 && (!hasRecv || turn.app.answer == ErrOk))
  }

  /** A turn aborts when the engine reports a reconnect, or when the application, told of data or
      of the end of the stream, answers that it aborted.  All other answers are hidden. */
  predicate Aborts(turn: Turn, hasRecv: bool, told: bool) {
    turn.buffer && if turn.engine.failed then turn.engine.reconnect else hasRecv && turn.app.answer == ErrAbort && told
  }

  // an application that has been called before is told of the end, and may abort
  function FinAnswer(calledBefore: bool, hasRecv: bool, last: Err): Err {
    if calledBefore && hasRecv && last == ErrAbort then ErrAbort else ErrOk
  }

  lemma ReadExtends(pulls: seq<Event>, b: seq<Event>, turn: Turn, pool: nat, hasRecv: bool, more: bool)
    requires ReadDone(pulls, b, turn, pool, hasRecv, more)
    ensures pulls <= b
  {
    hide Replay;
  }

  /** A run of the loop: every turn but the last goes on, and the last one stops it unless
      there are no more turns. */
  predicate TurnsDone(logs: seq<seq<Event>>, turns: seq<Turn>, pool: nat, hasRecv: bool) {
    && 1 <= |logs| <= |turns| + 1
    && (forall k :: 0 <= k < |logs| - 2 ==> TurnDone(logs[k], logs[k + 1], turns[k], pool, hasRecv, true))
    && (|logs| >= 2 ==>
          var k := |logs| - 2;
          || TurnDone(logs[k], logs[k + 1], turns[k], pool, hasRecv, false)
          || (|logs| == |turns| + 1 && TurnDone(logs[k], logs[k + 1], turns[k], pool, hasRecv, true)))
    && (|logs| == 1 ==> |turns| == 0)
  }

  lemma TurnGrows(a: seq<Event>, b: seq<Event>, turn: Turn, pool: nat, hasRecv: bool, more: bool)
    requires TurnDone(a, b, turn, pool, hasRecv, more)
    ensures Grown(a, b, [turn], hasRecv)
  {
    hide Replay;
    assert [turn][0] == turn;
    if turn.buffer && !turn.engine.failed {
      var k := |a| + |turn.engine.asks|;
      forall i | |a| <= i < |b| ensures Permitted(b[i], [turn], hasRecv) {
        if i >= k {
          assert b[i] == EvDrop || b[i].EvDecrypt? || b[i] == EvDeliver([turn][0].app.acks, [turn][0].app.answer == ErrOk);
        }
      }
    }
  }

  lemma GrownSame(log: seq<Event>, turns: seq<Turn>, hasRecv: bool)
    ensures Grown(log, log, turns, hasRecv)
  {
  }

  lemma GrownAgain(log0: seq<Event>, log1: seq<Event>, log2: seq<Event>, turns: seq<Turn>, hasRecv: bool)
    requires Grown(log0, log1, turns, hasRecv) && Grown(log1, log2, turns, hasRecv)
    ensures Grown(log0, log2, turns, hasRecv)
  {
    assert forall i :: 0 <= i < |log1| ==> log2[i] == log1[i];
  }

  /** A pull for each time the engine asked, and then the credit if there was anything. */
  predicate HandsShaken(a: seq<Event>, b: seq<Event>, asks: seq<nat>) {
    var k := |a| + |asks|;
    && a <= b && k <= |b| && (forall i :: |a| <= i < k ==> b[i].EvPull?)
    && b == if Replay(b[..k]).read == 0 then b[..k] else b[..k] + [EvSettle]
  }

  lemma ShakingGrows(a: seq<Event>, b: seq<Event>, asks: seq<nat>, turns: seq<Turn>, hasRecv: bool)
    requires HandsShaken(a, b, asks)
    ensures Grown(a, b, turns, hasRecv)
  {
    hide Replay;
  }

  lemma GrownMore(log0: seq<Event>, log1: seq<Event>, log2: seq<Event>, turns: seq<Turn>, k: nat, hasRecv: bool)
    requires k < |turns| && Grown(log0, log1, turns, hasRecv) && Grown(log1, log2, [turns[k]], hasRecv)
    ensures Grown(log0, log2, turns, hasRecv)
  {
    forall i | |log0| <= i < |log2| ensures Permitted(log2[i], turns, hasRecv) {
      if i >= |log1| {
        assert Permitted(log2[i], [turns[k]], hasRecv);
      } else {
        assert log2[i] == log1[i];
      }
    }
  }

  /** The application has been called with data. */
  predicate Called(log: seq<Event>) {
    log != [] && (log[|log| - 1].EvDeliver? || Called(log[..|log| - 1]))
  }

  lemma CalledNext(log: seq<Event>, e: Event)
    ensures Called(log + [e]) <==> Called(log) || e.EvDeliver?
  {
    assert (log + [e])[..|log|] == log;
  }

  lemma {:induction false} CalledMeans(log: seq<Event>)
    ensures Called(log) <==> exists i :: 0 <= i < |log| && log[i].EvDeliver?
  {
    if log != [] {
      CalledMeans(log[..|log| - 1]);
    }
  }

  class Connection {
    const pool: nat                    // size of a receive buffer
    const hasRecv: bool                // the application installed a receive callback
    var rx: seq<nat>                   // lengths of the queued, still encrypted buffers
    var handshakeDone: bool
    var upperCalled: bool
    var closeQueued: bool
    var rxClosed: bool
    var held: nat                      // length of rx_app
    var unrecved: int
    var bioRead: int
    var bioAppl: int
    // what altcp_recved was called with, in order
    var credits: seq<nat>
    ghost var arrived: nat             // bytes received from the inner connection
    ghost var pulled: nat
    ghost var log: seq<Event>

    ghost function Led(): Ledger
      reads this
    {
      Ledger(pulled, Sum(credits), bioRead, bioAppl, held, unrecved)
    }

    /** The counters are what the events so far make them. */
    ghost predicate Valid()
      reads this
    {
      && Led() == Replay(log) && OrderlyLog(log) && Ranges(Led())
      && (!handshakeDone ==> bioAppl == 0 && held == 0) && upperCalled == Called(log)
      && Narrow(credits) && arrived == pulled + Total(rx)
    }

    constructor (pool: nat, hasRecv: bool)
      ensures Valid() && log == [] && rx == [] && !handshakeDone
      ensures this.pool == pool && this.hasRecv == hasRecv
    {
      this.pool, this.hasRecv := pool, hasRecv;
      rx, handshakeDone, upperCalled, closeQueued, rxClosed := [], false, false, false, false;
      held, unrecved, bioRead, bioAppl := 0, 0, 0, 0;
      credits, arrived, pulled, log := [], 0, 0, [];
    }

    // altcp_recved on the inner connection, whose argument is 16 bits wide
    method Credit(n: nat)
      requires n <= 0xFFFF && Narrow(credits)
      modifies this`credits
      ensures Narrow(credits) && Sum(credits) == Sum(old(credits)) + n
    {
      SumAppend(credits, n);
      credits := credits + [n];
    }

    /** altcp_mbedtls_lower_recved: credits of at most 65535 that add up. */
    method LowerRecved(count: int)
      requires Narrow(credits)
      modifies this`credits
      ensures Narrow(credits) && Sum(credits) == Sum(old(credits)) + Max0(count)
    {
      var left := count;
      while left > 0
        invariant left < 0 ==> left == count
        invariant Narrow(credits) && Sum(credits) + Max0(left) == Sum(old(credits)) + Max0(count)
      {
        var part := if left <= 0xFFFF then left else 0xFFFF;
        Credit(part);
        left := left - part;
      }
    }

    // the log grows by an event that has just happened
    ghost method Happened(e: Event)
      requires OrderlyLog(log) && Ranges(Replay(log)) && Orderly(Replay(log), e)
      requires Led() == Apply(Replay(log), e) && Narrow(credits) && arrived == pulled + Total(rx)
      requires (!handshakeDone ==> bioAppl == 0 && held == 0) && upperCalled == (Called(log) || e.EvDeliver?)
      modifies this`log
      ensures Valid() && log == old(log) + [e]
    {
      hide Called;
      CalledNext(log, e);
      Appended(log, e);
      EventKeepsRanges(Replay(log), e);
      log := log + [e];
    }

    /** altcp_mbedtls_bio_recv: the answer is the number of bytes copied, or -1 for
        MBEDTLS_ERR_SSL_WANT_READ. */
    method BioRecv(len: nat) returns (ret: int)
      requires Valid()
      modifies this`rx, this`bioRead, this`pulled, this`log
      ensures Valid() && log == old(log) + [EvPull(Max0(ret))] && -1 <= ret <= len
      ensures old(rx == [] || rx == [0]) ==> rx == [] && ret == if closeQueued && !rxClosed then 0 else -1
      ensures old(rx != [] && rx != [0]) ==>
        && ret == Min(len, old(rx)[0])
        && rx == if ret == old(rx)[0] then old(rx)[1..] else [old(rx)[0] - ret] + old(rx)[1..]
    {
      hide Called, OrderlyLog, Replay, Sum;
      assert rx == [0] ==> Total(rx) == 0 + Total(rx[1..]) == 0;
      hide Total;
      if |rx| == 0 || (rx[0] == 0 && |rx| == 1) {
        rx := [];
        ret := if closeQueued && !rxClosed then 0 else -1;
      } else {
        var copy := if len <= rx[0] then len else rx[0];
        rx := After(rx, copy);
        bioRead := bioRead + copy;
        pulled := pulled + copy;
        ret := copy;
      }
      Happened(EvPull(Max0(ret)));
    }

    // a call into the engine: it may call back for encrypted data any number of times
    method EnginePulls(asks: seq<nat>)
      requires Valid()
      modifies this`rx, this`bioRead, this`pulled, this`log
      ensures Valid() && old(log) <= log && |log| == |old(log)| + |asks| && bioRead >= old(bioRead)
      ensures forall i :: |old(log)| <= i < |log| ==> log[i].EvPull?
    {
      for i := 0 to |asks|
        invariant Valid() && old(log) <= log && |log| == |old(log)| + i && bioRead >= old(bioRead)
        invariant forall i :: |old(log)| <= i < |log| ==> log[i].EvPull?
      {
        var ret := BioRecv(asks[i]);
      }
    }

    // the counters' part of altcp_mbedtls_recved
    method Acknowledge(len: nat)
      requires len <= 0xFFFF && Narrow(credits) && unrecved >= 0
      modifies this`unrecved, this`credits
      ensures Led() == Ack(old(Led()), len) && Narrow(credits) && unrecved >= 0
      ensures unrecved == old(unrecved) - Min(len, old(unrecved)) && Sum(credits) == Sum(old(credits)) + Min(len, old(unrecved))
    {
      var lower := len;
      if lower > unrecved {
        lower := unrecved;
      }
      unrecved := unrecved - lower;
      Credit(lower);
    }

    /** altcp_mbedtls_recved, called by the application */
    method Recved(len: nat)
      requires Valid() && len <= 0xFFFF
      modifies this`unrecved, this`credits, this`log
      ensures Valid() && log == if handshakeDone then old(log) + [EvAck(len)] else old(log)
      ensures var n := if handshakeDone then Min(len, old(unrecved)) else 0;
              unrecved == old(unrecved) - n && Sum(credits) == Sum(old(credits)) + n
    {
      hide Called;
      if !handshakeDone {
        return;
      }
      Acknowledge(len);
      Happened(EvAck(len));
    }

    // the application acknowledges while it is being called
    method NestedAcks(acks: seq<nat>)
      requires Narrow(acks) && Narrow(credits) && unrecved >= 0
      modifies this`unrecved, this`credits
      ensures Led() == Acks(old(Led()), acks) && Narrow(credits) && unrecved >= 0
    {
      assert acks[..0] == [];
      for i := 0 to |acks|
        invariant Led() == Acks(old(Led()), acks[..i]) && Narrow(credits) && unrecved >= 0
      {
        assert acks[..i + 1][..i] == acks[..i];
        Acknowledge(acks[i]);
      }
      assert acks[..|acks|] == acks;
    }

    // data is passed to the application
    method DeliverHeld(app: AppCall)
      requires Valid() && handshakeDone && Narrow(app.acks) && held > 0 && hasRecv
      modifies this`upperCalled, this`unrecved, this`held, this`credits, this`log
      ensures Valid() && log == old(log) + [EvDeliver(app.acks, app.answer == ErrOk)]
      ensures Sum(credits) == Sum(old(credits)) + Min(Sum(app.acks), old(unrecved) + old(held))
      ensures held == if app.answer == ErrOk then 0 else old(held)
      ensures unrecved == Max0(old(unrecved) + (if app.answer == ErrOk then old(held) else 0) - Sum(app.acks))
    {
      hide OrderlyLog, Replay, Sum, Total, Acks, Called;
      DeliverEffect(Led(), app.acks, app.answer == ErrOk);
      var totLen := held;
      unrecved := unrecved + totLen;
      upperCalled := true;
      NestedAcks(app.acks);
      if app.answer != ErrOk {
        unrecved := unrecved - totLen;
        if unrecved < 0 {
          unrecved := 0;
        }
      } else {
        held := 0;
      }
      Happened(EvDeliver(app.acks, app.answer == ErrOk));
    }

    /** altcp_mbedtls_pass_rx_data */
    method PassRxData(app: AppCall) returns (err: Err)
      requires Valid() && handshakeDone && Narrow(app.acks)
      modifies this`upperCalled, this`unrecved, this`held, this`rxClosed, this`credits, this`log
      ensures Valid()
      ensures old(held) > 0 && hasRecv ==>
        log == old(log) + [EvDeliver(app.acks, app.answer == ErrOk)] && err == app.answer
      // only what was acknowledged is credited
      ensures old(held) > 0 && hasRecv ==>
        && Sum(credits) == Sum(old(credits)) + Min(Sum(app.acks), old(unrecved) + old(held))
        && held == (if app.answer == ErrOk then 0 else old(held))
        && unrecved == Max0(old(unrecved) + (if app.answer == ErrOk then old(held) else 0) - Sum(app.acks))
      ensures old(held) > 0 && !hasRecv ==> log == old(log) + [EvDrop] && err == ErrOk
      ensures old(held) == 0 || !hasRecv ==> credits == old(credits) && unrecved == old(unrecved)
      ensures old(held) == 0 ==> log == old(log)
      ensures rxClosed == (old(rxClosed) || (old(held) == 0 && closeQueued))
      ensures old(held) == 0 ==>
        err == if closeQueued && !old(rxClosed) && hasRecv && app.answer == ErrAbort then ErrAbort else ErrOk
    {
      hide OrderlyLog, Replay, Sum, Total, Narrow, Called;
      err := ErrOk;
      if held > 0 {
        if hasRecv {
          DeliverHeld(app);
          return app.answer;
        } else {
          held := 0;
          Happened(EvDrop);
        }
      } else if closeQueued && !rxClosed {
        rxClosed := true;
        if hasRecv && app.answer == ErrAbort {
          err := ErrAbort;
        }
      }
    }

    // one successful mbedtls_ssl_read of n > 0 bytes
    method TakeDecrypted(n: nat, avail: nat)
      requires Valid() && handshakeDone
      modifies this`bioRead, this`bioAppl, this`held, this`credits, this`log
      ensures Valid() && log == old(log) + [EvDecrypt(n, avail == 0)] && held == old(held) + n
    {
      hide OrderlyLog, Replay, Sum, Total, Narrow, Called;
      bioAppl := bioAppl + n;
      if avail == 0 {
        var overhead := bioRead - bioAppl;
        LowerRecved(overhead);
        bioRead := 0;
        bioAppl := 0;
      }
      held := held + n;
      Happened(EvDecrypt(n, avail == 0));
    }

    // a successful mbedtls_ssl_read and what follows it in the loop
    method ReadAndPass(turn: Turn) returns (err: Err, more: bool)
      requires Valid() && handshakeDone && Narrow(turn.app.acks)
      modifies this`upperCalled, this`rxClosed, this`held, this`unrecved
      modifies this`bioRead, this`bioAppl, this`credits, this`log
      ensures Valid() && ReadDone(old(log), log, turn, pool, hasRecv, more)
      ensures (more ==> err == ErrOk && rxClosed == old(rxClosed)) && (err == ErrOk || err == ErrAbort)
      ensures err == ErrAbort <==> hasRecv && turn.app.answer == ErrAbort && (held > 0 || rxClosed != old(rxClosed))
    {
      hide OrderlyLog, Replay, Sum, Narrow, Total, Called;
      var n := Min(turn.engine.wanted, pool);
      if n > 0 {
        TakeDecrypted(n, turn.engine.avail);
      }
      assert Replay(log).held == held;
      err := PassRxData(turn.app);
      more := err == ErrOk && n > 0;
      if err != ErrOk && err != ErrAbort {
        err := ErrOk;
      }
    }

    // one turn of the loop below; more says that the loop goes on
    method OneTurn(turn: Turn) returns (err: Err, more: bool)
      requires Valid() && handshakeDone && Narrow(turn.app.acks)
      modifies this`rx, this`upperCalled, this`rxClosed, this`held, this`unrecved
      modifies this`bioRead, this`bioAppl, this`credits, this`pulled, this`log
      ensures Valid() && TurnDone(old(log), log, turn, pool, hasRecv, more)
      ensures (more ==> err == ErrOk && rxClosed == old(rxClosed)) && (err == ErrOk || err == ErrAbort)
      ensures err == ErrAbort <==> Aborts(turn, hasRecv, held > 0 || rxClosed != old(rxClosed))
    {
      hide OrderlyLog, Replay, Sum, Narrow, Total, Ranges, ReadDone, Called;
      if !turn.buffer {
        return ErrOk, false;
      }
      EnginePulls(turn.engine.asks);
      ghost var pulls := log;
      if turn.engine.failed {
        return if turn.engine.reconnect then ErrAbort else ErrOk, false;
      }
      err, more := ReadAndPass(turn);
      ReadExtends(pulls, log, turn, pool, hasRecv, more);
      assert log[..|pulls|] == pulls;
    }

    /** altcp_mbedtls_handle_rx_appldata: turns says how the allocator, the engine and the
        application behave in each turn.  logs holds the log after each turn taken; the loop
        ends with the first turn that stops it, or when turns is used up. */
    method HandleRxAppldata(turns: seq<Turn>) returns (err: Err, ghost logs: seq<seq<Event>>)
      requires Valid() && forall k :: 0 <= k < |turns| ==> Narrow(turns[k].app.acks)
      modifies this`rx, this`upperCalled, this`rxClosed, this`held, this`unrecved
      modifies this`bioRead, this`bioAppl, this`credits, this`pulled, this`log
      ensures Valid() && Grown(old(log), log, turns, hasRecv)
      ensures !handshakeDone ==> err == ErrNotReady && log == old(log)
      ensures |logs| >= 1 && logs[0] == old(log) && logs[|logs| - 1] == log
      ensures handshakeDone ==> TurnsDone(logs, turns, pool, hasRecv) && (err == ErrOk || err == ErrAbort)
      // the last turn decides whether the connection is gone
      ensures handshakeDone ==>
        (err == ErrAbort <==>
         1 < |logs| <= |turns| + 1 && Aborts(turns[|logs| - 2], hasRecv, held > 0 || rxClosed != old(rxClosed)))
    {
      hide OrderlyLog, Replay, Sum, Ranges, Narrow, Total, TurnDone, Aborts, Called;
      logs := [log];
      if !handshakeDone {
        return ErrNotReady, logs;
      }
      err := ErrOk;
      var i, more := 0, true;
      while more && i < |turns|
        invariant 0 <= i <= |turns| && |logs| == i + 1 && logs[0] == old(log) && logs[i] == log
        invariant (i == 0 ==> more) && (err == ErrOk || err == ErrAbort)
        invariant more ==> err == ErrOk && rxClosed == old(rxClosed)
        invariant err == ErrAbort ==> i > 0
        invariant i > 0 ==> (err == ErrAbort <==> Aborts(turns[i - 1], hasRecv, held > 0 || rxClosed != old(rxClosed)))
        invariant Valid() && Grown(old(log), log, turns, hasRecv)
        invariant forall k :: 0 <= k < i ==>
          TurnDone(logs[k], logs[k + 1], turns[k], pool, hasRecv, k < i - 1 || more)
      {
        ghost var before := log;
        err, more := OneTurn(turns[i]);
        TurnGrows(before, log, turns[i], pool, hasRecv, more);
        GrownMore(old(log), before, log, turns, i, hasRecv);
        i := i + 1;
        logs := logs + [log];
      }
    }

    // mbedtls_ssl_handshake, and the credit for all that it read
    method ShakeHands(asks: seq<nat>)
      requires Valid() && !handshakeDone
      modifies this`rx, this`bioRead, this`credits, this`pulled, this`log
      ensures Valid() && bioRead == 0 && HandsShaken(old(log), log, asks)
    {
      hide OrderlyLog, Replay, Sum, Total;
      EnginePulls(asks);
      assert log == log[..|old(log)| + |asks|];
      if bioRead != 0 {
        LowerRecved(bioRead);
        bioRead := 0;
        Happened(EvSettle);
      }
    }

    /** altcp_mbedtls_lower_recv_process: during the handshake all that the engine read is
        credited at once; data that is left when it succeeds is processed, as it is from then
        on.  logs is as in the method above, from the end of the handshake. */
    method LowerRecvProcess(asks: seq<nat>, result: Handshake, turns: seq<Turn>)
      returns (err: Err, ghost logs: seq<seq<Event>>)
      requires Valid() && forall k :: 0 <= k < |turns| ==> Narrow(turns[k].app.acks)
      modifies this`rx, this`handshakeDone, this`upperCalled, this`rxClosed, this`held, this`unrecved
      modifies this`bioRead, this`bioAppl, this`credits, this`pulled, this`log
      ensures Valid() && Grown(old(log), log, turns, hasRecv)
      ensures handshakeDone == (old(handshakeDone) || result == Done)
      ensures !handshakeDone ==> bioRead == 0
      ensures |logs| >= 1 && logs[|logs| - 1] == log
      ensures if old(handshakeDone) then logs[0] == old(log) else HandsShaken(old(log), logs[0], asks)
      ensures if !handshakeDone || (!old(handshakeDone) && |logs| == 1 && rx == []) then log == logs[0]
              else TurnsDone(logs, turns, pool, hasRecv)
      ensures err == ErrOk || err == ErrAbort
      ensures err == ErrAbort <==>
        && handshakeDone && 1 < |logs| <= |turns| + 1
        && Aborts(turns[|logs| - 2], hasRecv, held > 0 || rxClosed != old(rxClosed))
    {
      hide OrderlyLog, Replay, Sum, Total, Ranges, Narrow, TurnsDone, HandsShaken, Aborts, Called;
      if !handshakeDone {
        ShakeHands(asks);
        ShakingGrows(old(log), log, asks, turns, hasRecv);
        logs := [log];
        if result != Done {
          return ErrOk, logs;
        }
        handshakeDone := true;
        if rx == [] {
          return ErrOk, logs;
        }
      }
      ghost var shaken := log;
      err, logs := HandleRxAppldata(turns);
      GrownAgain(old(log), shaken, log, turns, hasRecv);
    }

    // the part of altcp_mbedtls_lower_recv for the end of the stream
    method LowerFin(turns: seq<Turn>, last: Err) returns (err: Err, ghost logs: seq<seq<Event>>)
      requires Valid() && forall k :: 0 <= k < |turns| ==> Narrow(turns[k].app.acks)
      modifies this
      ensures Valid() && Grown(old(log), log, turns, hasRecv) && arrived == old(arrived)
      ensures closeQueued && |logs| >= 1 && logs[|logs| - 1] == log && logs[0] == old(log)
      ensures if old(handshakeDone && upperCalled && (rx != [] || held > 0))
              then TurnsDone(logs, turns, pool, hasRecv) && err == ErrOk
              else log == old(log) && rx == old(rx) && err == FinAnswer(old(handshakeDone && upperCalled), hasRecv, last)
                   && (err == ErrOk ==> rxClosed)
    {
      hide OrderlyLog, Replay, Sum, Ranges, Narrow, TurnsDone, Grown, Aborts, Called, Total;
      logs := [log];
      GrownSame(log, turns, hasRecv);
      closeQueued := true;
      if handshakeDone && upperCalled {
        if rx != [] || held > 0 {
          err, logs := HandleRxAppldata(turns);
          return ErrOk, logs;
        }
        if hasRecv && last == ErrAbort {
          return ErrAbort, logs;
        }
      }
      rxClosed := true;
      return ErrOk, logs;
    }

    /** altcp_mbedtls_lower_recv: data is queued and processed; the end of the stream is passed
        on, or delayed while there is unprocessed data. */
    method LowerRecv(p: Arrival, asks: seq<nat>, result: Handshake, turns: seq<Turn>, last: Err)
      returns (err: Err, ghost logs: seq<seq<Event>>)
      requires Valid() && forall k :: 0 <= k < |turns| ==> Narrow(turns[k].app.acks)
      modifies this
      ensures Valid() && Grown(old(log), log, turns, hasRecv)
      ensures arrived == old(arrived) + if p.Data? then p.len else 0
      ensures closeQueued == (old(closeQueued) || p.Fin?)
      ensures |logs| >= 1 && logs[|logs| - 1] == log && (old(handshakeDone) || p.Fin? ==> logs[0] == old(log))
      ensures p.Data? && old(handshakeDone) ==> TurnsDone(logs, turns, pool, hasRecv)
      ensures p.Data? ==>
        (err == ErrAbort <==>
         && handshakeDone && 1 < |logs| <= |turns| + 1
         && Aborts(turns[|logs| - 2], hasRecv, held > 0 || rxClosed != old(rxClosed)))
      ensures p.Fin? ==>
        if old(handshakeDone && upperCalled && (rx != [] || held > 0))
        then TurnsDone(logs, turns, pool, hasRecv) && err == ErrOk
        else log == old(log) && rx == old(rx) && err == FinAnswer(old(handshakeDone && upperCalled), hasRecv, last)
             && (err == ErrOk ==> rxClosed)
      ensures err == ErrOk || err == ErrAbort
    {
      hide OrderlyLog, Replay, Sum, Ranges, Narrow, TurnsDone, HandsShaken, Grown, Aborts, Called;
      if p.Fin? {
        err, logs := LowerFin(turns, last);
        return;
      }
      TotalAppend(rx, p.len);
      rx := rx + [p.len];
      arrived := arrived + p.len;
      hide Total;
      err, logs := LowerRecvProcess(asks, result, turns);
    }
  }

  /** An application that takes its data, or refuses it without acknowledging any, is fair in
      every callback. */
  lemma {:induction false} PoliteIsFair(before: seq<Event>, after: seq<Event>, turns: seq<Turn>)
    requires Grown(before, after, turns, true) && OrderlyLog(after) && AppFairLog(before)
    requires forall k :: 0 <= k < |turns| ==> turns[k].app.answer == ErrOk || Sum(turns[k].app.acks) == 0
    ensures AppFairLog(after)
    decreases |after|
  {
    if after != before {
      var most := after[..|after| - 1];
      assert before == after[..|before|] == most[..|before|];
      PoliteIsFair(before, most, turns);
      RunKeepsRanges(most);
      assert Permitted(after[|after| - 1], turns, true);
    }
  }

  /** What the connection has credited is what it owes, counted from what happened. */
  lemma ConnectionCredits(c: Connection)
    requires c.Valid()
    ensures var t := Count(c.log);
            && Sum(c.credits) == t.handshake + t.overhead + t.acknowledged
            && c.pulled == t.pulled && c.held == t.held && c.unrecved == t.passed
  {
    hide OrderlyLog, Replay, Sum, Narrow, Total, Count;
    CreditComesFrom(c.log);
  }

  /** Between callbacks, with fair applications, the counters of the connection account for
      every byte that arrived; and while the inner connection keeps to a window of 65535 bytes
      the lengths that the source keeps in 16 bits fit them. */
  lemma ConnectionConserves(c: Connection)
    requires c.Valid() && EngineFairLog(c.log) && AppFairLog(c.log)
    ensures c.pulled == Sum(c.credits) + (c.bioRead - c.bioAppl) + c.held + c.unrecved
    ensures c.arrived - Sum(c.credits) == Total(c.rx) + (c.bioRead - c.bioAppl) + c.held + c.unrecved
    ensures c.bioAppl <= c.bioRead ==> 0 <= c.arrived - Sum(c.credits)
    ensures c.bioAppl <= c.bioRead && c.arrived - Sum(c.credits) <= 0xFFFF ==>
      c.held + c.unrecved <= 0xFFFF && Total(c.rx) <= 0xFFFF
  {
    hide OrderlyLog, EngineFairLog, AppFairLog, Replay, Sum, Narrow, Total;
    WindowConserved(c.log);
  }
}
