/**
 The telnet input filter (lwipApps/telnet.c): telnet_process takes the commands out of a
 received chunk, in place, and may stop and resume between any two bytes.

 `Feed` is one byte through the filter and `Filter` a whole stream; class `Termstate` is the
 in-place loop, proved against them.  The escape scheme is the one of the section "TELNET
 COMMAND STRUCTURE" of RFC 854.
 */
module Telnet {
  import opened Common

  // special characters
  const SE: byte := 240
  const SB: byte := 250
  const WILL: byte := 251
  const WONT: byte := 252
  const DO: byte := 253
  const DONT: byte := 254
  const IAC: byte := 255

  // options
  const ECHO: byte := 1
  const SUPPRESS_GO_AHEAD: byte := 3
  const TERMINAL_TYPE: byte := 24
  const NAWS: byte := 31
  const TERMINAL_SPEED: byte := 32

  const OPTDATA: nat := 256

  datatype State = Normal | Command | Option | SubOption | Params | SubEnd

  datatype Filter = Filter(state: State, code: byte, params: seq<byte>, cols: nat, lines: nat)

  /** telnet_parseopt: the reply to an option, if any. */
  function Reply(code: byte, option: byte): (r: seq<byte>)
    ensures |r| == 0 || (|r| == 3 && r[0] == IAC && r[2] == option)
  {
    if option == ECHO then []
    else if option == SUPPRESS_GO_AHEAD then [IAC, if code == WILL || code == WONT then DO else WILL, option]
    else if option == TERMINAL_TYPE || option == NAWS || option == TERMINAL_SPEED then [IAC, DO, option]
    else [IAC, if code == WILL || code == WONT then DONT else WONT, option]
  }

  /** ntohs of two received bytes. */
  function Word(hi: byte, lo: byte): nat {
    hi as nat * 256 + lo as nat
  }

  /** telnet_parseoptdat: a window size of four bytes is taken over, except where it is 0. */
  function ParseParams(f: Filter): Filter {
    if f.code == NAWS && |f.params| == 4 then
      var cols, lines := Word(f.params[0], f.params[1]), Word(f.params[2], f.params[3]);
      f.(cols := if cols != 0 then cols else f.cols, lines := if lines != 0 then lines else f.lines)
    else f
  }

  /** One byte: the new state, what goes to the data stream and what is sent back. */
  function Feed(f: Filter, c: byte): (Filter, seq<byte>, seq<byte>) {
    match f.state
    case Normal => if c == IAC then (f.(state := Command), [], []) else (f, [c], [])
    case Command =>
      if c == IAC then (f.(state := Normal), [c], [])
      else if c == WILL || c == WONT || c == DO || c == DONT then (f.(code := c, state := Option), [], [])
      else if c == SB then (f.(state := SubOption), [], [])
      else (f.(state := Normal), [], [])
    case Option => (f.(state := Normal), [], Reply(f.code, c))
    case SubOption => (f.(code := c, params := [], state := Params), [], [])
    case Params =>
      if c == IAC then (f.(state := SubEnd), [], [])
      else (f.(params := if |f.params| < OPTDATA then f.params + [c] else f.params), [], [])
    case SubEnd => (if c == SE then ParseParams(f).(state := Normal) else f.(state := Normal), [], [])
  }

  /** A stream, byte by byte. */
  function Run(f: Filter, s: seq<byte>): (Filter, seq<byte>, seq<byte>) {
    if s == [] then (f, [], [])
    else
      var (f1, d1, r1) := Run(f, s[..|s| - 1]);
      var (f2, d2, r2) := Feed(f1, s[|s| - 1]);
      (f2, d1 + d2, r1 + r2)
  }

  /** Splitting the stream anywhere changes neither the data, nor the replies, nor the state. */
  lemma {:induction false} ChunksDoNotMatter(f: Filter, a: seq<byte>, b: seq<byte>)
    ensures var (f1, d1, r1) := Run(f, a);
            var (f2, d2, r2) := Run(f1, b);
            Run(f, a + b) == (f2, d1 + d2, r1 + r2)
  {
    hide Feed;
    var (f1, d1, r1) := Run(f, a);
    if b == [] {
      assert a + b == a && d1 + [] == d1 && r1 + [] == r1;
    } else {
      var front, last := b[..|b| - 1], b[|b| - 1];
      ChunksDoNotMatter(f, a, front);
      assert (a + b)[..|a + b| - 1] == a + front && (a + b)[|a + b| - 1] == last;
      var (f2, d2, r2) := Run(f1, front);
      var (f3, d3, r3) := Feed(f2, last);
      assert (d1 + d2) + d3 == d1 + (d2 + d3) && (r1 + r2) + r3 == r1 + (r2 + r3);
    }
  }

  /** The parameter buffer is never overrun. */
  lemma {:induction false} ParamsBounded(f: Filter, s: seq<byte>)
    requires |f.params| <= OPTDATA
    ensures |Run(f, s).0.params| <= OPTDATA
  {
    if s != [] {
      ParamsBounded(f, s[..|s| - 1]);
    }
  }

  // ---------------------------------------------------------------- what a sender may send

  /** A data byte, a command without option, an option negotiation, or a subnegotiation. */
  datatype Token =
    | Data(b: byte)
    | Simple(c: byte)
    | Negotiate(code: byte, option: byte)
    | Sub(option: byte, params: seq<byte>)

  predicate Sendable(t: Token) {
    match t
    case Data(_) => true
    case Simple(c) => c != IAC && c != SB && c != WILL && c != WONT && c != DO && c != DONT
    case Negotiate(code, _) => code == WILL || code == WONT || code == DO || code == DONT
    case Sub(_, params) => true
  }

  /** Bytes with every 255 doubled. */
  function Escape(s: seq<byte>): seq<byte> {
    if s == [] then [] else Escape(s[..|s| - 1]) + Escape1(s[|s| - 1])
  }

  function Escape1(b: byte): seq<byte> {
    if b == IAC then [IAC, IAC] else [b]
  }

  /** RFC 854 as a sender follows it, with 255 doubled in data and in parameters. */
  function Encode1(t: Token): seq<byte> {
    match t
    case Data(b) => Escape1(b)
    case Simple(c) => [IAC, c]
    case Negotiate(code, option) => [IAC, code, option]
    case Sub(option, params) => [IAC, SB, option] + Escape(params) + [IAC, SE]
  }

  function Encode(ts: seq<Token>): seq<byte> {
    if ts == [] then [] else Encode(ts[..|ts| - 1]) + Encode1(ts[|ts| - 1])
  }

  /** The data among the tokens. */
  function DataOf(ts: seq<Token>): seq<byte> {
    if ts == [] then []
    else DataOf(ts[..|ts| - 1]) + (if ts[|ts| - 1].Data? then [ts[|ts| - 1].b] else [])
  }

  /** The replies the tokens call for. */
  function RepliesTo(ts: seq<Token>): seq<byte> {
    if ts == [] then []
    else
      var t := ts[|ts| - 1];
      RepliesTo(ts[..|ts| - 1]) + (if t.Negotiate? then Reply(t.code, t.option) else [])
  }

  /** What is answered to each option: echo is passed over in silence; the terminal options are
      asked for whatever the client says; going ahead is suppressed on whichever side the client
      speaks of; any other option is refused, on the client's side if it spoke of its own and on
      this side if it asked for it here. */
  predicate Answers(code: byte, option: byte, r: seq<byte>) {
    var own := code == WILL || code == WONT;
    var terminal := option in {TERMINAL_TYPE, NAWS, TERMINAL_SPEED};
    var known := terminal || option == SUPPRESS_GO_AHEAD;
    && (r == [] <==> option == ECHO)
    && (r == [IAC, DO, option] <==> terminal || (own && option == SUPPRESS_GO_AHEAD))
    && (r == [IAC, WILL, option] <==> !own && option == SUPPRESS_GO_AHEAD)
    && (r == [IAC, DONT, option] <==> own && !known && option != ECHO)
    && (r == [IAC, WONT, option] <==> !own && !known && option != ECHO)
  }

  lemma ReplyAnswers(code: byte, option: byte)
    ensures Answers(code, option, Reply(code, option))
  {
    var r := Reply(code, option);
    assert |r| == 3 ==> r == [IAC, r[1], option];
  }

  // ---------------------------------------------------------------- filtering what was encoded

  lemma RunByte(f: Filter, c: byte)
    ensures Run(f, [c]) == Feed(f, c)
  {
    assert [c][..0] == [];
    assert Run(f, []) == (f, [], []);
    var (f2, d2, r2) := Feed(f, c);
    assert [] + d2 == d2 && [] + r2 == r2;
    hide Feed;
  }

  lemma RunPair(f: Filter, c: byte, d: byte)
    ensures var (f1, d1, r1) := Feed(f, c);
            var (f2, d2, r2) := Feed(f1, d);
            Run(f, [c, d]) == (f2, d1 + d2, r1 + r2)
  {
    hide Feed;
    RunByte(f, c);
    RunByte(Feed(f, c).0, d);
    ChunksDoNotMatter(f, [c], [d]);
    assert [c] + [d] == [c, d];
  }

  lemma RunEscape1(f: Filter, b: byte)
    requires f.state == Normal
    ensures Run(f, Escape1(b)) == (f, [b], [])
  {
    if b == IAC {
      RunPair(f, IAC, IAC);
      var f1 := f.(state := Command);
      assert Feed(f, IAC) == (f1, [], []) && Feed(f1, IAC) == (f, [IAC], []);
      var none: seq<byte> := [];
      assert none + [IAC] == [IAC] && none + none == none;
      assert Run(f, [IAC, IAC]) == (f, [IAC], none);
    } else {
      RunByte(f, b);
    }
  }

  lemma RunNegotiation(f: Filter, code: byte, option: byte)
    requires f.state == Normal && Sendable(Negotiate(code, option))
    ensures Run(f, [IAC, code, option]) == (f.(code := code), [], Reply(code, option))
  {
    hide Reply;
    RunPair(f, IAC, code);
    var f1 := f.(state := Option, code := code);
    assert Run(f, [IAC, code]) == (f1, [], []);
    RunByte(f1, option);
    ChunksDoNotMatter(f, [IAC, code], [option]);
    assert [IAC, code] + [option] == [IAC, code, option];
  }

  /** A negotiation received between commands is answered so, and leaves no data. */
  lemma NegotiationAnswered(f: Filter, code: byte, option: byte)
    requires f.state == Normal && Sendable(Negotiate(code, option))
    ensures var (f', d, r) := Run(f, [IAC, code, option]);
            f' == f.(code := code) && d == [] && Answers(code, option, r)
  {
    hide Answers;
    ReplyAnswers(code, option);
    RunNegotiation(f, code, option);
  }

  /** Doubling every 255 and filtering gives back the data. */
  lemma {:induction false} EscapeRoundTrip(f: Filter, s: seq<byte>)
    requires f.state == Normal
    ensures Run(f, Escape(s)) == (f, s, [])
  {
    hide Escape1;
    if s != [] {
      var front, last := s[..|s| - 1], s[|s| - 1];
      assert Escape(s) == Escape(front) + Escape1(last);
      assert s == front + [last];
      EscapeRoundTrip(f, front);
      hide Run, Escape;
      RunEscape1(f, last);
      ChunksDoNotMatter(f, Escape(front), Escape1(last));
    }
  }

  // what the parameter buffer holds after a run of parameters
  function Keep(s: seq<byte>): seq<byte> {
    if |s| <= OPTDATA then s else s[..OPTDATA]
  }

  lemma FeedParam(f: Filter, front: seq<byte>, last: byte)
    requires f.state == Params && f.params == Keep(front) && last != IAC
    ensures Feed(f, last) == (f.(params := Keep(front + [last])), [], [])
  {
    if |front| >= OPTDATA {
      assert (front + [last])[..OPTDATA] == front[..OPTDATA] == Keep(front);
    }
  }

  lemma {:induction false} NoEscape(s: seq<byte>)
    requires IAC !in s
    ensures Escape(s) == s
  {
    if s != [] {
      NoEscape(s[..|s| - 1]);
      assert s[|s| - 1] in s;
      assert s == s[..|s| - 1] + [s[|s| - 1]];
    }
  }

  /** Parameters without 255 are collected. */
  lemma {:induction false} CollectParams(f: Filter, s: seq<byte>)
    requires f.state == Params && f.params == [] && IAC !in s
    ensures Run(f, s) == (f.(params := Keep(s)), [], [])
  {
    hide Feed;
    if s != [] {
      var front, last := s[..|s| - 1], s[|s| - 1];
      CollectParams(f, front);
      var f1 := f.(params := Keep(front));
      assert last in s;
      FeedParam(f1, front, last);
      assert front + [last] == s;
      hide Keep;
      var none: seq<byte> := [];
      assert none + none == none;
      assert Feed(f1, last) == (f.(params := Keep(s)), none, none);
    }
  }

  /** The data that leaks out of a subnegotiation: what follows the first 255 among its
      parameters.  The filter takes the second of the doubled 255 for the end. */
  function Leak(s: seq<byte>): seq<byte> {
    if s == [] then [] else if s[0] == IAC then s[1..] else Leak(s[1..])
  }

  lemma {:induction false} LeakEmpty(s: seq<byte>)
    ensures Leak(s) == [] <==> IAC !in s || IAC !in s[..|s| - 1]
  {
    if s != [] {
      LeakEmpty(s[1..]);
      if |s| > 1 {
        assert s[..|s| - 1] == [s[0]] + s[1..][..|s[1..]| - 1];
      }
      assert s == [s[0]] + s[1..];
    }
  }

  /** Where the first 255 stands. */
  lemma {:induction false} LeakAt(s: seq<byte>) returns (k: nat)
    requires IAC in s
    ensures k < |s| && s[k] == IAC && IAC !in s[..k] && Leak(s) == s[k + 1..]
  {
    if s[0] == IAC {
      k := 0;
    } else {
      assert s == [s[0]] + s[1..];
      k := LeakAt(s[1..]);
      k := k + 1;
      assert s[..k] == [s[0]] + s[1..][..k - 1];
    }
  }

  lemma {:induction false} EscapeAppend(a: seq<byte>, b: seq<byte>)
    ensures Escape(a + b) == Escape(a) + Escape(b)
  {
    hide Escape1;
    if b == [] {
      assert a + b == a;
    } else {
      var front, last := b[..|b| - 1], b[|b| - 1];
      EscapeAppend(a, front);
      assert (a + b)[..|a + b| - 1] == a + front;
      assert (Escape(a) + Escape(front)) + Escape1(last) == Escape(a) + (Escape(front) + Escape1(last));
    }
  }

  // the three bytes that begin a subnegotiation
  lemma SubBegins(f: Filter, option: byte)
    requires f.state == Normal
    ensures Run(f, [IAC, SB, option]) == (f.(state := Params, code := option, params := []), [], [])
  {
    RunPair(f, IAC, SB);
    var f1 := f.(state := SubOption);
    assert Run(f, [IAC, SB]) == (f1, [], []);
    RunByte(f1, option);
    ChunksDoNotMatter(f, [IAC, SB], [option]);
    assert [IAC, SB] + [option] == [IAC, SB, option];
    hide Run;
  }

  // the end of a subnegotiation
  lemma SubEnds(f: Filter)
    requires f.state == Params
    ensures Run(f, [IAC, SE]) == (ParseParams(f).(state := Normal), [], [])
  {
    RunPair(f, IAC, SE);
    var f1 := f.(state := SubEnd);
    assert Feed(f, IAC) == (f1, [], []);
    hide Run;
  }

  // the beginning and the parameters
  lemma SubCollects(f: Filter, option: byte, params: seq<byte>)
    requires f.state == Normal && IAC !in params
    ensures Run(f, [IAC, SB, option] + Escape(params))
         == (f.(state := Params, code := option, params := Keep(params)), [], [])
  {
    hide Run, Escape, Keep;
    SubBegins(f, option);
    NoEscape(params);
    var f0 := f.(state := Params, code := option, params := []);
    CollectParams(f0, params);
    ChunksDoNotMatter(f, [IAC, SB, option], Escape(params));
    assert f0.(params := Keep(params)) == f.(state := Params, code := option, params := Keep(params));
    var none: seq<byte> := [];
    assert none + none == none;
  }

  /** A subnegotiation whose parameters are free of 255 has no effect but that of its parameters. */
  lemma SubClean(f: Filter, option: byte, params: seq<byte>)
    requires f.state == Normal && IAC !in params
    ensures Run(f, Encode1(Sub(option, params)))
         == (ParseParams(f.(code := option, params := Keep(params))).(state := Normal), [], [])
  {
    hide Run, Escape, Keep;
    SubCollects(f, option, params);
    SubEnds(f.(state := Params, code := option, params := Keep(params)));
    ChunksDoNotMatter(f, [IAC, SB, option] + Escape(params), [IAC, SE]);
  }

  // up to the first 255 among the parameters, which ends the subnegotiation
  lemma SubCutShort(f: Filter, option: byte, head: seq<byte>)
    requires f.state == Normal && IAC !in head
    ensures var (f', d, r) := Run(f, [IAC, SB, option] + Escape(head) + [IAC, IAC]);
            f'.state == Normal && d == [] && r == [] && f'.cols == f.cols && f'.lines == f.lines
  {
    hide Run, Escape, Keep;
    SubCollects(f, option, head);
    RunPair(f.(state := Params, code := option, params := Keep(head)), IAC, IAC);
    ChunksDoNotMatter(f, [IAC, SB, option] + Escape(head), [IAC, IAC]);
  }

  // what follows is data, and then the end of a subnegotiation that the filter no longer is in
  lemma RestIsData(f: Filter, rest: seq<byte>)
    requires f.state == Normal
    ensures Run(f, Escape(rest) + [IAC, SE]) == (f, rest, [])
  {
    EscapeRoundTrip(f, rest);
    RunPair(f, IAC, SE);
    ChunksDoNotMatter(f, Escape(rest), [IAC, SE]);
    hide Run, Escape;
    assert rest + ([] + []) == rest;
  }

  lemma EscapeWith255(head: seq<byte>, rest: seq<byte>)
    ensures Escape(head + [IAC] + rest) == Escape(head) + [IAC, IAC] + Escape(rest)
  {
    EscapeAppend(head + [IAC], rest);
    EscapeAppend(head, [IAC]);
    assert [IAC][..0] == [];
    assert Escape([IAC]) == Escape([]) + [IAC, IAC];
  }

  /** One with a 255 among its parameters lets the rest of them through as data, and the
      parameters have no effect. */
  lemma SubLeaks(f: Filter, option: byte, params: seq<byte>)
    requires f.state == Normal && IAC in params
    ensures var (f', d, r) := Run(f, Encode1(Sub(option, params)));
            f'.state == Normal && d == Leak(params) && r == [] && f'.cols == f.cols && f'.lines == f.lines
  {
    hide Run, Escape, Leak;
    var k := LeakAt(params);
    var head, rest := params[..k], params[k + 1..];
    assert params == head + [IAC] + rest;
    EscapeWith255(head, rest);
    var a, b := [IAC, SB, option] + Escape(head) + [IAC, IAC], Escape(rest) + [IAC, SE];
    assert Encode1(Sub(option, params)) == a + b;
    SubCutShort(f, option, head);
    RestIsData(Run(f, a).0, rest);
    ChunksDoNotMatter(f, a, b);
  }

  // what one token does to the data and the replies
  function TokenData(t: Token): seq<byte> {
    match t
    case Data(b) => [b]
    case Sub(_, params) => Leak(params)
    case _ => []
  }

  function TokenReply(t: Token): seq<byte> {
    if t.Negotiate? then Reply(t.code, t.option) else []
  }

  lemma TokenFiltered(f: Filter, t: Token)
    requires f.state == Normal && Sendable(t)
    ensures var (f', d, r) := Run(f, Encode1(t)); f'.state == Normal && d == TokenData(t) && r == TokenReply(t)
  {
    match t
    case Data(b) => RunEscape1(f, b);
    case Simple(c) => RunPair(f, IAC, c);
    case Negotiate(code, option) => RunNegotiation(f, code, option);
    case Sub(option, params) =>
      if IAC in params {
        SubLeaks(f, option, params);
      } else {
        SubClean(f, option, params);
        LeakEmpty(params);
      }
  }

  /** All data that comes out: that of the tokens, and what leaks. */
  function DataOut(ts: seq<Token>): seq<byte> {
    if ts == [] then [] else DataOut(ts[..|ts| - 1]) + TokenData(ts[|ts| - 1])
  }

  /** Filtering any stream a sender may send ends between commands, sends the replies the
      negotiations call for, and lets through the data and what leaks. */
  lemma {:induction false} StreamFiltered(f: Filter, ts: seq<Token>)
    requires f.state == Normal && forall i :: 0 <= i < |ts| ==> Sendable(ts[i])
    ensures var (f', d, r) := Run(f, Encode(ts));
            f'.state == Normal && d == DataOut(ts) && r == RepliesTo(ts)
  {
    hide Encode1, TokenData, Sendable;
    if ts != [] {
      var front, last := ts[..|ts| - 1], ts[|ts| - 1];
      StreamFiltered(f, front);
      TokenFiltered(Run(f, Encode(front)).0, last);
      ChunksDoNotMatter(f, Encode(front), Encode1(last));
      hide Run;
    }
  }

  predicate Clean(t: Token) {
    t.Sub? ==> IAC !in t.params || IAC !in t.params[..|t.params| - 1]
  }

  lemma AppendSame<T>(a: seq<T>, b: seq<T>, x: seq<T>)
    ensures a + x == b + x <==> a == b
  {
    if a + x == b + x {
      assert a == (a + x)[..|a + x| - |x|];
      assert b == (b + x)[..|b + x| - |x|];
    }
  }

  lemma {:induction false} NothingLeaks(ts: seq<Token>)
    ensures |DataOut(ts)| >= |DataOf(ts)|
    ensures DataOut(ts) == DataOf(ts) <==> forall i :: 0 <= i < |ts| ==> Clean(ts[i])
  {
    if ts != [] {
      var front, last := ts[..|ts| - 1], ts[|ts| - 1];
      NothingLeaks(front);
      if last.Sub? {
        LeakEmpty(last.params);
      }
      hide Leak;
      assert forall i :: 0 <= i < |front| ==> front[i] == ts[i];
      if !Clean(last) {
        assert |DataOut(ts)| > |DataOf(ts)|;
      } else {
        assert TokenData(last) == if last.Data? then [last.b] else [];
        AppendSame(DataOut(front), DataOf(front), TokenData(last));
      }
    }
  }

  /** The original data comes back, commands interleaved or not, exactly when no subnegotiation
      has a 255 among its parameters, other than as the last of them. */
  lemma RoundTrip(f: Filter, ts: seq<Token>)
    requires f.state == Normal && forall i :: 0 <= i < |ts| ==> Sendable(ts[i])
    ensures Run(f, Encode(ts)).1 == DataOf(ts) <==> forall i :: 0 <= i < |ts| ==> Clean(ts[i])
  {
    StreamFiltered(f, ts);
    NothingLeaks(ts);
    hide Run, Encode, DataOut, DataOf, Clean;
  }

  // ---------------------------------------------------------------- the in-place loop

  lemma RunNothing(f: Filter, s: seq<byte>)
    ensures Run(f, s[..0]) == (f, [], [])
  {
  }

  lemma RunNext(f: Filter, s: seq<byte>, k: nat)
    requires k < |s|
    ensures var (f1, d1, r1) := Run(f, s[..k]);
            var (f2, d2, r2) := Feed(f1, s[k]);
            Run(f, s[..k + 1]) == (f2, d1 + d2, r1 + r2)
  {
    assert s[..k + 1][..k] == s[..k];
    hide Feed;
  }

  // copying a byte behind the data, or not
  lemma DataGrows(before: seq<byte>, c: byte, out: bool, d: seq<byte>)
    requires d == if out then [c] else []
    ensures before + d == if out then before + [c] else before
  {
  }

  // ---------------------------------------------------------------- reported window sizes

  /** The parameters that report a window size, high byte first. */
  function Size(cols: nat, lines: nat): seq<byte>
    requires cols < 0x10000 && lines < 0x10000
  {
    [(cols / 256) as byte, (cols % 256) as byte, (lines / 256) as byte, (lines % 256) as byte]
  }

  /** What a report of any size does: nothing if one of its bytes is 255; else each number that is
      not 0 is taken over. */
  lemma WindowSizeAfter(f: Filter, cols: nat, lines: nat)
    requires f.state == Normal && cols < 0x10000 && lines < 0x10000
    ensures var size := Size(cols, lines);
            var (f', d, r) := Run(f, Encode1(Sub(NAWS, size)));
            && f'.state == Normal && d == Leak(size) && r == []
            && f'.cols == (if IAC in size || cols == 0 then f.cols else cols)
            && f'.lines == (if IAC in size || lines == 0 then f.lines else lines)
  {
    var size := Size(cols, lines);
    if IAC in size {
      SubLeaks(f, NAWS, size);
      hide Run, Encode1, Leak;
    } else {
      SubClean(f, NAWS, size);
      LeakEmpty(size);
      hide Run, Encode1, Leak;
      assert Keep(size) == size;
    }
  }

  /** A reported window size arrives if and only if none of its bytes is 255, or the terminal had
      that size already. */
  lemma WindowSizeArrives(f: Filter, cols: nat, lines: nat)
    requires f.state == Normal && 0 < cols < 0x10000 && 0 < lines < 0x10000
    ensures var f' := Run(f, Encode1(Sub(NAWS, Size(cols, lines)))).0;
            f'.cols == cols && f'.lines == lines
            <==> || (cols % 256 != 255 && cols / 256 != 255 && lines % 256 != 255 && lines / 256 != 255)
                 || (f.cols == cols && f.lines == lines)
  {
    WindowSizeAfter(f, cols, lines);
    hide Run, Encode1, Leak;
    var size := Size(cols, lines);
    assert size[0] as nat == cols / 256 && size[1] as nat == cols % 256;
    assert size[2] as nat == lines / 256 && size[3] as nat == lines % 256;
    assert IAC in size <==> size[0] == IAC || size[1] == IAC || size[2] == IAC || size[3] == IAC;
  }

  /** A terminal of 255 columns and 24 lines is one that does not: its report is lost, and its
      last two bytes come through as input. */
  lemma WideTerminalIsLost(f: Filter)
    requires f.state == Normal && f.cols == 80 && f.lines == 24
    ensures var (f', d, _) := Run(f, Encode1(Sub(NAWS, Size(255, 24))));
            f'.cols == 80 && f'.lines == 24 && d == [0, 24]
  {
    WindowSizeAfter(f, 255, 24);
    hide Run, Encode1;
    var size := Size(255, 24);
    assert size == [0, 255, 0, 24] && size[1] == IAC;
    var k := LeakAt(size);
    assert size[0] != IAC && size[2] != IAC && size[3] != IAC;
    assert k == 1;
    assert size[2..] == [0, 24];
  }

  class Termstate {
    const data: array<byte>
    const optdata: array<byte>
    var start: nat
    var end: nat
    var state: State
    var code: byte
    var optlen: nat
    var cols: nat
    var lines: nat
    // what has been sent back on the socket
    var sent: seq<byte>

    ghost predicate Valid()
      reads this
    {
      start <= end <= data.Length && optdata.Length == OPTDATA && optlen <= OPTDATA && data != optdata
    }

    ghost function Val(): Filter
      reads this, optdata
      requires Valid()
    {
      Filter(state, code, optdata[..optlen], cols, lines)
    }

    // the switch inside telnet_process: whether the byte is copied to the data
    method Accept(c: byte) returns (out: bool)
      requires Valid()
      modifies this`state, this`code, this`optlen, this`cols, this`lines, this`sent, optdata
      ensures Valid()
      ensures var (f, d, r) := Feed(old(Val()), c);
              Val() == f && d == (if out then [c] else []) && sent == old(sent) + r
    {
      out := false;
      match state
      case Normal =>
        if c == IAC {
          state := Command;
        } else {
          out := true;
        }
      case Command =>
        if c == IAC {
          out := true;
          state := Normal;
        } else if c == WILL || c == WONT || c == DO || c == DONT {
          code := c;
          state := Option;
        } else if c == SB {
          state := SubOption;
        } else {
          state := Normal;
        }
      case Option =>
        ParseOption(c);
        state := Normal;
      case SubOption =>
        code := c;
        optlen := 0;
        state := Params;
      case Params =>
        if c == IAC {
          state := SubEnd;
        } else if optlen < optdata.Length {
          optdata[optlen] := c;
          optlen := optlen + 1;
        }
      case SubEnd =>
        if c == SE {
          ParseOptionData();
        }
        state := Normal;
    }

    /** telnet_parseopt with telnet_sendopt */
    method ParseOption(option: byte)
      modifies this`sent
      ensures sent == old(sent) + Reply(code, option)
      ensures Answers(code, option, sent[|old(sent)|..])
    {
      ReplyAnswers(code, option);
      hide Answers;
      if option == ECHO {
      } else if option == SUPPRESS_GO_AHEAD {
        if code == WILL || code == WONT {
          sent := sent + [IAC, DO, option];
        } else {
          sent := sent + [IAC, WILL, option];
        }
      } else if option == TERMINAL_TYPE || option == NAWS || option == TERMINAL_SPEED {
        sent := sent + [IAC, DO, option];
      } else if code == WILL || code == WONT {
        sent := sent + [IAC, DONT, option];
      } else {
        sent := sent + [IAC, WONT, option];
      }
    }

    /** telnet_parseoptdat */
    method ParseOptionData()
      requires Valid()
      modifies this`cols, this`lines
      ensures Valid() && Val() == ParseParams(old(Val()))
      // a window that has a size keeps one
      ensures (old(cols) > 0 ==> cols > 0) && (old(lines) > 0 ==> lines > 0)
      ensures cols != old(cols) ==> code == NAWS && optlen == 4 && optdata[0] as nat * 256 + optdata[1] as nat == cols
      ensures lines != old(lines) ==> code == NAWS && optlen == 4 && optdata[2] as nat * 256 + optdata[3] as nat == lines
    {
      if code == NAWS && optlen == 4 {
        var c := optdata[0] as nat * 256 + optdata[1] as nat;
        var l := optdata[2] as nat * 256 + optdata[3] as nat;
        if c != 0 {
          cols := c;
        }
        if l != 0 {
          lines := l;
        }
      }
    }

    // one turn of the loop below
    method MoveByte(p: nat, q: nat) returns (q': nat)
      requires Valid() && start <= q <= p < end
      modifies this`state, this`code, this`optlen, this`cols, this`lines, this`sent, data, optdata
      ensures Valid() && q <= q' <= q + 1
      ensures var (f, d, r) := Feed(old(Val()), old(data[p]));
              Val() == f && data[start..q'] == old(data[start..q]) + d && sent == old(sent) + r
      ensures forall i :: p < i < data.Length ==> data[i] == old(data[i])
      ensures data[..start] == old(data[..start])
    {
      hide Feed;
      var c := data[p];
      q' := q;
      ghost var before := data[start..q];
      var out := Accept(c);
      DataGrows(before, c, out, if out then [c] else []);
      if out {
        data[q] := c;
        q' := q + 1;
        assert data[start..q'] == before + [c];
      }
    }

    /** telnet_process: two pointers walk the chunk; what is not data is squeezed out. */
    method Process()
      requires Valid()
      modifies this`end, this`state, this`code, this`optlen, this`cols, this`lines, this`sent, data, optdata
      ensures Valid()
      ensures var (f, d, r) := Run(old(Val()), old(data[start..end]));
              Val() == f && data[start..end] == d && sent == old(sent) + r
      ensures data[..start] == old(data[..start]) && data[old(end)..] == old(data[end..])
    {
      hide Feed, Run;
      var p, q := start, start;
      ghost var chunk := data[start..end];
      RunNothing(Val(), chunk);
      while p < end
        invariant start <= q <= p <= end == old(end) && Valid()
        invariant var (f, d, r) := Run(old(Val()), chunk[..p - start]);
                  Val() == f && data[start..q] == d && sent == old(sent) + r
        invariant forall i :: p <= i < data.Length ==> data[i] == old(data[i])
        invariant data[..start] == old(data[..start])
      {
        assert data[p] == chunk[p - start];
        RunNext(old(Val()), chunk, p - start);
        q := MoveByte(p, q);
        p := p + 1;
      }
      assert chunk[..end - start] == chunk;
      end := q;
    }
  }
}
