/** http_parser_execute one byte at a time: marks, callbacks, `reexecute`, early exit.
    `Feed` is what one call does with one buffer. */
module HttpScan {
  import opened HttpTypes
  import opened HttpAutomaton

  /** The open mark, if any, and the bytes from it up to the read position. */
  datatype Pending = Nothing | Since(kind: DataKind, bytes: string)

  /** A buffer being read. `out` lists the callbacks made so far, `used` counts the bytes
      consumed, `inner` says the last byte was taken by an inner loop that goes on,
      `skip` that memchr is skipping a header value, `halted` that an upgrade ended the call. */
  datatype Scan = Scan(p: Parser, pend: Pending, out: seq<Event>, inner: bool, skip: bool,
                       used: nat, halted: bool)

  predicate Live(sc: Scan) { sc.p.errno.OK? && !sc.halted }

  /** The marks http_parser_execute sets before its loop. */
  function InitialMark(p: Parser): Mark {
    var s := p.state;
    if s.HeaderField? then MarkOf(Field)
    else if s.HeaderValue? then MarkOf(Value)
    else if IsUrlState(s) then MarkOf(Url)
    else if s.ResStatus? then MarkOf(Status(p.statusCode))
    else NoMark
  }

  function Open(p: Parser): Scan {
    Scan(p, match InitialMark(p) case NoMark => Nothing case MarkOf(k) => Since(k, ""),
         [], false, false, 0, false)
  }

  /** MARK. Two marks open at once would break the assert at the end of the function. */
  function SetMark(sc: Scan, mark: Mark): Scan {
    match mark
    case NoMark => sc
    case MarkOf(k) =>
      if sc.pend.Nothing? then sc.(pend := Since(k, ""))
      else if sc.pend.kind == k then sc
      else sc.(p := sc.p.(errno := AssertFailed))
  }

  /** CALLBACK_DATA: no call when the mark is not set. */
  function CallbackData(sc: Scan, flush: Flush, ch: char): Scan {
    if flush.NoFlush? || sc.pend.Nothing? || sc.pend.kind != flush.kind then sc
    else
      var bytes := if flush.Through? then sc.pend.bytes + [ch] else sc.pend.bytes;
      sc.(pend := Nothing, out := sc.out + [Data(sc.pend.kind, bytes)])
  }

  predicate InnerLoop(s: State) { s.HeaderField? || s.HeaderValue? }

  /** The effect of one trip through the switch on the buffer being read. */
  function Apply(sc: Scan, o: Outcome, ch: char): Scan {
    var inner := InnerLoop(sc.p.state) && o.p.state == sc.p.state;
    var skip := inner && sc.p.state.HeaderValue? && sc.p.headerState.General?;
    var sc1 := CallbackData(SetMark(sc.(p := o.p), o.mark), o.flush, ch);
    sc1.(out := sc1.out + o.events, inner := inner, skip := skip)
  }

  /** The pointer moves past `ch`. */
  function Advance(sc: Scan, ch: char): Scan {
    sc.(used := sc.used + 1,
        pend := if sc.pend.Nothing? then Nothing else sc.pend.(bytes := sc.pend.bytes + [ch]))
  }

  /** One byte from the label `reexecute` on. */
  function Trips(sc: Scan, ch: char): Scan
    decreases Rank(sc.p.state)
  {
    var o := Dispatch(sc.p, ch, sc.skip);
    var sc' := Apply(sc, o, ch);
    if !sc'.p.errno.OK? then sc'
    else match o.ctl
      case Again => Trips(sc', ch)
      case Next => Advance(sc', ch)
      case Exit => Advance(sc', ch).(halted := true)
  }

  function Count(p: Parser): Parser {
    if ParsingHeader(p.state) then p.(nread := p.nread + 1) else p
  }

  lemma CountFrame(p: Parser)
    ensures Count(p).state == p.state && Count(p).errno == p.errno
  {
  }

  function ByteStep(sc: Scan, ch: char): Scan {
    if Live(sc) then Trips(sc.(p := Count(sc.p)), ch) else sc
  }

  function ScanAll(sc: Scan, s: string): Scan {
    if s == "" then sc else ByteStep(ScanAll(sc, s[..|s| - 1]), s[|s| - 1])
  }

  /** The callbacks for the mark left open at the end of the buffer. */
  function FlushPending(sc: Scan): seq<Event> {
    if sc.pend.Nothing? then sc.out else sc.out + [Data(sc.pend.kind, sc.pend.bytes)]
  }

  datatype Result = Result(p: Parser, out: seq<Event>, used: nat)

  /** The end of the call. When the buffer ends inside an inner loop, the byte counted at
      the top of the outer loop has been counted twice. */
  function Close(sc: Scan): Result {
    if !Live(sc) then Result(sc.p, sc.out, sc.used)
    else Result(if sc.inner then sc.p.(nread := sc.p.nread + 1) else sc.p, FlushPending(sc), sc.used)
  }

  /** The call with length 0 that tells the parser the stream has ended. */
  function EndOfStream(p: Parser): Result {
    match p.state
    case BodyIdentityEof => Result(p, [MessageComplete], 0)
    case Dead | StartReqOrRes | StartRes | StartReq => Result(p, [], 0)
    case _ => Result(p.(errno := InvalidEofState), [], 1)
  }

  /** One call of http_parser_execute, with no limit on the header size. */
  function Feed(p: Parser, data: string): Result {
    if !p.errno.OK? then Result(p, [], 0)
    else if data == "" then EndOfStream(p)
    else Close(ScanAll(Open(p), data))
  }

  /** A run of calls, one for each piece in order. */
  function FeedAll(p: Parser, pieces: seq<string>): Result {
    if pieces == [] then Result(p, [], 0)
    else
      var r := FeedAll(p, pieces[..|pieces| - 1]);
      var q := Feed(r.p, pieces[|pieces| - 1]);
      Result(q.p, r.out + q.out, r.used + q.used)
  }

  /** http_parser_init */
  function Init(kind: MessageKind): Parser {
    Parser(kind, NO_FLAGS, match kind case Request => StartReq case Response => StartRes case Both => StartReqOrRes,
           General, 0, 0, 0, 0, 0, 0, DELETE, OK, false)
  }

  lemma {:induction false} ScanAllConcat(sc: Scan, a: string, b: string)
    ensures ScanAll(sc, a + b) == ScanAll(ScanAll(sc, a), b)
    decreases |b|
  {
    if b == "" {
      assert a + b == a;
    } else {
      var b' := b[..|b| - 1];
      assert (a + b)[..|a + b| - 1] == a + b';
      ScanAllConcat(sc, a, b');
    }
  }

  lemma ScanAllSnoc(sc: Scan, s: string, ch: char)
    ensures ScanAll(sc, s + [ch]) == ByteStep(ScanAll(sc, s), ch)
  {
    assert (s + [ch])[..|s|] == s;
    hide ByteStep;
  }

  lemma ScanOne(sc: Scan, ch: char)
    ensures ScanAll(sc, [ch]) == ByteStep(sc, ch)
  {
    assert [ch][..0] == "";
  }

  // ---------------------------------------------------------------- prefixes of the buffer

  function Prefix(p0: Parser, data: string, k: nat): Scan
    requires k <= |data|
  {
    ScanAll(Open(p0), data[..k])
  }

  lemma PrefixStep(p0: Parser, data: string, i: nat)
    requires i < |data|
    ensures Prefix(p0, data, i + 1) == ByteStep(Prefix(p0, data, i), data[i])
  {
    assert data[..i + 1][..i] == data[..i];
    hide ByteStep, Open;
  }

  lemma PrefixRun(p0: Parser, data: string, i: nat, j: nat)
    requires i <= j <= |data|
    ensures Prefix(p0, data, j) == ScanAll(Prefix(p0, data, i), data[i..j])
  {
    assert data[..j] == data[..i] + data[i..j];
    ScanAllConcat(Open(p0), data[..i], data[i..j]);
    hide ScanAll, Open;
  }

  /** Nothing after an error or an early exit is looked at. */
  lemma {:induction false} Stopped(p0: Parser, data: string, i: nat, j: nat)
    requires i <= j <= |data| && !Live(Prefix(p0, data, i))
    ensures Prefix(p0, data, j) == Prefix(p0, data, i)
    decreases j - i
  {
    hide Trips, Count, Open, ScanAll;
    if i < j {
      Stopped(p0, data, i, j - 1);
      PrefixStep(p0, data, j - 1);
    }
  }
}
