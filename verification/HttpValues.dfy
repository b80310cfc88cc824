/** Reading header lines: what a value does to the parser, and Content-Length to the byte. */
module HttpValues {
  import opened HttpTypes
  import opened HttpAutomaton
  import opened HttpScan
  import opened HttpRuns
  import opened HttpInvariant
  import opened HttpReads
  import opened HttpNames

  /** A value that can stand after ": " on one line. */
  predicate IsValueText(v: string) {
    (forall i | 0 <= i < |v| :: IsHeaderChar(v[i]) && !IsCrLf(v[i])) && (v != "" ==> !IsBlank(v[0]))
  }

  /** The parser at the end of a value. */
  function ValueRead(q: Parser, v: string): Parser {
    if v == "" then q else WalkTo(ValueStart(q, v[0]).p, v[1..])
  }

  predicate ValuePlods(q: Parser, v: string) {
    v == "" || (ValueStart(q, v[0]).p.errno.OK? && Plods(ValueStart(q, v[0]).p, v[1..]))
  }

  function LineEnd(q: Parser): Parser { FinishHeader(q).(state := HeaderFieldStart) }

  lemma LineEndState(q: Parser, s: State)
    ensures FinishHeader(q.(state := s)).(state := HeaderFieldStart) == LineEnd(q)
  {
  }

  lemma ValueTurns(q: Parser, ch: char, o: Outcome)
    requires q.state.HeaderValue? && q.errno.OK? && IsHeaderChar(ch) && o == DispatchValue(q, ch, false) &&
             o.p.errno.OK?
    ensures Turns(q, ch, o)
  {
    hide Descends, DispatchValue;
  }

  lemma EmptyValueTurns(q: Parser)
    requires q.state.HeaderValueDiscardWs? && q.errno.OK?
    ensures Turns(q, ' ', Go(q)) && Turns(q, '\r', To(q, HeaderValueDiscardWsAlmostDone))
    ensures Turns(q.(state := HeaderValueDiscardWsAlmostDone), '\n', To(q, HeaderValueDiscardLws))
  {
    EdgeTurns(q, ' ', Go(q));
    EdgeTurns(q, '\r', To(q, HeaderValueDiscardWsAlmostDone));
    EdgeTurns(q.(state := HeaderValueDiscardWsAlmostDone), '\n', To(q, HeaderValueDiscardLws));
    hide Turns;
  }

  lemma EndValueTurns(q: Parser)
    requires q.state.HeaderValue? && q.errno.OK?
    ensures Turns(q, '\r', Outcome(q.(state := HeaderAlmostDone), NoMark, UpTo(Value), [], Next))
    ensures Turns(q.(state := HeaderAlmostDone), '\n', To(q, HeaderValueLws))
  {
    ValueTurns(q, '\r', Outcome(q.(state := HeaderAlmostDone), NoMark, UpTo(Value), [], Next));
    EdgeTurns(q.(state := HeaderAlmostDone), '\n', To(q, HeaderValueLws));
    hide Turns;
  }

  lemma ValueStartTurns(q: Parser, ch: char)
    requires q.state.HeaderValueDiscardWs? && q.errno.OK? && !IsBlank(ch) && !IsCrLf(ch) &&
             ValueStart(q, ch).p.errno.OK?
    ensures Turns(q, ch, ValueStart(q, ch)) && ValueStart(q, ch) == Marked(ValueStart(q, ch).p)
  {
    EdgeTurns(q, ch, ValueStart(q, ch));
    hide Turns, Lower, IsNum;
  }

  lemma TwoMore(sc: Scan, s: string, a: char, b: char)
    ensures ScanAll(sc, s + [a, b]) == ByteStep(ByteStep(ScanAll(sc, s), a), b)
  {
    ScanAllSnoc(sc, s, a);
    ScanAllSnoc(sc, s + [a], b);
    assert s + [a] + [b] == s + [a, b];
    hide ScanAll, ByteStep;
  }

  lemma ReadEmptyValue(sc: Scan, q: Parser, out: seq<Event>)
    requires At(sc, q, Nothing, out) && q.state.HeaderValueDiscardWs?
    ensures AtLine(ScanAll(sc, " \r\n"), LineEnd(q), out + [Data(Value, "")])
  {
    hide Turns, ByteStep, ScanAll, FinishHeader, At;
    assert q.errno.OK? by { AtOk(sc, q, Nothing, out); }
    EmptyValueTurns(q);
    var s1 := ByteStep(sc, ' ');
    ReadPlain(sc, q, out, ' ', q);
    var s2 := ByteStep(s1, '\r');
    ReadPlain(s1, q, out, '\r', q.(state := HeaderValueDiscardWsAlmostDone));
    var s3 := ByteStep(s2, '\n');
    ReadPlain(s2, q.(state := HeaderValueDiscardWsAlmostDone), out, '\n', q.(state := HeaderValueDiscardLws));
    ScanOne(sc, ' ');
    TwoMore(sc, " ", '\r', '\n');
    assert " " + ['\r', '\n'] == " \r\n" && [' '] == " ";
    var q0 := q.(state := HeaderValueDiscardLws);
    LineEndState(q, HeaderValueDiscardLws);
    assert LineLeft(s3, q0, out + [Data(Value, "")]);
  }

  lemma AtOk(sc: Scan, q: Parser, pend: Pending, out: seq<Event>)
    requires At(sc, q, pend, out)
    ensures q.errno.OK?
  {
  }

  lemma ReadValue(sc: Scan, q: Parser, out: seq<Event>, v: string)
    requires At(sc, q, Nothing, out) && q.state.HeaderValueDiscardWs? && IsValueText(v) && ValuePlods(q, v)
    requires v != "" ==> ValueRead(q, v).state.HeaderValue?
    ensures AtLine(ScanAll(sc, " " + v + "\r\n"), LineEnd(ValueRead(q, v)), out + [Data(Value, v)])
  {
    hide Turns, ByteStep, ScanAll, FinishHeader, At, ValueStart, Plods, WalkTo;
    assert q.errno.OK? by { AtOk(sc, q, Nothing, out); }
    if v == "" {
      ReadEmptyValue(sc, q, out);
      assert " " + v + "\r\n" == " \r\n";
    } else {
      EmptyValueTurns(q);
      ReadPlain(sc, q, out, ' ', q);
      ValueStartTurns(q, v[0]);
      var q1, m := ValueStart(q, v[0]).p, ValueRead(q, v);
      var s1 := ByteStep(sc, ' ');
      ReadMark(s1, q, Value, out, v[0], q1);
      var s2 := ByteStep(s1, v[0]);
      ReadWalk(s2, q1, Since(Value, [v[0]]), out, v[1..]);
      assert [v[0]] + v[1..] == v;
      var s3 := ScanAll(s2, v[1..]);
      assert m.errno.OK? by { AtOk(s3, m, Since(Value, v), out); }
      EndValueTurns(m);
      ReadFlush(s3, m, Value, v, out, '\r', m.(state := HeaderAlmostDone));
      var s4 := ByteStep(s3, '\r');
      ReadPlain(s4, m.(state := HeaderAlmostDone), out + [Data(Value, v)], '\n', m.(state := HeaderValueLws));
      LineEndState(m, HeaderValueLws);
      ScanValueText(sc, v);
      assert LineLeft(ByteStep(s4, '\n'), m.(state := HeaderValueLws), out + [Data(Value, v)]);
    }
  }

  lemma ScanValueText(sc: Scan, v: string)
    requires v != ""
    ensures ScanAll(sc, " " + v + "\r\n") ==
            ByteStep(ByteStep(ScanAll(ByteStep(ByteStep(sc, ' '), v[0]), v[1..]), '\r'), '\n')
  {
    hide ByteStep, ScanAll;
    ScanOne(sc, ' ');
    ScanAllSnoc(sc, " ", v[0]);
    ScanAllConcat(sc, " " + [v[0]], v[1..]);
    assert " " + [v[0]] + v[1..] == " " + v;
    TwoMore(sc, " " + v, '\r', '\n');
    assert " " + v + ['\r', '\n'] == " " + v + "\r\n";
    assert [' '] == " ";
  }

  // ---------------------------------------------------------------- Content-Length

  predicate AllDigits(s: string) { forall i | 0 <= i < |s| :: IsNum(s[i]) }

  function Decimal(s: string): nat
    requires AllDigits(s)
  {
    if s == "" then 0 else Decimal(s[..|s| - 1]) * 10 + Digit(s[|s| - 1])
  }

  /** The largest length the check before each digit lets through. */
  const MAX_LENGTH := ULLONG_MAX - 6

  function LengthSet(q: Parser, n: nat): Parser {
    q.(state := HeaderValue, index := 0, flags := q.flags.(contentLength := true), contentLength := n)
  }

  predicate ExpectsLength(q: Parser) {
    q.errno.OK? && q.state.HeaderValueDiscardWs? && q.headerState.ContentLength? && !q.flags.contentLength
  }

  lemma FirstDigit(q: Parser, ch: char)
    requires ExpectsLength(q) && IsNum(ch)
    ensures ValueStart(q, ch) == Marked(LengthSet(q, Digit(ch)))
  {
  }

  lemma NextDigit(q: Parser, n: nat, ch: char)
    requires ExpectsLength(q) && IsNum(ch)
    ensures var o := DispatchValue(LengthSet(q, n), ch, false);
            if n * 10 + Digit(ch) <= MAX_LENGTH then o == Go(LengthSet(q, n * 10 + Digit(ch)))
            else o.p.errno.InvalidContentLength? && o.mark.NoMark?
  {
    hide Descends;
  }

  lemma DigitTurns(q: Parser, n: nat, ch: char)
    requires ExpectsLength(q) && IsNum(ch) && n * 10 + Digit(ch) <= MAX_LENGTH
    ensures Turns(LengthSet(q, n), ch, Go(LengthSet(q, n * 10 + Digit(ch))))
  {
    NextDigit(q, n, ch);
    ValueTurns(LengthSet(q, n), ch, Go(LengthSet(q, n * 10 + Digit(ch))));
    hide Turns, DispatchValue;
  }

  lemma DigitFails(sc: Scan, q: Parser, n: nat, pend: Pending, out: seq<Event>, ch: char)
    requires ExpectsLength(q) && IsNum(ch) && n * 10 + Digit(ch) > MAX_LENGTH && At(sc, LengthSet(q, n), pend, out)
    ensures ByteStep(sc, ch).p.errno.InvalidContentLength? && !Live(ByteStep(sc, ch))
  {
    NextDigit(q, n, ch);
    var o := DispatchValue(LengthSet(q, n), ch, false);
    assert o == Dispatch(LengthSet(q, n), ch, false);
    hide Dispatch, DispatchValue, ByteStep;
    ReadFail(sc, LengthSet(q, n), pend, out, ch, o);
  }

  lemma DecimalSnoc(s: string, ch: char)
    requires AllDigits(s) && IsNum(ch)
    ensures AllDigits(s + [ch]) && Decimal(s + [ch]) == Decimal(s) * 10 + Digit(ch)
  {
    assert (s + [ch])[..|s|] == s;
  }

  lemma AllDigitsSplit(v: string)
    requires v != "" && AllDigits(v)
    ensures AllDigits(v[..|v| - 1]) && IsNum(v[|v| - 1])
  {
    hide IsNum;
  }

  lemma DecimalNothing()
    ensures Decimal("") == 0
  {
  }

  lemma DecimalSplit(v: string)
    requires v != "" && AllDigits(v)
    ensures var (front, ch) := (v[..|v| - 1], v[|v| - 1]);
            v == front + [ch] && AllDigits(front) && IsNum(ch) && Decimal(v) == Decimal(front) * 10 + Digit(ch) &&
            (front == "" ==> v == [ch] && Decimal(v) == Digit(ch))
  {
    hide IsNum, Digit, AllDigits, Decimal;
    AllDigitsSplit(v);
    DecimalSnoc(v[..|v| - 1], v[|v| - 1]);
    DecimalNothing();
    assert v == v[..|v| - 1] + [v[|v| - 1]];
    if v[..|v| - 1] == "" { assert v == [v[|v| - 1]]; }
  }

  /** A Content-Length is accumulated exactly, or refused: it never wraps and never becomes
      the sentinel. */
  lemma {:induction false} ContentLengthExact(sc: Scan, q: Parser, out: seq<Event>, v: string)
    requires At(sc, q, Nothing, out) && ExpectsLength(q) && v != "" && AllDigits(v)
    ensures if Decimal(v) <= 0xFFFF_FFFF_FFFF_FFF9
            then At(ScanAll(sc, v), LengthSet(q, Decimal(v)), Since(Value, v), out)
            else ScanAll(sc, v).p.errno.InvalidContentLength? && !Live(ScanAll(sc, v))
  {
    hide ByteStep, ScanAll, IsNum, Digit, Decimal, AllDigits, At, LengthSet, Live, ExpectsLength;
    var front, ch := v[..|v| - 1], v[|v| - 1];
    DecimalSplit(v);
    if front == "" {
      FirstLengthByte(sc, q, out, ch);
      ScanOne(sc, ch);
    } else {
      ContentLengthExact(sc, q, out, front);
      ScanAllSnoc(sc, front, ch);
      NextLengthByte(ScanAll(sc, front), q, Decimal(front), front, out, ch);
    }
  }

  lemma FirstLengthByte(sc: Scan, q: Parser, out: seq<Event>, ch: char)
    requires At(sc, q, Nothing, out) && ExpectsLength(q) && IsNum(ch)
    ensures Digit(ch) <= 9 && At(ByteStep(sc, ch), LengthSet(q, Digit(ch)), Since(Value, [ch]), out)
  {
    hide ByteStep, Turns, Marked, ValueStart, At, LengthSet;
    FirstDigit(q, ch);
    assert !IsBlank(ch) && !IsCrLf(ch) && LengthSet(q, Digit(ch)).errno.OK? by { DigitFacts(q, ch, Digit(ch)); }
    MarkedIs(LengthSet(q, Digit(ch)));
    ValueStartTurns(q, ch);
    ReadMark(sc, q, Value, out, ch, LengthSet(q, Digit(ch)));
  }

  /** One more digit, read or refused; after a refusal nothing is read. */
  lemma NextLengthByte(sc: Scan, q: Parser, n: nat, front: string, out: seq<Event>, ch: char)
    requires ExpectsLength(q) && IsNum(ch)
    requires if n <= MAX_LENGTH then At(sc, LengthSet(q, n), Since(Value, front), out)
             else sc.p.errno.InvalidContentLength? && !Live(sc)
    ensures var m := n * 10 + Digit(ch);
            if m <= MAX_LENGTH then At(ByteStep(sc, ch), LengthSet(q, m), Since(Value, front + [ch]), out)
            else ByteStep(sc, ch).p.errno.InvalidContentLength? && !Live(ByteStep(sc, ch))
  {
    hide Turns, At, IsNum, Digit, LengthSet, Trips;
    var m := n * 10 + Digit(ch);
    if m <= MAX_LENGTH {
      DigitTurns(q, n, ch);
      ReadOn(sc, LengthSet(q, n), Value, front, out, ch, LengthSet(q, m));
    } else if n <= MAX_LENGTH {
      DigitFails(sc, q, n, Since(Value, front), out, ch);
    }
  }

  lemma DigitFacts(q: Parser, ch: char, n: nat)
    requires q.errno.OK? && IsNum(ch)
    ensures !IsBlank(ch) && !IsCrLf(ch) && LengthSet(q, n).errno.OK?
  {
  }

  lemma MarkedIs(p: Parser)
    ensures Marked(p) == Outcome(p, MarkOf(Value), NoFlush, [], Next)
  {
  }

  /** A Content-Length header value of digits, read in one line. */
  lemma {:induction false} LengthValue(q: Parser, v: string)
    requires ExpectsLength(q) && v != "" && AllDigits(v) && Decimal(v) <= MAX_LENGTH
    ensures ValuePlods(q, v) && ValueRead(q, v) == LengthSet(q, Decimal(v))
  {
    hide Turns, Marked, ValueStart, IsNum, Digit, Decimal, AllDigits, LengthSet, Plods, WalkTo, ExpectsLength;
    var front, ch := v[..|v| - 1], v[|v| - 1];
    DecimalSplit(v);
    if front == "" {
      LengthDigit(q, ch);
      assert v[1..] == "" && v == [ch];
    } else {
      LengthValue(q, front);
      DigitTurns(q, Decimal(front), ch);
      assert v[1..] == front[1..] + [ch] && v[0] == front[0];
      WalkStep(ValueStart(q, v[0]).p, front[1..], ch, LengthSet(q, Decimal(v)));
    }
  }

  lemma LengthDigit(q: Parser, ch: char)
    requires ExpectsLength(q) && IsNum(ch)
    ensures var p := ValueStart(q, ch).p;
            p == LengthSet(q, Digit(ch)) && p.errno.OK? && Plods(p, "") &&
            WalkTo(p, "") == p
  {
    FirstDigit(q, ch);
    WalkNothing(LengthSet(q, Digit(ch)));
    hide ValueStart, Plods, WalkTo, IsNum;
  }

  // ---------------------------------------------------------------- other values

  /** Nothing has changed that matters to the body. */
  predicate Quiet(q: Parser, r: Parser) {
    r == q.(state := r.state, headerState := r.headerState, index := r.index, flags := r.flags, nread := r.nread) &&
    QuietFlags(q.flags, r.flags)
  }

  predicate QuietFlags(f: Flags, g: Flags) {
    f.chunked == g.chunked && f.trailing == g.trailing && f.upgrade == g.upgrade && f.skipBody == g.skipBody &&
    f.contentLength == g.contentLength
  }

  lemma QuietTwice(a: Parser, b: Parser, c: Parser)
    requires Quiet(a, b) && Quiet(b, c)
    ensures Quiet(a, c)
  {
  }

  predicate QuietState(h: HeaderState) { h.General? || IsConnectionScan(h) }

  lemma QuietFlag(p: Parser)
    ensures Quiet(p, SetConnectionFlag(p)) && SetConnectionFlag(p) == p.(flags := SetConnectionFlag(p).flags)
  {
    assert QuietFlags(p.flags, ConnectionFlags(p.flags, p.headerState));
    hide QuietFlags, ConnectionFlags;
  }

  lemma QuietConnectionByte(q: Parser, ch: char)
    requires IsConnectionScan(q.headerState)
    ensures var r := ConnectionByte(q, ch);
            Quiet(q, r) && QuietState(r.headerState) && r.state == q.state &&
            r.errno == q.errno
  {
    QuietFlag(q);
    hide KeyChar, Lower, Token, SetConnectionFlag;
  }

  lemma QuietByte(q: Parser, ch: char)
    requires QuietState(q.headerState)
    ensures var r := ValueByte(q, ch);
            Quiet(q, r) && QuietState(r.headerState) && r.state == q.state &&
            r.errno == q.errno
  {
    if IsConnectionScan(q.headerState) { QuietConnectionByte(q, ch); }
    hide ConnectionByte;
  }

  lemma QuietFinish(q: Parser)
    requires !q.headerState.TransferEncodingChunked?
    ensures Quiet(q, LineEnd(q)) && LineEnd(q).state.HeaderFieldStart?
  {
    QuietFlag(q);
    hide SetConnectionFlag;
  }

  /** The header names whose value does not change how the body is read. */
  predicate IsQuietName(name: string) {
    IsName(name) && Spelled(name) != "content-length" && Spelled(name) != "transfer-encoding" &&
    Spelled(name) != "upgrade"
  }

  /** The header states at the end of such a name. */
  predicate QuietShape(h: HeaderState) {
    h.General? || h.Connection? || IsMatching(h) || h.HC? || h.HCO? || h.HCON?
  }

  lemma QuietNameShape(name: string)
    requires IsQuietName(name)
    ensures QuietShape(Shape(Spelled(name)))
  {
    ShapeMeans(Spelled(name));
    hide Along;
  }

  lemma QuietStart(q: Parser, ch: char)
    requires QuietShape(q.headerState)
    ensures var r := ValueStart(q, ch).p;
            Quiet(q, r) && QuietState(r.headerState) && r.state.HeaderValue? &&
            r.errno == q.errno
  {
    hide Lower;
  }

  lemma {:induction false} QuietWalk(q: Parser, s: string)
    requires QuietState(q.headerState) && q.state.HeaderValue? && q.errno.OK?
    requires forall i | 0 <= i < |s| :: IsHeaderChar(s[i]) && !IsCrLf(s[i])
    ensures Plods(q, s)
    ensures var r := WalkTo(q, s); Quiet(q, r) && QuietState(r.headerState) && r.state.HeaderValue? && r.errno.OK?
  {
    hide Dispatch, Turns, ValueByte, IsHeaderChar;
    if s == "" {
      WalkNothing(q);
    } else {
      var front, ch := s[..|s| - 1], s[|s| - 1];
      QuietWalk(q, front);
      var m := WalkTo(q, front);
      QuietByte(m, ch);
      assert DispatchValue(m, ch, false) == Go(ValueByte(m, ch));
      ValueTurns(m, ch, Go(ValueByte(m, ch)));
      WalkStep(q, front, ch, ValueByte(m, ch));
      assert s == front + [ch];
      QuietTwice(q, m, ValueByte(m, ch));
    }
  }

  /** The whole value of a quiet header. */
  lemma QuietValue(q: Parser, v: string)
    requires QuietShape(q.headerState) && q.errno.OK? && IsValueText(v)
    ensures ValuePlods(q, v) && Quiet(q, LineEnd(ValueRead(q, v))) && (v != "" ==> ValueRead(q, v).state.HeaderValue?)
  {
    hide Plods, WalkTo, ValueStart, LineEnd, Quiet, IsHeaderChar;
    if v == "" {
      QuietFinish(q);
    } else {
      var q1 := ValueStart(q, v[0]).p;
      QuietStart(q, v[0]);
      assert forall i | 0 <= i < |v[1..]| :: v[1..][i] == v[i + 1];
      QuietWalk(q1, v[1..]);
      QuietFinish(ValueRead(q, v));
      QuietTwice(q, q1, ValueRead(q, v));
      QuietTwice(q, ValueRead(q, v), LineEnd(ValueRead(q, v)));
    }
  }
}
