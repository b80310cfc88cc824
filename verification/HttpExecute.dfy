/** http_parser_execute as it is written: one pass over the buffer with marks, inner loops,
    memchr, whole-body jumps and `goto reexecute`. It does what the byte-at-a-time `Feed`
    does, unless the header limit is exceeded. */
module HttpExecute {
  import opened HttpTypes
  import opened HttpAutomaton
  import opened HttpScan
  import opened HttpRuns
  import opened HttpInvariant
  import Buffers

  // ---------------------------------------------------------------- marks as positions

  type Marks = map<DataKind, nat>

  function MarkAt(marks: Marks, mark: Mark, i: nat): Marks {
    if mark.NoMark? || mark.kind in marks then marks else marks[mark.kind := i]
  }

  /** The mark variables agree with the pending bytes of the scan when the pointer is at i. */
  ghost predicate MarksMatch(pend: Pending, marks: Marks, data: string, i: nat) {
    i <= |data| &&
    if pend.Nothing? then marks == map[]
    else |pend.bytes| <= i && marks == map[pend.kind := i - |pend.bytes|] && pend.bytes == data[i - |pend.bytes|..i]
  }

  /** CALLBACK_DATA */
  function FlushMarks(marks: Marks, flush: Flush): Marks {
    if flush.NoFlush? then marks else marks - {flush.kind}
  }

  function FlushLog(marks: Marks, flush: Flush, data: string, i: nat): seq<Event>
    requires i < |data| && forall k | k in marks :: marks[k] <= i
  {
    if flush.NoFlush? || flush.kind !in marks then []
    else [Data(flush.kind, data[marks[flush.kind]..if flush.Through? then i + 1 else i])]
  }

  predicate Compatible(open: Mark, mark: Mark) { mark.MarkOf? ==> open.NoMark? || open.kind == mark.kind }

  lemma MarkMatches(sc: Scan, mark: Mark, marks: Marks, data: string, i: nat)
    requires MarksMatch(sc.pend, marks, data, i) && Compatible(OpenOf(sc.pend), mark)
    ensures MarksMatch(SetMark(sc, mark).pend, MarkAt(marks, mark, i), data, i)
  {
  }

  lemma FlushMatches(sc: Scan, flush: Flush, ch: char, marks: Marks, data: string, i: nat)
    requires i < |data| && data[i] == ch && MarksMatch(sc.pend, marks, data, i)
    ensures MarksMatch(CallbackData(sc, flush, ch).pend, FlushMarks(marks, flush), data, i)
    ensures CallbackData(sc, flush, ch).out == sc.out + FlushLog(marks, flush, data, i)
  {
    if !sc.pend.Nothing? {
      assert data[i - |sc.pend.bytes|..i + 1] == sc.pend.bytes + [ch];
    }
  }

  lemma AdvanceMatches(sc: Scan, ch: char, marks: Marks, data: string, i: nat)
    requires i < |data| && data[i] == ch && MarksMatch(sc.pend, marks, data, i)
    ensures MarksMatch(Advance(sc, ch).pend, marks, data, i + 1)
  {
  }

  /** The scan after MARK, CALLBACK_DATA and the notify callbacks of one trip. */
  lemma ApplyMatches(sc: Scan, o: Outcome, ch: char, marks: Marks, data: string, i: nat)
    requires i < |data| && data[i] == ch && MarksMatch(sc.pend, marks, data, i)
    requires Compatible(OpenOf(sc.pend), o.mark)
    ensures MarksMatch(SetMark(sc, o.mark).pend, MarkAt(marks, o.mark, i), data, i)
    ensures MarksMatch(Apply(sc, o, ch).pend, FlushMarks(MarkAt(marks, o.mark, i), o.flush), data, i)
    ensures Apply(sc, o, ch).out == sc.out + (FlushLog(MarkAt(marks, o.mark, i), o.flush, data, i) + o.events)
    ensures Apply(sc, o, ch).used == sc.used && Apply(sc, o, ch).halted == sc.halted
  {
    var sc0 := sc.(p := o.p);
    MarkMatches(sc0, o.mark, marks, data, i);
    assert SetMark(sc, o.mark).pend == SetMark(sc0, o.mark).pend;
    FlushMatches(SetMark(sc0, o.mark), o.flush, ch, MarkAt(marks, o.mark, i), data, i);
    Buffers.Regroup(sc.out, FlushLog(MarkAt(marks, o.mark, i), o.flush, data, i), o.events, []);
  }

  /** The header limit does not let the parser look at one more byte of the headers; where the
      buffer ends inside an inner loop, that byte has been counted already. */
  predicate OverAt(sc: Scan, last: bool) {
    Live(sc) && sc.p.nread + 1 > HTTP_MAX_HEADER_SIZE && if last then sc.inner else ParsingHeader(sc.p.state)
  }

  /** Somewhere in the buffer the headers get longer than the limit allows. */
  ghost predicate OverLimit(p0: Parser, data: string) {
    exists k | 0 <= k <= |data| :: OverAt(Prefix(p0, data, k), k == |data|)
  }

  /** The call ends at n because of the limit, which was exceeded at k, with these callbacks.
      Only memchr can carry the pointer past k, and then to the end of the buffer. */
  ghost predicate Exceeds(p0: Parser, data: string, n: nat, out: seq<Event>) {
    exists k | 0 <= k <= n <= |data| ::
      OverAt(Prefix(p0, data, k), k == |data|) && Prefix(p0, data, k).out == out && (n == k || n == |data|)
  }

  /** What one call does. It reports an overflow where the headers are too long, with the
      callbacks made up to there, and it does so unless there is another error. Otherwise the
      parser, the callbacks and the count are those of the byte-at-a-time run. */
  ghost predicate Executes(p0: Parser, log: seq<Event>, data: string, p: Parser, called: seq<Event>, n: nat) {
    log <= called &&
    if !p0.errno.OK? then n == 0 && p == p0 && called == log
    else if p.errno.HeaderOverflow? then
      OverLimit(p0, data) && exists out :: called == log + out && Exceeds(p0, data, n, out)
    else
      var r := Feed(p0, data);
      (p.errno.OK? ==> !OverLimit(p0, data) && p == r.p) && p.errno == r.p.errno && n == r.used && called == log + r.out
  }

  /** The limit is not exceeded at any of the bytes from i up to j. */
  ghost predicate Within(p0: Parser, data: string, i: nat, j: nat) {
    forall k | i <= k < j && k < |data| :: !OverAt(Prefix(p0, data, k), false)
  }

  lemma WithinNone(p0: Parser, data: string)
    ensures Within(p0, data, 0, 0)
  {
  }

  lemma WithinBoth(p0: Parser, data: string, i: nat, j: nat, k: nat)
    requires Within(p0, data, i, j) && Within(p0, data, j, k)
    ensures Within(p0, data, i, k)
  {
    hide OverAt, Prefix;
  }

  lemma NotOver(sc: Scan)
    requires Live(sc) && (ParsingHeader(sc.p.state) ==> sc.p.nread + 1 <= HTTP_MAX_HEADER_SIZE)
    ensures !OverAt(sc, false)
  {
  }

  /** nread counts the bytes of an inner loop one by one. */
  ghost predicate Steady(sc: Scan, data: string, start: nat, j: nat)
    requires start <= j <= |data|
  {
    forall k | start <= k <= j :: SteadyAt(sc, data, start, k)
  }

  ghost predicate SteadyAt(sc: Scan, data: string, start: nat, k: nat)
    requires start <= k <= |data|
  {
    ScanAll(sc, data[start..k]).p.nread == sc.p.nread + (k - start)
  }

  lemma SteadyMore(sc: Scan, data: string, start: nat, j: nat)
    requires start <= j <= |data| && (j > start ==> Steady(sc, data, start, j - 1)) && SteadyAt(sc, data, start, j)
    ensures Steady(sc, data, start, j)
  {
    hide SteadyAt;
  }

  lemma FieldSteady(sc: Scan, p: Parser, data: string, start: nat, j: nat)
    requires start <= j <= |data| && InField(sc, p, data, start, j)
    ensures SteadyAt(sc, data, start, j)
  {
    hide ScanAll;
  }

  lemma ValueSteady(sc: Scan, p: Parser, data: string, start: nat, j: nat, skip: bool)
    requires start <= j <= |data| && InValue(sc, p, data, start, j, skip)
    ensures SteadyAt(sc, data, start, j)
  {
    hide ScanAll, ValueFits;
  }

  /** The bytes that memchr passes over are counted too. */
  lemma SkipSteady(sc: Scan, p: Parser, data: string, start: nat, j: nat, to: nat)
    requires start < j <= to <= |data| && AtValue(sc) && InValue(sc, p, data, start, j, true)
    requires p.headerState.General? && NoCrLf(data[j..to]) && Steady(sc, data, start, j)
    ensures Steady(sc, data, start, to)
  {
    hide InValue, AtValue, SteadyAt;
    forall k | start <= k <= to ensures SteadyAt(sc, data, start, k) {
      if k > j {
        assert NoCrLf(data[j..k]) by {
          forall i | 0 <= i < k - j ensures !IsCrLf(data[j..k][i]) { assert data[j..to][i] == data[j..k][i]; }
        }
        ValueLoopSkip(sc, p, data, start, j, k);
        ValueSteady(sc, p, data, start, k, true);
      }
    }
  }

  /** An inner loop that has counted no more than the limit has not exceeded it. */
  lemma SteadyWithin(p0: Parser, data: string, i: nat, j: nat)
    requires i < |data| && i <= j <= |data| && Steady(Prefix(p0, data, i), data, i, j)
    requires Prefix(p0, data, j).p.nread + 1 <= HTTP_MAX_HEADER_SIZE
    ensures Within(p0, data, i, j + 1)
  {
    hide ScanAll, Open;
    var sc := Prefix(p0, data, i);
    PrefixRun(p0, data, i, j);
    assert SteadyAt(sc, data, i, j);
    forall k | i <= k < j + 1 && k < |data| ensures !OverAt(Prefix(p0, data, k), false) {
      PrefixRun(p0, data, i, k);
      assert SteadyAt(sc, data, i, k);
    }
  }

  /** A body is not part of the headers. */
  lemma BodyWithin(p0: Parser, data: string, i: nat, n: nat)
    requires i < |data| && ScanSound(Prefix(p0, data, i), 0) && Live(Prefix(p0, data, i))
    requires var sc := Prefix(p0, data, i); InBody(sc.p) && 1 <= n <= sc.p.contentLength < ULLONG_MAX && i + n <= |data|
    ensures Within(p0, data, i, i + n)
  {
    hide ScanAll, Open, StateFits, Widths;
    var sc := Prefix(p0, data, i);
    MarkFreeBody(sc);
    forall k | i <= k < i + n && k < |data| ensures !OverAt(Prefix(p0, data, k), false) {
      if k > i {
        BodyRun(sc, data[i..k]);
        PrefixRun(p0, data, i, k);
      }
    }
  }

  lemma EofWithin(p0: Parser, data: string, i: nat)
    requires i < |data| && ScanSound(Prefix(p0, data, i), 0) && Live(Prefix(p0, data, i))
    requires Prefix(p0, data, i).p.state.BodyIdentityEof?
    ensures Within(p0, data, i, |data|)
  {
    hide ScanAll, Open, StateFits, Widths;
    var sc := Prefix(p0, data, i);
    MarkFreeBody(sc);
    forall k | i <= k < |data| ensures !OverAt(Prefix(p0, data, k), false) {
      if k > i {
        EofRun(sc, data[i..k]);
        PrefixRun(p0, data, i, k);
      }
    }
  }

  method MemChr(data: string, from: nat, limit: nat, c: char) returns (pos: int)
    requires from + limit <= |data|
    ensures pos == -1 ==> forall k | from <= k < from + limit :: data[k] != c
    ensures pos != -1 ==> from <= pos < from + limit && data[pos] == c && forall k | from <= k < pos :: data[k] != c
  {
    pos := from;
    while pos < from + limit
      invariant from <= pos <= from + limit
      invariant forall k | from <= k < pos :: data[k] != c
    {
      if data[pos] == c { return; }
      pos := pos + 1;
    }
    pos := -1;
  }

  // ---------------------------------------------------------------- inner loops

  /** A scan at the top of the outer loop, where no inner loop is going on. */
  predicate Fresh(sc: Scan) { Live(sc) && !sc.inner && !sc.skip }

  /** The parser inside the loop of s_header_field has taken data[start..j]: it is the scan
      of those bytes except that only the first of them has been counted. */
  ghost predicate InField(sc: Scan, p: Parser, data: string, start: nat, j: nat)
    requires start <= j <= |data|
  {
    p.errno.OK? && p.state.HeaderField? && p.nread == sc.p.nread + 1 &&
    FieldIndex(p.headerState, p.index) && p.index <= 16 &&
    ScanAll(sc, data[start..j]) ==
    sc.(p := p.(nread := sc.p.nread + (j - start)), pend := Extend(sc.pend, Field, data[start..j]),
        used := sc.used + (j - start), inner := j > start)
  }

  lemma FieldLoopStart(sc: Scan, p: Parser, data: string, start: nat)
    requires start < |data| && Fresh(sc) && sc.p.state.HeaderField? && sc.pend.Since? && sc.pend.kind.Field?
    requires p == Count(sc.p) && FieldIndex(p.headerState, p.index) && p.index <= 16
    ensures InField(sc, p, data, start, start)
  {
    hide ByteStep;
    assert data[start..start] == "" && Extend(sc.pend, Field, "") == sc.pend;
  }

  lemma FieldLoopStep(sc: Scan, p: Parser, data: string, start: nat, j: nat)
    requires start <= j < |data| && InField(sc, p, data, start, j) && Token(data[j]) != '\0'
    requires Fresh(sc) && sc.pend.Since? && sc.pend.kind.Field?
    ensures InField(sc, FieldByte(p, data[j], Token(data[j])), data, start, j + 1)
  {
    hide ScanAll, ByteStep, FieldByte, FieldIndex, Token;
    var ch := data[j];
    var sj := ScanAll(sc, data[start..j]);
    assert data[start..j] + [ch] == data[start..j + 1];
    ScanAllSnoc(sc, data[start..j], ch);
    FieldByteFits(p, ch, Token(ch));
    FieldByteFrame(p, ch, Token(ch));
    FieldByteNread(p, ch, Token(ch), sj.p.nread + 1);
    FieldByteStep(sj, ch);
    ExtendTwice(sc.pend, Field, data[start..j], [ch]);
  }

  predicate ValueFits(p: Parser) {
    p.state.HeaderValue? && ValueIndex(p.headerState, p.index) && Widths(p) && ValueLength(p)
  }

  predicate AtValue(sc: Scan) { Fresh(sc) && sc.p.state.HeaderValue? && sc.pend.Since? && sc.pend.kind.Value? }

  /** The same for the loop of s_header_value; `skip` says that memchr has been used. */
  ghost predicate InValue(sc: Scan, p: Parser, data: string, start: nat, j: nat, skip: bool)
    requires start <= j <= |data|
  {
    p.errno.OK? && ValueFits(p) && p.nread == sc.p.nread + 1 &&
    ScanAll(sc, data[start..j]) ==
    sc.(p := p.(nread := sc.p.nread + (j - start)), pend := Extend(sc.pend, Value, data[start..j]),
        used := sc.used + (j - start), inner := j > start, skip := skip)
  }

  lemma ValueLoopStart(sc: Scan, p: Parser, data: string, start: nat)
    requires start < |data| && AtValue(sc) && p == Count(sc.p) && ValueFits(p)
    ensures InValue(sc, p, data, start, start, false)
  {
    hide ByteStep, ValueFits;
    assert data[start..start] == "" && Extend(sc.pend, Value, "") == sc.pend;
  }

  /** A byte that goes through the inner switch. */
  lemma ValueLoopStep(sc: Scan, p: Parser, data: string, start: nat, j: nat)
    requires start <= j < |data| && AtValue(sc) && InValue(sc, p, data, start, j, false)
    requires !IsCrLf(data[j]) && IsHeaderChar(data[j]) && ValueByte(p, data[j]).errno.OK?
    ensures InValue(sc, ValueByte(p, data[j]), data, start, j + 1, p.headerState.General?)
  {
    hide ScanAll, ByteStep, ValueByte, ValueIndex, IsHeaderChar, IsCrLf;
    var ch := data[j];
    var sj := ScanAll(sc, data[start..j]);
    assert data[start..j] + [ch] == data[start..j + 1];
    ScanAllSnoc(sc, data[start..j], ch);
    ValueByteIndex(p, ch);
    ValueByteLength(p, ch);
    ValueByteFrame(p, ch);
    ValueByteNread(p, ch, sj.p.nread + 1);
    ValueByteStep(sj, ch);
    ExtendTwice(sc.pend, Value, data[start..j], [ch]);
  }

  /** The bytes up to `to` that memchr has passed over. */
  lemma ValueLoopSkip(sc: Scan, p: Parser, data: string, start: nat, j: nat, to: nat)
    requires start < j <= to <= |data| && AtValue(sc) && InValue(sc, p, data, start, j, true)
    requires p.headerState.General? && NoCrLf(data[j..to])
    ensures InValue(sc, p, data, start, to, true)
  {
    hide ScanAll, ByteStep, ValueIndex, NoCrLf;
    var sj := ScanAll(sc, data[start..j]);
    assert data[start..j] + data[j..to] == data[start..to];
    ScanAllConcat(sc, data[start..j], data[j..to]);
    SkipRun(sj, data[j..to]);
    ExtendTwice(sc.pend, Value, data[start..j], data[j..to]);
  }

  /** A byte on which the loop of s_header_value gives up: the scan gives up in the same way. */
  lemma ValueLoopFails(sc: Scan, p: Parser, data: string, start: nat, j: nat, e: Errno)
    requires start <= j < |data| && AtValue(sc) && InValue(sc, p, data, start, j, false) && !IsCrLf(data[j])
    requires !e.OK? && e == if IsHeaderChar(data[j]) then ValueByte(p, data[j]).errno else InvalidHeaderToken
    ensures var sj := ScanAll(sc, data[start..j]); Live(sj) && FailsWith(sj, data[j], e)
    ensures var sj := ScanAll(sc, data[start..j]); sj.out == sc.out && sj.used == sc.used + (j - start)
    ensures !e.HeaderOverflow?
  {
    hide ScanAll, ValueByte, ValueIndex, IsHeaderChar;
    NoOverflow(p, data[j]);
    var ch := data[j];
    var sj := ScanAll(sc, data[start..j]);
    ValueByteNread(p, ch, sj.p.nread + 1);
    var p1 := Count(sj.p);
    assert Dispatch(p1, ch, sj.skip) == if IsHeaderChar(ch) then Go(ValueByte(p1, ch))
           else Fail(p1, InvalidHeaderToken);
    hide Dispatch;
  }

  lemma InValueIsLive(sc: Scan, p: Parser, data: string, start: nat, j: nat, skip: bool)
    requires start <= j <= |data| && InValue(sc, p, data, start, j, skip)
    ensures p.errno.OK? && p.nread == sc.p.nread + 1 && p.state.HeaderValue?
  {
    hide ScanAll;
  }

  lemma GeneralByte(p: Parser, ch: char)
    requires p.headerState.General?
    ensures ValueByte(p, ch) == p
  {
  }

  lemma ValueLoopSeen(data: string, j: nat, seen: nat)
    requires j < seen <= |data|
    requires forall k | j <= k < seen :: data[k] != '\r' && data[k] != '\n'
    ensures NoCrLf(data[j + 1..seen])
  {
  }

  /** Jumping over a full header limit of bytes exceeds it. */
  lemma ValueLoopLost(sc: Scan, p: Parser, data: string, start: nat, seen: nat)
    requires start + HTTP_MAX_HEADER_SIZE <= seen <= |data| && AtValue(sc) && InValue(sc, p, data, start, seen, true)
    ensures OverAt(ScanAll(sc, data[start..seen]), false)
  {
    hide ScanAll, ValueFits;
    assert p.state.HeaderValue? by { ValueFitsState(p); }
  }

  lemma NoOverflow(p: Parser, ch: char)
    requires !p.errno.HeaderOverflow?
    ensures !ValueByte(p, ch).errno.HeaderOverflow?
  {
  }

  /** The limit is exceeded inside the loop of s_header_value. */
  ghost predicate LostAt(sc: Scan, data: string, start: nat, k: nat)
    requires start <= k <= |data|
  {
    var sk := ScanAll(sc, data[start..k]);
    OverAt(sk, false) && sk.out == sc.out
  }

  lemma LostFacts(sc: Scan, p: Parser, data: string, start: nat, seen: nat)
    requires start + HTTP_MAX_HEADER_SIZE <= seen <= |data| && AtValue(sc) && InValue(sc, p, data, start, seen, true)
    ensures LostAt(sc, data, start, seen)
  {
    hide ScanAll, ValueFits;
    ValueLoopLost(sc, p, data, start, seen);
  }

  /** The byte ends the call with an error, without a callback. */
  predicate FailsWith(sc: Scan, ch: char, e: Errno) {
    var r := ByteStep(sc, ch);
    r.p.errno == e && r.out == sc.out && r.used == sc.used
  }

  // ---------------------------------------------------------------- the outer loop

  /** At the top of the outer loop the parser, its marks and its callbacks are those of the
      scan of data[..i]; at the end of the buffer an open inner loop has counted once more. */
  ghost predicate AtByte(p0: Parser, data: string, i: nat, p: Parser, marks: Marks, out: seq<Event>) {
    i <= |data| &&
    var sc := Prefix(p0, data, i);
    Live(sc) && ScanSound(sc, 0) && sc.used == i && MarksMatch(sc.pend, marks, data, i) && out == sc.out &&
    if i < |data| then Fresh(sc) && p == sc.p
    else p == if sc.inner then sc.p.(nread := sc.p.nread + 1) else sc.p
  }

  /** At the label reexecute: `cur` is the scan of data[..i] part way through the byte at i. */
  ghost predicate MidByte(p0: Parser, data: string, i: nat, cur: Scan, p: Parser, marks: Marks, out: seq<Event>) {
    i < |data| && Live(cur) && ScanSound(cur, 1) && cur.p == p && cur.used == i &&
    MarksMatch(cur.pend, marks, data, i) && out == cur.out &&
    Live(Prefix(p0, data, i)) && Trips(cur, data[i]) == ByteStep(Prefix(p0, data, i), data[i])
  }

  lemma OuterStart(p: Parser, data: string, marks: Marks)
    requires Valid(p) && p.errno.OK? && marks == MarkAt(map[], InitialMark(p), 0)
    ensures AtByte(p, data, 0, p, marks, [])
  {
    hide Widths, StateFits;
    assert data[..0] == "";
    assert ScanAll(Open(p), "") == Open(p);
    assert OpenOf(Open(p).pend) == InitialMark(p);
  }

  /** The byte at i, counted. */
  lemma EnterByte(p0: Parser, data: string, i: nat, p: Parser, marks: Marks, out: seq<Event>)
    requires AtByte(p0, data, i, p, marks, out) && i < |data|
    ensures var sc := Prefix(p0, data, i);
            Fresh(sc) && MidByte(p0, data, i, sc.(p := Count(sc.p)), Count(p), marks, out)
  {
    hide Prefix, MarksMatch, Trips, Count, Sound;
    var sc := Prefix(p0, data, i);
    CountSound(sc.p, OpenOf(sc.pend));
    assert Count(sc.p).state == sc.p.state && Count(sc.p).errno == sc.p.errno by { CountFrame(sc.p); }
  }

  lemma FeedStops(p0: Parser, data: string, i: nat)
    requires p0.errno.OK? && i <= |data| && data != "" && !Live(Prefix(p0, data, i))
    ensures var sc := Prefix(p0, data, i); Feed(p0, data) == Result(sc.p, sc.out, sc.used)
  {
    hide ScanAll, Open;
    Stopped(p0, data, i, |data|);
    assert data[..|data|] == data;
  }

  /** What one trip with outcome `o` leaves behind. */
  ghost predicate TripDone(p0: Parser, data: string, i: nat, cur: Scan, o: Outcome, marks: Marks, out: seq<Event>) {
    !o.p.errno.AssertFailed? && !o.p.errno.HeaderOverflow? &&
    if !o.p.errno.OK? then Feed(p0, data) == Result(o.p, out, i)
    else match o.ctl
      case Again => MidByte(p0, data, i, cur, o.p, marks, out)
      case Next => AtByte(p0, data, i + 1, o.p, marks, out)
      case Exit => i < |data| && Feed(p0, data) == Result(o.p, out, i + 1) && !Live(Prefix(p0, data, i + 1))
  }

  /** The outcome is the one of the switch, and it leaves an inner loop if it was in one. */
  predicate IsTrip(p: Parser, ch: char, skip: bool, o: Outcome) {
    o == Dispatch(p, ch, skip) && (InnerLoop(p.state) && o.p.errno.OK? ==> o.p.state != p.state)
  }

  lemma TripMatches(p0: Parser, data: string, i: nat, cur: Scan, p: Parser, marks: Marks, out: seq<Event>, o: Outcome)
    requires p0.errno.OK? && MidByte(p0, data, i, cur, p, marks, out) && IsTrip(p, data[i], cur.skip, o)
    ensures forall k | k in MarkAt(marks, o.mark, i) :: MarkAt(marks, o.mark, i)[k] <= i
    ensures TripDone(p0, data, i, Apply(cur, o, data[i]), o, FlushMarks(MarkAt(marks, o.mark, i), o.flush),
                     out + (FlushLog(MarkAt(marks, o.mark, i), o.flush, data, i) + o.events))
    ensures o.ctl.Again? && o.p.errno.OK? ==> Rank(o.p.state) < Rank(p.state) && !IsBulk(o.p.state)
    ensures o.p.nread <= p.nread
  {
    hide Dispatch, Prefix, MarksMatch, Apply, Sound, Feed, FlushMarks, FlushLog, MarkAt, Trips, Kept, OpenAfter, Rank,
      IsBulk, Advance, ByteStep;
    var ch := data[i];
    var cur' := Apply(cur, o, ch);
    var marked := MarkAt(marks, o.mark, i);
    TripKeepsSound(p, OpenOf(cur.pend), ch, cur.skip);
    KeptFacts(OpenOf(cur.pend), o);
    ApplyMatches(cur, o, ch, marks, data, i);
    ApplyOpens(cur, o, ch);
    MarksBelow(cur, o.mark, marks, data, i);
    PrefixStep(p0, data, i);
    TripsUnfold(cur, ch);
    if !o.p.errno.OK? {
      FeedStops(p0, data, i + 1);
    } else {
      ApplyNotInner(cur, o, ch);
      AdvanceMatches(cur', ch, FlushMarks(marked, o.flush), data, i);
      AdvanceFrame(cur', ch);
      if o.ctl.Exit? {
        FeedStops(p0, data, i + 1);
      }
    }
  }

  lemma TripsUnfold(sc: Scan, ch: char)
    ensures var o := Dispatch(sc.p, ch, sc.skip);
            var sc' := Apply(sc, o, ch);
            Trips(sc, ch) ==
            if !sc'.p.errno.OK? then sc'
            else match o.ctl
              case Again => Trips(sc', ch)
              case Next => Advance(sc', ch)
              case Exit => Advance(sc', ch).(halted := true)
  {
    hide Dispatch, Apply, Advance;
  }

  lemma TripDoneFacts(p0: Parser, data: string, i: nat, cur: Scan, o: Outcome, marks: Marks, out: seq<Event>)
    requires TripDone(p0, data, i, cur, o, marks, out)
    ensures !o.p.errno.HeaderOverflow?
    ensures !o.p.errno.OK? ==> Feed(p0, data) == Result(o.p, out, i)
    ensures o.p.errno.OK? && o.ctl.Exit? ==>
              i < |data| && Feed(p0, data) == Result(o.p, out, i + 1) && !Live(Prefix(p0, data, i + 1))
    ensures o.p.errno.OK? && o.ctl.Next? ==> AtByte(p0, data, i + 1, o.p, marks, out)
    ensures o.p.errno.OK? && o.ctl.Again? ==> MidByte(p0, data, i, cur, o.p, marks, out)
  {
    hide Feed, AtByte, MidByte;
  }

  /** Outside the inner loops, whether memchr was skipping makes no difference. */
  lemma NextTrip(p: Parser, ch: char, skip: bool)
    requires !InnerLoop(p.state)
    ensures IsTrip(p, ch, skip, Dispatch(p, ch, false))
  {
    hide DispatchStart, DispatchMethod, DispatchUrl, DispatchRequestVersion, DispatchResponseLine, DispatchFieldStart,
      DispatchField, DispatchValueEdges, DispatchHeadersDone, DispatchBody, DispatchChunk, DispatchValue;
  }

  lemma KeptFacts(open: Mark, o: Outcome)
    requires Kept(open, o)
    ensures !o.p.errno.AssertFailed? && Compatible(open, o.mark)
    ensures Sound(o.p, OpenAfter(open, o), if o.ctl.Again? then 1 else 0)
  {
  }

  lemma ApplyNotInner(sc: Scan, o: Outcome, ch: char)
    requires InnerLoop(sc.p.state) ==> o.p.state != sc.p.state
    ensures !Apply(sc, o, ch).inner && !Apply(sc, o, ch).skip
  {
  }

  lemma MarksBelow(sc: Scan, mark: Mark, marks: Marks, data: string, i: nat)
    requires MarksMatch(sc.pend, marks, data, i)
    ensures forall k | k in MarkAt(marks, mark, i) :: MarkAt(marks, mark, i)[k] <= i
  {
  }

  /** The loop of s_header_field stopped at j, and its bytes have been counted. */
  lemma FieldStops(p0: Parser, data: string, i: nat, p: Parser, j: nat, marks: Marks, out: seq<Event>)
    requires i < |data| && i <= j <= |data| && AtByte(p0, data, i, Prefix(p0, data, i).p, marks, out)
    requires var sc := Prefix(p0, data, i);
             sc.p.state.HeaderField? && sc.pend.Since? && sc.pend.kind.Field? && InField(sc, p, data, i, j)
    requires j == i ==> j < |data|
    ensures var sj := Prefix(p0, data, j);
            var p' := p.(nread := p.nread + (j - i));
            if j < |data| then p' == Count(sj.p) && MidByte(p0, data, j, sj.(p := p'), p', marks, out)
            else AtByte(p0, data, j, p', marks, out)
    ensures Live(Prefix(p0, data, j)) && Prefix(p0, data, j).p.nread + 1 == p.nread + (j - i)
  {
    hide ScanAll, Trips, Sound, FieldIndex, Open;
    var sc := Prefix(p0, data, i);
    PrefixRun(p0, data, i, j);
    ScanAllSound(sc, data[i..j]);
    var sj := Prefix(p0, data, j);
    CountSound(sj.p, OpenOf(sj.pend));
    PendGrows(sc.pend, Field, marks, data, i, j);
  }

  lemma PendGrows(pend: Pending, k: DataKind, marks: Marks, data: string, i: nat, j: nat)
    requires MarksMatch(pend, marks, data, i) && pend.Since? && pend.kind == k && i <= j <= |data|
    ensures MarksMatch(Extend(pend, k, data[i..j]), marks, data, j)
  {
    assert data[i - |pend.bytes|..i] + data[i..j] == data[i - |pend.bytes|..j];
  }

  /** The loop of s_header_value stopped at j, and its bytes have been counted. */
  lemma ValueStops(p0: Parser, data: string, i: nat, p: Parser, j: nat, skip: bool, marks: Marks, out: seq<Event>)
    requires i < |data| && i <= j <= |data| && AtByte(p0, data, i, Prefix(p0, data, i).p, marks, out)
    requires AtValue(Prefix(p0, data, i)) && InValue(Prefix(p0, data, i), p, data, i, j, skip)
    requires j == i ==> j < |data|
    ensures var sj := Prefix(p0, data, j);
            var p' := p.(nread := p.nread + (j - i));
            if j < |data| then p' == Count(sj.p) && MidByte(p0, data, j, sj.(p := p'), p', marks, out)
            else AtByte(p0, data, j, p', marks, out)
    ensures Live(Prefix(p0, data, j)) && Prefix(p0, data, j).p.nread + 1 == p.nread + (j - i)
  {
    hide ScanAll, Trips, Sound, ValueFits, Open;
    var sc := Prefix(p0, data, i);
    PrefixRun(p0, data, i, j);
    ScanAllSound(sc, data[i..j]);
    assert p.state.HeaderValue? by { ValueFitsState(p); }
    var sj := Prefix(p0, data, j);
    CountSound(sj.p, OpenOf(sj.pend));
    PendGrows(sc.pend, Value, marks, data, i, j);
  }

  lemma ValueFitsState(p: Parser)
    requires ValueFits(p)
    ensures p.state.HeaderValue?
  {
  }

  /** The loop of s_header_value gave up at j. */
  lemma ValueGivesUp(p0: Parser, data: string, i: nat, j: nat, e: Errno, marks: Marks, out: seq<Event>)
    requires i <= j < |data| && AtByte(p0, data, i, Prefix(p0, data, i).p, marks, out) && p0.errno.OK? && !e.OK?
    requires var sj := ScanAll(Prefix(p0, data, i), data[i..j]); Live(sj) && FailsWith(sj, data[j], e)
    requires var sj := ScanAll(Prefix(p0, data, i), data[i..j]); sj.out == out && sj.used == j
    ensures Feed(p0, data).p.errno == e && Feed(p0, data).out == out && Feed(p0, data).used == j
  {
    hide Prefix, ByteStep, ScanAll, Feed, MarksMatch, Sound;
    PrefixRun(p0, data, i, j);
    PrefixStep(p0, data, j);
    FeedStops(p0, data, j + 1);
  }

  /** The jump over n bytes of a body whose length is known, up to the last of them. */
  lemma BodyJump(p0: Parser, data: string, i: nat, n: nat, marks: Marks, out: seq<Event>)
    requires i < |data| && AtByte(p0, data, i, Prefix(p0, data, i).p, marks, out)
    requires var sc := Prefix(p0, data, i); InBody(sc.p) && 1 <= n <= sc.p.contentLength < ULLONG_MAX && i + n <= |data|
    ensures var sc := Prefix(p0, data, i);
            var sj := Prefix(p0, data, i + n - 1);
            MidByte(p0, data, i + n - 1, sj, sc.p.(contentLength := sc.p.contentLength - (n - 1)),
                    if n == 1 then marks else MarkAt(marks, MarkOf(Body), i), out)
  {
    hide ScanAll, Trips, Open, StateFits, Widths;
    var sc := Prefix(p0, data, i);
    var j := i + n - 1;
    MarkFreeBody(sc);
    if n > 1 {
      BodyRun(sc, data[i..j]);
      PrefixRun(p0, data, i, j);
      ScanAllSound(sc, data[i..j]);
      BodyPendGrows(sc.pend, marks, data, i, j);
    }
    var sj := Prefix(p0, data, j);
    CountSound(sj.p, OpenOf(sj.pend));
  }

  lemma MarkFreeBody(sc: Scan)
    requires ScanSound(sc, 0) && Live(sc) && (InBody(sc.p) || sc.p.state.BodyIdentityEof?)
    ensures MarkFree(sc.pend, Body)
  {
    hide Widths;
  }

  lemma BodyPendGrows(pend: Pending, marks: Marks, data: string, i: nat, j: nat)
    requires MarksMatch(pend, marks, data, i) && MarkFree(pend, Body) && i <= j <= |data|
    ensures MarksMatch(Extend(pend, Body, data[i..j]), MarkAt(marks, MarkOf(Body), i), data, j)
  {
    if pend.Since? {
      PendGrows(pend, Body, marks, data, i, j);
    }
  }

  /** The jump to the last byte of the buffer in a body that ends with the stream. */
  lemma EofJump(p0: Parser, data: string, i: nat, marks: Marks, out: seq<Event>)
    requires i < |data| && AtByte(p0, data, i, Prefix(p0, data, i).p, marks, out)
    requires Prefix(p0, data, i).p.state.BodyIdentityEof?
    ensures var sc := Prefix(p0, data, i);
            AtByte(p0, data, |data|, sc.p, MarkAt(marks, MarkOf(Body), i), out)
  {
    hide ScanAll, Open, StateFits, Widths;
    var sc := Prefix(p0, data, i);
    MarkFreeBody(sc);
    EofRun(sc, data[i..]);
    assert data[i..] == data[i..|data|];
    PrefixRun(p0, data, i, |data|);
    ScanAllSound(sc, data[i..]);
    BodyPendGrows(sc.pend, marks, data, i, |data|);
  }

  /** The end of the buffer: the callbacks for the mark still open. */
  lemma OuterEnd(p0: Parser, data: string, p: Parser, marks: Marks, out: seq<Event>)
    requires p0.errno.OK? && data != "" && AtByte(p0, data, |data|, p, marks, out)
    ensures |marks| <= 1 && forall k | k in marks :: marks[k] <= |data|
    ensures Feed(p0, data) == Result(p, out + EndLog(marks, data, p.statusCode), |data|)
  {
    hide ScanAll, Open, Sound;
    assert data[..|data|] == data;
    var sc := Prefix(p0, data, |data|);
    StatusMark(sc.p, OpenOf(sc.pend));
    EndLogOfOne(sc.pend, marks, data, p.statusCode);
  }

  lemma StatusMark(p: Parser, open: Mark)
    requires Sound(p, open, 0) && p.errno.OK?
    ensures open.MarkOf? && open.kind.Status? ==> open.kind.code == p.statusCode
  {
    hide Widths, FieldIndex, ValueIndex, MethodString, BodyLengthOk;
  }

  lemma EndLogOfOne(pend: Pending, marks: Marks, data: string, code: nat)
    requires MarksMatch(pend, marks, data, |data|) && (pend.Since? && pend.kind.Status? ==> pend.kind.code == code)
    ensures forall k | k in marks :: marks[k] <= |data|
    ensures EndLog(marks, data, code) == if pend.Nothing? then [] else [Data(pend.kind, pend.bytes)]
  {
    if pend.Since? {
      var m := |data| - |pend.bytes|;
      assert data[m..] == data[m..|data|];
      assert forall k :: MarkLog(marks, k, data) == if k == pend.kind then [Data(k, pend.bytes)] else [];
    }
  }

  /** The callbacks of the five marks in their order at the end of the function. */
  function EndLog(marks: Marks, data: string, code: nat): seq<Event>
    requires forall k | k in marks :: marks[k] <= |data|
  {
    MarkLog(marks, Field, data) + MarkLog(marks, Value, data) + MarkLog(marks, Url, data) +
    MarkLog(marks, Body, data) + MarkLog(marks, Status(code), data)
  }

  function MarkLog(marks: Marks, k: DataKind, data: string): seq<Event>
    requires k in marks ==> marks[k] <= |data|
  {
    if k in marks then [Data(k, data[marks[k]..])] else []
  }

  // ---------------------------------------------------------------- glue for Execute

  lemma AtByteStart(p0: Parser, data: string, i: nat, p: Parser, marks: Marks, out: seq<Event>)
    requires i < |data| && AtByte(p0, data, i, p, marks, out)
    ensures p == Prefix(p0, data, i).p && Fresh(Prefix(p0, data, i))
    ensures Prefix(p0, data, i).out == out && Prefix(p0, data, i).used == i
    ensures Count(p) == if ParsingHeader(p.state) then p.(nread := p.nread + 1) else p
  {
    hide Prefix, Sound, MarksMatch;
  }

  lemma CountExceeds(p0: Parser, data: string, i: nat)
    requires i <= |data| && Live(Prefix(p0, data, i)) && Prefix(p0, data, i).p.nread + 1 > HTTP_MAX_HEADER_SIZE
    requires if i == |data| then Prefix(p0, data, i).inner else ParsingHeader(Prefix(p0, data, i).p.state)
    ensures Exceeds(p0, data, i, Prefix(p0, data, i).out)
  {
    hide Prefix, Live;
    assert OverAt(Prefix(p0, data, i), i == |data|);
  }

  /** What Sound says of a parser about to enter the loop of s_header_field. */
  lemma FieldReady(p0: Parser, data: string, i: nat, cur: Scan, p: Parser, marks: Marks, out: seq<Event>)
    requires MidByte(p0, data, i, cur, p, marks, out) && p.state.HeaderField?
    ensures FieldIndex(p.headerState, p.index) && p.index <= 16 && cur.pend.Since? && cur.pend.kind.Field?
  {
    hide Prefix, Trips, MarksMatch, FieldIndex, ByteStep;
  }

  lemma InFieldFacts(sc: Scan, p: Parser, data: string, start: nat, j: nat)
    requires start <= j <= |data| && InField(sc, p, data, start, j)
    ensures p.errno.OK? && p.state.HeaderField? && p.nread == sc.p.nread + 1
  {
  }

  lemma FieldTrip(p: Parser, ch: char, skip: bool)
    requires p.state.HeaderField? && Token(ch) == '\0'
    ensures IsTrip(p, ch, skip, DispatchField(p, ch))
  {
    hide FieldByte;
  }

  lemma ValueTrip(p: Parser, ch: char, skip: bool)
    requires p.state.HeaderValue? && IsCrLf(ch)
    ensures IsTrip(p, ch, skip, DispatchValue(p, ch, false))
  {
    hide ValueByte;
  }

  lemma ValueReady(p0: Parser, data: string, i: nat, sc: Scan, p: Parser, marks: Marks, out: seq<Event>)
    requires MidByte(p0, data, i, sc.(p := p), p, marks, out) && p.state.HeaderValue? && p == Count(sc.p) && Fresh(sc)
    ensures ValueFits(p) && AtValue(sc)
  {
    hide Prefix, Trips, MarksMatch, ValueIndex, ByteStep, Widths;
  }

  lemma ValueExceeds(p0: Parser, data: string, i: nat)
    requires i <= |data| && exists k | i <= k < |data| :: LostAt(Prefix(p0, data, i), data, i, k)
    ensures Exceeds(p0, data, |data|, Prefix(p0, data, i).out)
  {
    hide Prefix, OverAt, ScanAll;
    var k :| i <= k < |data| && LostAt(Prefix(p0, data, i), data, i, k);
    PrefixRun(p0, data, i, k);
    assert OverAt(Prefix(p0, data, k), k == |data|);
  }

  /** The loop of s_header_field has counted too much. */
  lemma FieldExceeds(p0: Parser, data: string, i: nat, p: Parser, j: nat, marks: Marks, out: seq<Event>)
    requires i < |data| && i <= j <= |data| && AtByte(p0, data, i, Prefix(p0, data, i).p, marks, out)
    requires var sc := Prefix(p0, data, i);
             sc.p.state.HeaderField? && sc.pend.Since? && sc.pend.kind.Field? && InField(sc, p, data, i, j)
    requires p.nread + (j - i) > HTTP_MAX_HEADER_SIZE
    ensures Exceeds(p0, data, j, out)
  {
    hide ScanAll, Exceeds, FieldIndex, Open, MarksMatch, Sound;
    PrefixRun(p0, data, i, j);
    CountExceeds(p0, data, j);
  }

  /** The loop of s_header_value has counted too much. */
  lemma ValueOver(p0: Parser, data: string, i: nat, p: Parser, j: nat, skip: bool, marks: Marks, out: seq<Event>)
    requires i < |data| && i <= j <= |data| && AtByte(p0, data, i, Prefix(p0, data, i).p, marks, out)
    requires InValue(Prefix(p0, data, i), p, data, i, j, skip) && p.nread + (j - i) > HTTP_MAX_HEADER_SIZE
    ensures Exceeds(p0, data, j, out)
  {
    hide ScanAll, Exceeds, ValueFits, Open, MarksMatch, Sound;
    PrefixRun(p0, data, i, j);
    assert p.state.HeaderValue? by { ValueFitsState(p); }
    CountExceeds(p0, data, j);
  }

  lemma ByteSound(p0: Parser, data: string, i: nat, p: Parser, marks: Marks, out: seq<Event>)
    requires AtByte(p0, data, i, p, marks, out)
    ensures ScanSound(Prefix(p0, data, i), 0) && Live(Prefix(p0, data, i))
  {
    hide Prefix, ScanSound, MarksMatch, Live;
  }

  lemma WithinOne(p0: Parser, data: string, i: nat)
    requires i <= |data| && Live(Prefix(p0, data, i)) && Count(Prefix(p0, data, i).p).nread <= HTTP_MAX_HEADER_SIZE
    ensures Within(p0, data, i, i + 1)
  {
    hide Prefix;
    NotOver(Prefix(p0, data, i));
  }

  lemma ByteExceeds(p0: Parser, data: string, i: nat, p: Parser, marks: Marks, out: seq<Event>)
    requires i < |data| && AtByte(p0, data, i, p, marks, out) && ParsingHeader(p.state) &&
             p.nread + 1 > HTTP_MAX_HEADER_SIZE
    ensures Exceeds(p0, data, i, out)
  {
    hide Prefix, MarksMatch, Sound, Exceeds;
    CountExceeds(p0, data, i);
  }

  lemma WithinLess(p0: Parser, data: string, i: nat, j: nat)
    requires Within(p0, data, i, j + 1)
    ensures Within(p0, data, i, j)
  {
    hide OverAt, Prefix;
  }

  lemma WithinEnd(p0: Parser, data: string, i: nat)
    requires Within(p0, data, i, |data|)
    ensures Within(p0, data, i, |data| + 1)
  {
    hide OverAt, Prefix;
  }

  lemma BodyReady(p0: Parser, data: string, i: nat, cur: Scan, p: Parser, marks: Marks, out: seq<Event>)
    requires MidByte(p0, data, i, cur, p, marks, out) && (p.state.BodyIdentity? || p.state.ChunkData?)
    ensures InBody(p) && 0 < p.contentLength < ULLONG_MAX
  {
    hide Prefix, Trips, MarksMatch, ByteStep;
  }

  /** The jump over a body is the trip of its last byte. */
  lemma BodyTrip(p: Parser, ch: char, skip: bool, o: Outcome)
    requires InBody(p) && 0 < p.contentLength < ULLONG_MAX
    requires var q := p.(contentLength := p.contentLength - 1);
             o == if q.contentLength > 0 then Outcome(q, MarkOf(Body), NoFlush, [], Next)
                  else if q.state.BodyIdentity? then Outcome(q.(state := MessageDone), MarkOf(Body), Through(Body), [],
                                                             Again)
                  else Outcome(q.(state := ChunkDataAlmostDone), MarkOf(Body), NoFlush, [], Next)
    ensures IsTrip(p, ch, skip, o)
  {
  }

  lemma MarkTwice(marks: Marks, k: DataKind, i: nat, j: nat)
    ensures MarkAt(MarkAt(marks, MarkOf(k), i), MarkOf(k), j) == MarkAt(marks, MarkOf(k), i)
  {
  }

  lemma BodyCount(p: Parser)
    requires var s := Count(p).state; s.BodyIdentityEof? || s.BodyIdentity? || s.ChunkData?
    ensures Count(p) == p
  {
  }

  /** How a call may end before the buffer does. */
  ghost predicate Ends(p0: Parser, data: string, p: Parser, n: nat, out: seq<Event>) {
    if p.errno.HeaderOverflow? then Exceeds(p0, data, n, out)
    else
      var r := Feed(p0, data);
      p.errno == r.p.errno && (p.errno.OK? ==> p == r.p) && n == r.used && out == r.out &&
      (p.errno.OK? ==> n <= |data| && !Live(Prefix(p0, data, n)))
  }

  lemma EndIsValid(p0: Parser, data: string, p: Parser, n: nat, out: seq<Event>)
    requires Valid(Feed(p0, data).p) && Ends(p0, data, p, n, out)
    ensures Valid(p)
  {
    hide Widths, StateFits, Feed, Exceeds, Prefix;
  }

  lemma ExceedsIsOver(p0: Parser, data: string, n: nat, out: seq<Event>)
    requires Exceeds(p0, data, n, out)
    ensures OverLimit(p0, data)
  {
    hide OverAt, Prefix;
  }

  lemma NoBytesOver(p0: Parser)
    ensures !OverLimit(p0, "")
  {
    assert ""[..0] == "";
  }

  /** The call has ended early without an error. */
  lemma NeverOver(p0: Parser, data: string, n: nat)
    requires n <= |data| && Within(p0, data, 0, n) && !Live(Prefix(p0, data, n))
    ensures !OverLimit(p0, data)
  {
    hide Prefix, Live;
    forall k | 0 <= k <= |data| ensures !OverAt(Prefix(p0, data, k), k == |data|) {
      if k >= n { Stopped(p0, data, n, k); }
    }
  }

  /** The call has ended with the buffer. */
  lemma OuterWithin(p0: Parser, data: string, p: Parser, marks: Marks, out: seq<Event>)
    requires AtByte(p0, data, |data|, p, marks, out) && Within(p0, data, 0, |data|) && p.nread <= HTTP_MAX_HEADER_SIZE
    ensures !OverLimit(p0, data)
  {
    hide Prefix, Sound, MarksMatch;
  }

  datatype Entry = Stop | Over | Failed | Enter(o: Outcome)

  class HttpParser {
    var p: Parser              // struct http_parser
    var callbacks: seq<Event>  // the calls made to the settings callbacks so far

    predicate Ready()
      reads this
    {
      Valid(p) && (p.errno.OK? ==> p.nread <= HTTP_MAX_HEADER_SIZE)
    }

    constructor (kind: MessageKind)
      ensures Ready() && p == Init(kind) && callbacks == []
    {
      p := Init(kind);
      callbacks := [];
    }

    /** The inner loop of s_header_field from `start` on: stops at the first byte that is no
        token byte. `sc` is the scan at `start`, whose byte has just been counted. */
    method ScanField(data: string, start: nat, ghost sc: Scan) returns (j: nat)
      requires start < |data| && Fresh(sc) && sc.p.state.HeaderField? && sc.pend.Since? && sc.pend.kind.Field?
      requires p == Count(sc.p) && FieldIndex(p.headerState, p.index) && p.index <= 16
      modifies this`p
      ensures start <= j <= |data| && (j < |data| ==> Token(data[j]) == '\0')
      ensures InField(sc, p, data, start, j) && Steady(sc, data, start, j)
    {
      hide *;
      j := start;
      FieldLoopStart(sc, p, data, start);
      FieldSteady(sc, p, data, start, j);
      SteadyMore(sc, data, start, j);
      while j < |data|
        invariant start <= j <= |data|
        invariant InField(sc, p, data, start, j) && Steady(sc, data, start, j)
      {
        var ch := data[j];
        var c := Token(ch);
        if c == '\0' { break; }
        FieldLoopStep(sc, p, data, start, j);
        p := FieldByte(p, ch, c);
        j := j + 1;
        FieldSteady(sc, p, data, start, j);
        SteadyMore(sc, data, start, j);
      }
    }

    /** The inner loop of s_header_value from `start` on: stops at CR, LF or an error. When
        memchr finds neither within the header limit, the rest of the buffer is given up
        (`lost`), and the limit is exceeded. */
    method ScanValue(data: string, start: nat, ghost sc: Scan)
      returns (j: nat, ghost skip: bool, ghost lost: bool)
      requires start < |data| && AtValue(sc) && p == Count(sc.p) && ValueFits(p)
      modifies this`p
      ensures start <= j <= |data|
      ensures p.errno.OK? && !lost ==>
                InValue(sc, p, data, start, j, skip) && Steady(sc, data, start, j) && (j < |data| ==> IsCrLf(data[j]))
      ensures p.errno.OK? && lost ==>
                j == |data| && p.nread == sc.p.nread + 1 && |data| - start >= HTTP_MAX_HEADER_SIZE &&
                exists k | start <= k < |data| :: LostAt(sc, data, start, k)
      ensures !p.errno.OK? ==>
                j < |data| && !p.errno.HeaderOverflow? &&
                var sj := ScanAll(sc, data[start..j]);
                Live(sj) && sj.out == sc.out && sj.used == sc.used + (j - start) && FailsWith(sj, data[j], p.errno)
    {
      hide ScanAll, InValue, ValueByte, ValueFits, Live, OverAt, AtValue, IsHeaderChar, FailsWith, Count, NoCrLf,
        Steady, SteadyAt, LostAt;
      j, skip, lost := start, false, false;
      ValueLoopStart(sc, p, data, start);
      InValueIsLive(sc, p, data, start, j, skip);
      ValueSteady(sc, p, data, start, j, skip);
      SteadyMore(sc, data, start, j);
      while j < |data|
        invariant start <= j <= |data|
        invariant p.errno.OK? && (!lost ==> InValue(sc, p, data, start, j, skip) && Steady(sc, data, start, j))
        invariant skip && j < |data| ==> IsCrLf(data[j])
        invariant lost ==>
                    j == |data| && p.nread == sc.p.nread + 1 && |data| - start >= HTTP_MAX_HEADER_SIZE &&
                    exists k | start <= k < |data| :: LostAt(sc, data, start, k)
      {
        InValueIsLive(sc, p, data, start, j, skip);
        var ch := data[j];
        if IsCrLf(ch) { return; }
        if !IsHeaderChar(ch) {
          ValueLoopFails(sc, p, data, start, j, InvalidHeaderToken);
          p := p.(errno := InvalidHeaderToken);
          return;
        }
        if p.headerState.General? {
          var limit := if |data| - j < HTTP_MAX_HEADER_SIZE then |data| - j else HTTP_MAX_HEADER_SIZE;
          var cr := MemChr(data, j, limit, '\r');
          var lf := MemChr(data, j, limit, '\n');
          var to: nat := if cr != -1 then (if lf != -1 && cr >= lf then lf else cr) else if lf != -1 then lf
            else |data|;
          GeneralByte(p, ch);
          ValueLoopStep(sc, p, data, start, j);
          ValueSteady(sc, p, data, start, j + 1, true);
          SteadyMore(sc, data, start, j + 1);
          var seen := if to <= j + limit then to else j + limit;
          ValueLoopSeen(data, j, seen);
          ValueLoopSkip(sc, p, data, start, j + 1, seen);
          SkipSteady(sc, p, data, start, j + 1, seen);
          skip := true;
          if seen < to {
            lost := true;
            LostFacts(sc, p, data, start, seen);
          }
          j := to;
        } else {
          var q := ValueByte(p, ch);
          if !q.errno.OK? {
            ValueLoopFails(sc, p, data, start, j, q.errno);
            p := q;
            return;
          }
          ValueLoopStep(sc, p, data, start, j);
          ValueSteady(sc, q, data, start, j + 1, false);
          SteadyMore(sc, data, start, j + 1);
          p := q;
          j := j + 1;
        }
      }
    }

    /** MARK, CALLBACK_DATA and the notify callbacks of one trip. */
    method Perform(o: Outcome, marks: Marks, data: string, i: nat) returns (marks': Marks)
      requires i < |data| && forall k | k in MarkAt(marks, o.mark, i) :: MarkAt(marks, o.mark, i)[k] <= i
      modifies this
      ensures p == o.p && marks' == FlushMarks(MarkAt(marks, o.mark, i), o.flush)
      ensures callbacks == old(callbacks) + (FlushLog(MarkAt(marks, o.mark, i), o.flush, data, i) + o.events)
    {
      p := o.p;
      marks' := MarkAt(marks, o.mark, i);
      callbacks := callbacks + (FlushLog(marks', o.flush, data, i) + o.events);
      marks' := FlushMarks(marks', o.flush);
    }

    /** The rest of the byte at i once the switch has been entered with outcome `first`:
        the callbacks, and more trips while the switch asks for `goto reexecute`. The scan
        may hold the body mark back until the outcome sets it (`held`). Returns the next
        position and whether the call ends there. */
    method FinishByte(first: Outcome, data: string, i: nat, marks: Marks, ghost p0: Parser, ghost cur0: Scan,
                      ghost looked: Parser, ghost held: Marks, ghost out: seq<Event>)
      returns (j: nat, done: bool, marks': Marks, ghost out': seq<Event>)
      requires p0.errno.OK? && i < |data| && MidByte(p0, data, i, cur0, looked, held, out)
      requires IsTrip(looked, data[i], cur0.skip, first) && MarkAt(marks, first.mark, i) == MarkAt(held, first.mark, i)
      modifies this
      ensures out <= out' && callbacks == old(callbacks) + out'[|out|..] && p.nread <= looked.nread
      ensures !p.errno.HeaderOverflow?
      ensures if done then Feed(p0, data) == Result(p, out', j) &&
              (p.errno.OK? ==> j == i + 1 && !Live(Prefix(p0, data, j)))
              else p.errno.OK? && j == i + 1 && AtByte(p0, data, j, p, marks', out')
    {
      hide Feed, Prefix, AtByte, MidByte, Dispatch, Apply, FlushLog, FlushMarks, MarkAt, IsTrip, TripDone, Live;
      var o := first;
      marks' := marks;
      out' := out;
      ghost var cur, seen, pre := cur0, looked, held;
      while true
        invariant MidByte(p0, data, i, cur, seen, pre, out') && IsTrip(seen, data[i], cur.skip, o)
        invariant MarkAt(marks', o.mark, i) == MarkAt(pre, o.mark, i)
        invariant out <= out' && callbacks == old(callbacks) + out'[|out|..] && seen.nread <= looked.nread
        decreases Rank(seen.state)
      {
        TripMatches(p0, data, i, cur, seen, pre, out', o);
        ghost var called := FlushLog(MarkAt(marks', o.mark, i), o.flush, data, i) + o.events;
        marks' := Perform(o, marks', data, i);
        assert out' + called == out'[..|out|] + (out'[|out|..] + called);
        out' := out' + called;
        cur := Apply(cur, o, data[i]);
        TripDoneFacts(p0, data, i, cur, o, marks', out');
        if !p.errno.OK? { return i, true, marks', out'; }
        if o.ctl.Exit? { return i + 1, true, marks', out'; }
        if o.ctl.Next? { return i + 1, false, marks', out'; }
        seen, pre := p, marks';
        o := Dispatch(p, data[i], false);
        NextTrip(p, data[i], cur.skip);
      }
    }

    /** The way into the switch for the byte at i: straight, or through one of the inner loops
        and jumps, which may end the buffer (Stop), exceed the header limit (Over) or run
        into an error (Failed). */
    method EnterSwitch(data: string, i: nat, marks: Marks, ghost p0: Parser, ghost out: seq<Event>)
      returns (e: Entry, j: nat, marks': Marks, ghost cur: Scan, ghost looked: Parser, ghost held: Marks)
      requires p0.errno.OK? && i < |data| && p.errno.OK? && p.nread <= HTTP_MAX_HEADER_SIZE
      requires var sc := Prefix(p0, data, i);
               Fresh(sc) && p == Count(sc.p) && AtByte(p0, data, i, sc.p, marks, out) &&
               MidByte(p0, data, i, sc.(p := p), p, marks, out)
      modifies this`p
      ensures e.Stop? ==>
                j == |data| && p.errno.OK? && p.nread <= HTTP_MAX_HEADER_SIZE && AtByte(p0, data, j, p, marks', out)
      ensures e.Over? ==> p.errno.HeaderOverflow? && Exceeds(p0, data, j, out)
      ensures e.Stop? || e.Enter? ==> Within(p0, data, i, j + 1)
      ensures e.Failed? ==>
                !p.errno.OK? && !p.errno.HeaderOverflow? &&
                var r := Feed(p0, data); r.p.errno == p.errno && r.out == out && r.used == j
      ensures e.Enter? ==>
                i <= j < |data| && MidByte(p0, data, j, cur, looked, held, out) &&
                IsTrip(looked, data[j], cur.skip, e.o) &&
                MarkAt(marks', e.o.mark, j) == MarkAt(held, e.o.mark, j) && looked.nread <= HTTP_MAX_HEADER_SIZE
    {
      hide Feed, Prefix, AtByte, MidByte, Dispatch, MarkAt, IsTrip, Exceeds, Within, InField, InValue, Live, Count,
        ScanAll, FieldIndex, ValueFits, AtValue, FailsWith, OverAt, DispatchField, DispatchValue, Fresh;
      ghost var sc := Prefix(p0, data, i);
      j, marks', cur, looked, held := i, marks, sc.(p := p), p, marks;
      if p.state.HeaderField? {
        e, j, cur, looked := EnterField(data, i, marks, p0, out);
      } else if p.state.HeaderValue? {
        e, j, cur, looked := EnterValue(data, i, marks, p0, out);
      } else if p.state.BodyIdentity? || p.state.ChunkData? {
        BodyReady(p0, data, i, cur, p, marks, out);
        BodyCount(sc.p);
        assert p.state.ChunkData? ==> p.flags.chunked;
        assert p.contentLength != 0 && p.contentLength != ULLONG_MAX;
        var toRead := if p.contentLength <= |data| - i then p.contentLength else |data| - i;
        BodyJump(p0, data, i, toRead, marks, out);
        ByteSound(p0, data, i, sc.p, marks, out);
        BodyWithin(p0, data, i, toRead);
        j := i + (toRead - 1);
        marks' := MarkAt(marks, MarkOf(Body), i);
        held := if toRead == 1 then marks else marks';
        looked := p.(contentLength := p.contentLength - (toRead - 1));
        cur := Prefix(p0, data, j);
        p := p.(contentLength := p.contentLength - toRead);
        var o := Outcome(p, MarkOf(Body), NoFlush, [], Next);
        if p.contentLength == 0 {
          o := if p.state.BodyIdentity? then Outcome(p.(state := MessageDone), MarkOf(Body), Through(Body), [], Again)
               else o.(p := p.(state := ChunkDataAlmostDone));
        }
        e := Enter(o);
        BodyTrip(looked, data[j], cur.skip, o);
        MarkTwice(marks, Body, i, j);
      } else if p.state.BodyIdentityEof? {
        BodyCount(sc.p);
        EofJump(p0, data, i, marks, out);
        ByteSound(p0, data, i, sc.p, marks, out);
        EofWithin(p0, data, i);
        WithinEnd(p0, data, i);
        marks' := MarkAt(marks, MarkOf(Body), i);
        j := |data|;
        e := Stop;
      } else {
        e := Enter(Dispatch(p, data[i], false));
        NextTrip(p, data[i], cur.skip);
        ByteSound(p0, data, i, sc.p, marks, out);
        WithinOne(p0, data, i);
      }
    }

    method EnterField(data: string, i: nat, marks: Marks, ghost p0: Parser, ghost out: seq<Event>)
      returns (e: Entry, j: nat, ghost cur: Scan, ghost looked: Parser)
      requires p0.errno.OK? && i < |data| && p.state.HeaderField? && p.nread <= HTTP_MAX_HEADER_SIZE
      requires var sc := Prefix(p0, data, i);
               Fresh(sc) && p == Count(sc.p) && AtByte(p0, data, i, sc.p, marks, out) &&
               MidByte(p0, data, i, sc.(p := p), p, marks, out)
      modifies this`p
      ensures e.Stop? ==>
                j == |data| && p.errno.OK? && p.nread <= HTTP_MAX_HEADER_SIZE && AtByte(p0, data, j, p, marks, out)
      ensures e.Over? ==> p.errno.HeaderOverflow? && Exceeds(p0, data, j, out)
      ensures e.Stop? || e.Enter? ==> Within(p0, data, i, j + 1)
      ensures !e.Failed?
      ensures e.Enter? ==>
                i <= j < |data| && MidByte(p0, data, j, cur, looked, marks, out) &&
                IsTrip(looked, data[j], cur.skip, e.o) && looked.nread <= HTTP_MAX_HEADER_SIZE
    {
      hide Feed, Prefix, AtByte, MidByte, Dispatch, MarkAt, IsTrip, Exceeds, Within, Steady, InField, Live, Count,
        ScanAll, FieldIndex, OverAt, DispatchField;
      ghost var sc := Prefix(p0, data, i);
      FieldReady(p0, data, i, sc.(p := p), p, marks, out);
      CountFrame(sc.p);
      j := ScanField(data, i, sc);
      InFieldFacts(sc, p, data, i, j);
      FieldStops(p0, data, i, p, j, marks, out);
      p := p.(nread := p.nread + (j - i));
      looked := p;
      cur := if j < |data| then Prefix(p0, data, j).(p := p) else sc;
      if p.nread > HTTP_MAX_HEADER_SIZE {
        FieldExceeds(p0, data, i, looked.(nread := looked.nread - (j - i)), j, marks, out);
        p := p.(errno := HeaderOverflow);
        return Over, j, cur, looked;
      }
      SteadyWithin(p0, data, i, j);
      if j == |data| { return Stop, j, cur, looked; }
      FieldTrip(p, data[j], cur.skip);
      e := Enter(DispatchField(p, data[j])); // ':' ends the name, anything else is an error
    }

    method EnterValue(data: string, i: nat, marks: Marks, ghost p0: Parser, ghost out: seq<Event>)
      returns (e: Entry, j: nat, ghost cur: Scan, ghost looked: Parser)
      requires p0.errno.OK? && i < |data| && p.state.HeaderValue? && p.nread <= HTTP_MAX_HEADER_SIZE
      requires var sc := Prefix(p0, data, i);
               Fresh(sc) && p == Count(sc.p) && AtByte(p0, data, i, sc.p, marks, out) &&
               MidByte(p0, data, i, sc.(p := p), p, marks, out)
      modifies this`p
      ensures e.Stop? ==>
                j == |data| && p.errno.OK? && p.nread <= HTTP_MAX_HEADER_SIZE && AtByte(p0, data, j, p, marks, out)
      ensures e.Over? ==> p.errno.HeaderOverflow? && Exceeds(p0, data, j, out)
      ensures e.Stop? || e.Enter? ==> Within(p0, data, i, j + 1)
      ensures e.Failed? ==>
                !p.errno.OK? && !p.errno.HeaderOverflow? &&
                var r := Feed(p0, data); r.p.errno == p.errno && r.out == out && r.used == j
      ensures e.Enter? ==>
                i <= j < |data| && MidByte(p0, data, j, cur, looked, marks, out) &&
                IsTrip(looked, data[j], cur.skip, e.o) && looked.nread <= HTTP_MAX_HEADER_SIZE
    {
      hide Feed, Prefix, AtByte, MidByte, Dispatch, MarkAt, IsTrip, Exceeds, Within, Steady, LostAt, InValue, Live,
        Count, ScanAll, ValueFits, AtValue, FailsWith, OverAt, DispatchValue;
      ghost var sc := Prefix(p0, data, i);
      ValueReady(p0, data, i, sc, p, marks, out);
      AtByteStart(p0, data, i, sc.p, marks, out);
      CountFrame(sc.p);
      ghost var skip, lost;
      j, skip, lost := ScanValue(data, i, sc);
      cur, looked := sc, p;
      if !p.errno.OK? {
        ValueGivesUp(p0, data, i, j, p.errno, marks, out);
        return Failed, j, cur, looked;
      }
      if lost {
        ValueExceeds(p0, data, i);
      } else {
        InValueIsLive(sc, p, data, i, j, skip);
        ValueStops(p0, data, i, p, j, skip, marks, out);
      }
      p := p.(nread := p.nread + (j - i));
      looked := p;
      cur := if j < |data| then Prefix(p0, data, j).(p := p) else sc;
      if p.nread > HTTP_MAX_HEADER_SIZE {
        if !lost { ValueOver(p0, data, i, looked.(nread := looked.nread - (j - i)), j, skip, marks, out); }
        p := p.(errno := HeaderOverflow);
        return Over, j, cur, looked;
      }
      SteadyWithin(p0, data, i, j);
      if j == |data| { return Stop, j, cur, looked; }
      ValueTrip(p, data[j], cur.skip);
      e := Enter(DispatchValue(p, data[j], false)); // CR or LF
    }

    /** One turn of the outer loop. Returns the next position and whether the call ends. */
    method Turn(data: string, i: nat, marks: Marks, ghost p0: Parser, ghost out: seq<Event>)
      returns (j: nat, done: bool, marks': Marks, ghost out': seq<Event>)
      requires p0.errno.OK? && i < |data| && p.errno.OK? && p.nread <= HTTP_MAX_HEADER_SIZE
      requires AtByte(p0, data, i, p, marks, out)
      modifies this
      ensures out <= out' && callbacks == old(callbacks) + out'[|out|..]
      ensures p.errno.OK? ==> p.nread <= HTTP_MAX_HEADER_SIZE
      ensures if done then Ends(p0, data, p, j, out')
              else i < j <= |data| && p.errno.OK? && AtByte(p0, data, j, p, marks', out')
      ensures p.errno.OK? ==> Within(p0, data, i, j)
    {
      hide Feed, Prefix, AtByte, MidByte, Dispatch, MarkAt, Exceeds, Within, Count, IsTrip, Live;
      marks', out' := marks, out;
      assert callbacks == callbacks + out'[|out|..];
      EnterByte(p0, data, i, p, marks, out);
      AtByteStart(p0, data, i, p, marks, out);
      CountFrame(p);
      if ParsingHeader(p.state) {
        p := p.(nread := p.nread + 1);
        if p.nread > HTTP_MAX_HEADER_SIZE {
          ByteExceeds(p0, data, i, p.(nread := p.nread - 1), marks, out);
          p := p.(errno := HeaderOverflow);
          return i, true, marks', out';
        }
      }
      var e;
      ghost var cur, looked, held;
      e, j, marks', cur, looked, held := EnterSwitch(data, i, marks, p0, out);
      match e {
        case Over | Failed => done := true;
        case Stop =>
          done := false;
          WithinLess(p0, data, i, j);
        case Enter(o) => j, done, marks', out' := FinishByte(o, data, j, marks', p0, cur, looked, held, out);
      }
    }

    /** http_parser_execute: returns the number of bytes parsed. */
    method Execute(data: string) returns (n: nat)
      requires Ready() && |data| < 0x8000_0000
      modifies this
      ensures Ready() && Executes(old(p), old(callbacks), data, p, callbacks, n) && old(callbacks) <= callbacks
    {
      hide Valid, Feed, AtByte, MarkAt, OverLimit, Exceeds, Within, EndLog, InitialMark, EndOfStream, Prefix;
      if !p.errno.OK? { return 0; }
      ghost var p0, base := p, callbacks;
      FeedKeepsValid(p0, data);
      if |data| == 0 {
        n := EndStream();
        NoBytesOver(p0);
        return;
      }
      ghost var out: seq<Event> := [];
      var marks := MarkAt(map[], InitialMark(p), 0);
      OuterStart(p, data, marks);
      WithinNone(p0, data);
      var i := 0;
      while i < |data|
        invariant 0 <= i <= |data| && p.errno.OK? && p.nread <= HTTP_MAX_HEADER_SIZE
        invariant AtByte(p0, data, i, p, marks, out) && callbacks == base + out && Within(p0, data, 0, i)
      {
        ghost var before, from := out, i;
        var done;
        i, done, marks, out := Turn(data, i, marks, p0, out);
        assert base + before + out[|before|..] == base + out;
        if p.errno.OK? { WithinBoth(p0, data, 0, from, i); }
        if done {
          EndIsValid(p0, data, p, i, out);
          if p.errno.OK? { NeverOver(p0, data, i); }
          if p.errno.HeaderOverflow? { ExceedsIsOver(p0, data, i, out); }
          return i;
        }
      }
      OuterEnd(p0, data, p, marks, out);
      OuterWithin(p0, data, p, marks, out);
      assert |marks| <= 1; // at most one mark is left
      callbacks := callbacks + EndLog(marks, data, p.statusCode);
      assert base + (out + EndLog(marks, data, p.statusCode)) == callbacks;
      n := |data|;
    }

    /** The call with length 0. */
    method EndStream() returns (n: nat)
      requires p.errno.OK? && p.nread <= HTTP_MAX_HEADER_SIZE
      modifies this
      ensures !p.errno.HeaderOverflow? && p.nread <= HTTP_MAX_HEADER_SIZE
      ensures var r := Feed(old(p), ""); p == r.p && n == r.used && callbacks == old(callbacks) + r.out
    {
      EndIsFeed(p);
      hide Feed;
      if p.state.BodyIdentityEof? {
        callbacks := callbacks + [MessageComplete];
        n := 0;
      } else if p.state.Dead? || p.state.StartReqOrRes? || p.state.StartRes? || p.state.StartReq? {
        assert callbacks + [] == callbacks;
        n := 0;
      } else {
        assert callbacks + [] == callbacks;
        p := p.(errno := InvalidEofState);
        n := 1;
      }
    }
  }
}
