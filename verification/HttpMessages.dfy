/** Whole messages behind their first line: when an upgrade is reported, what follows the
    headers, and what the parser waits for when the message is complete. */
module HttpMessages {
  import opened HttpTypes
  import opened HttpAutomaton
  import opened HttpScan
  import opened HttpRuns
  import opened HttpInvariant
  import opened HttpNread
  import opened HttpPieces
  import opened HttpFragments
  import opened HttpReads
  import opened HttpNames
  import opened HttpValues
  import opened HttpHeaders
  import opened HttpConnection
  import opened HttpBodies
  import opened HttpChunks
  import opened HttpSections

  // ---------------------------------------------------------------- what a head says

  /** What the first line and the headers of a message say. */
  datatype Head = Head(request: bool, httpMethod: Method, status: nat, major: nat, minor: nat, lines: seq<Line>)

  /** What comes behind the headers. */
  datatype Framing = Empty | Sized | Chunked | UntilEnd

  /** CONNECT, or an Upgrade header together with a Connection header that says upgrade. */
  predicate Upgrades(h: Head) { h.httpMethod.CONNECT? || (Asks(h.lines) && Says(h.lines, "upgrade")) }

  /** The responses that have no body unless their headers announce one. */
  predicate IsBodiless(status: nat) { 100 <= status <= 199 || status == 204 || status == 304 }

  function FramingOf(h: Head): Framing {
    var hs := HeadersOf(h.lines);
    if h.httpMethod.CONNECT? then Empty
    else if SaysChunked(hs) then Chunked
    else if Length(hs).Some? then if Length(hs).value == 0 then Empty else Sized
    else if h.request || IsBodiless(h.status) || Upgrades(h) then Empty
    else UntilEnd
  }

  /** Whether another message may follow: from HTTP/1.1 on unless a Connection header says
      close, before that only if one says keep-alive, and never behind a body without an end. */
  predicate KeepsAlive(h: Head) {
    (if h.major > 0 && h.minor > 0 then !Says(h.lines, "close") else Says(h.lines, "keep-alive")) &&
    (h.request || IsBodiless(h.status) || SaysChunked(HeadersOf(h.lines)) || Length(HeadersOf(h.lines)).Some?)
  }

  /** A head that frames its body one way at most. */
  predicate IsHeadOf(h: Head) {
    AreLines(h.lines) && !(SaysChunked(HeadersOf(h.lines)) && Length(HeadersOf(h.lines)).Some?)
  }

  /** What is sent behind the headers: a body, chunks, or everything up to the end of the stream. */
  datatype Load = Whole(body: string) | Pieces(chunks: seq<string>, trailer: seq<Header>) | ToEnd(body: string)

  /** Headers behind the last chunk, none of which says anything about the message. */
  predicate IsTrailer(hs: seq<Header>) { forall i | 0 <= i < |hs| :: IsOtherHeader(hs[i]) }

  predicate Fits(h: Head, load: Load) {
    match FramingOf(h)
    case Empty => load == Whole("")
    case Sized => load.Whole? && Length(HeadersOf(h.lines)) == Some(|load.body|)
    case Chunked => load.Pieces? && AreChunks(load.chunks) && IsTrailer(load.trailer)
    case UntilEnd => load.ToEnd?
  }

  function LoadText(load: Load): string {
    match load
    case Whole(body) => body
    case Pieces(chunks, trailer) => PrintChunks(chunks) + "0\r\n" + PrintHeaders(trailer) + "\r\n"
    case ToEnd(body) => body
  }

  /** The lines, the empty line, and what follows it. */
  function RestText(h: Head, load: Load): string { PrintHeaders(HeadersOf(h.lines)) + "\r\n" + LoadText(load) }

  /** The callbacks for the headers. */
  function HeadTrace(h: Head): seq<Event> {
    HeaderTrace(HeadersOf(h.lines)) + [HeadersComplete(h.httpMethod, Upgrades(h), Announced(HeadersOf(h.lines)))]
  }

  /** The callbacks for chunks and what follows them. */
  function PiecesTrace(chunks: seq<string>, trailer: seq<Header>): seq<Event> {
    ChunksTrace(chunks) + [ChunkHeader(0)] + HeaderTrace(trailer) + [ChunkComplete, MessageComplete]
  }

  /** The callbacks for a body that ends before the stream does. */
  function LoadTrace(load: Load): seq<Event>
    requires !load.ToEnd?
  {
    match load
    case Whole(body) => (if body == "" then [] else [Data(Body, body)]) + [MessageComplete]
    case Pieces(chunks, trailer) => PiecesTrace(chunks, trailer)
  }

  // ---------------------------------------------------------------- reading up to a point

  /** After these bytes the scan is at this parser with no open data and these callbacks; with
      `stop` the last of the bytes has ended the call. */
  predicate Reaches(sc: Scan, s: string, r: Parser, out: seq<Event>, stop: bool) {
    var e := ScanAll(sc, s);
    e.p.errno.OK? && e.halted == stop && Alike(r, e.p) && e.pend.Nothing? && e.out == out &&
    (stop ==> s != "" && Live(ScanAll(sc, s[..|s| - 1])))
  }

  lemma ReachesIsAt(sc: Scan, s: string, r: Parser, out: seq<Event>)
    ensures Reaches(sc, s, r, out, false) <==> At(ScanAll(sc, s), r, Nothing, out)
  {
    hide ScanAll;
  }

  lemma ReachesAfter(sc: Scan, a: string, b: string, r: Parser, out: seq<Event>, stop: bool)
    requires Reaches(ScanAll(sc, a), b, r, out, stop)
    ensures Reaches(sc, a + b, r, out, stop)
  {
    hide ScanAll;
    ScanAllConcat(sc, a, b);
    if b != "" {
      assert (a + b)[..|a + b| - 1] == a + b[..|b| - 1];
      ScanAllConcat(sc, a, b[..|b| - 1]);
    }
  }

  lemma ReachesAlike(sc: Scan, s: string, q: Parser, r: Parser, out: seq<Event>, stop: bool)
    requires Reaches(sc, s, q, out, stop) && Alike(r, q)
    ensures Reaches(sc, s, r, out, stop)
  {
    hide ScanAll;
  }

  lemma TripsLast(sc: Scan, ch: char)
    ensures var sc1 := Apply(sc, Dispatch(sc.p, ch, sc.skip), ch);
            var o2 := Dispatch(sc1.p, ch, sc1.skip);
            var sc2 := Apply(sc1, o2, ch);
            Dispatch(sc.p, ch, sc.skip).ctl.Again? && sc1.p.errno.OK? && sc2.p.errno.OK? && !o2.ctl.Again? ==>
              Trips(sc, ch) == if o2.ctl.Exit? then Advance(sc2, ch).(halted := true) else Advance(sc2, ch)
  {
    hide Dispatch, Apply, Advance;
  }

  lemma ReachesStep(sc: Scan, s: string, ch: char, e: Scan, r: Parser, out: seq<Event>, stop: bool)
    requires Live(ScanAll(sc, s)) && At(e, r, Nothing, out)
    requires ByteStep(ScanAll(sc, s), ch) == if stop then e.(halted := true) else e
    ensures Reaches(sc, s + [ch], r, out, stop)
  {
    hide ScanAll, ByteStep;
    ScanAllSnoc(sc, s, ch);
    assert (s + [ch])[..|s + [ch]| - 1] == s;
  }

  /** The last byte of a message, which takes two trips. */
  lemma ReadLast(sc: Scan, s: string, q: Parser, pend: Pending, out: seq<Event>, ch: char, o1: Outcome, o2: Outcome,
                 out1: seq<Event>)
    requires At(ScanAll(sc, s), q, pend, out) && Turns(q, ch, o1) && o1.ctl.Again? && Marks(pend, o1)
    requires PendOf(pend, o1) == Nothing && OutOf(out, pend, o1, ch) == out1
    requires Turns(o1.p, ch, o2) && !o2.ctl.Again? && o2.mark.NoMark? && o2.flush.NoFlush?
    ensures Reaches(sc, s + [ch], o2.p, out1 + o2.events, o2.ctl.Exit?)
  {
    hide Dispatch, Apply, Count, PendOf, OutOf, Advance, Turns, ScanAll, Reaches;
    var st := ScanAll(sc, s);
    var sc0 := st.(p := Count(st.p));
    CountAt(st, q, pend, out);
    TripAt(sc0, q, pend, out, ch, o1);
    var sc1 := Apply(sc0, Dispatch(sc0.p, ch, sc0.skip), ch);
    assert PendOf(Nothing, o2) == Nothing && OutOf(out1, Nothing, o2, ch) == out1 + o2.events by {
      NoData(o2, out1, ch);
    }
    TripAt(sc1, o1.p, Nothing, out1, ch, o2);
    var sc2 := Apply(sc1, Dispatch(sc1.p, ch, sc1.skip), ch);
    AdvanceAt(sc2, o2.p, Nothing, out1 + o2.events, ch);
    TripsLast(sc0, ch);
    ReachesStep(sc, s, ch, Advance(sc2, ch), o2.p, out1 + o2.events, o2.ctl.Exit?);
  }

  lemma NoData(o: Outcome, out: seq<Event>, ch: char)
    requires o.mark.NoMark? && o.flush.NoFlush?
    ensures PendOf(Nothing, o) == Nothing && OutOf(out, Nothing, o, ch) == out + o.events
  {
  }

  lemma {:induction false} LiveUsed(sc: Scan, s: string)
    requires Live(ScanAll(sc, s))
    ensures ScanAll(sc, s).used == sc.used + |s|
  {
    hide ByteStep;
    if s != "" {
      var front := s[..|s| - 1];
      assert Live(ScanAll(sc, front)) by { if !Live(ScanAll(sc, front)) { DeadByte(ScanAll(sc, front), s[|s| - 1]); } }
      LiveUsed(sc, front);
      ByteUsed(ScanAll(sc, front), s[|s| - 1]);
    }
  }

  lemma DeadByte(sc: Scan, ch: char)
    requires !Live(sc)
    ensures ByteStep(sc, ch) == sc
  {
    hide Trips;
  }

  /** One call with these bytes, and with any others behind them when they end it. */
  lemma FeedReaches(p: Parser, s: string, rest: string, r: Parser, out: seq<Event>, stop: bool)
    requires Valid(p) && p.errno.OK? && s != "" && Reaches(Open(p), s, r, out, stop)
    requires stop || rest == ""
    ensures var w := Feed(p, s + rest); Alike(r, w.p) && w.p.errno.OK? && w.out == out && w.used == |s|
  {
    hide ScanAll, Open, ByteStep, Valid;
    var e, front, ch := ScanAll(Open(p), s), s[..|s| - 1], s[|s| - 1];
    assert s == front + [ch];
    assert (s + rest)[..|s + rest|] == s + rest;
    FeedIsClose(p, s + rest);
    if stop {
      LiveUsed(Open(p), front);
      ScanAllSnoc(Open(p), front, ch);
      ByteUsed(ScanAll(Open(p), front), ch);
      ScanAllConcat(Open(p), s, rest);
      ReadDead(e, rest);
    } else {
      assert s + rest == s;
      LiveUsed(Open(p), s);
    }
    OpenUsed(p);
  }

  lemma OpenUsed(p: Parser)
    ensures Open(p).used == 0
  {
  }

  // ---------------------------------------------------------------- the parser and the head

  /** The parser behind the first line. */
  predicate Stands(q: Parser, h: Head) {
    q.state.HeaderFieldStart? && q.flags == NO_FLAGS && q.contentLength == ULLONG_MAX && Agrees(q, h)
  }

  predicate Agrees(q: Parser, h: Head) {
    q.kind == (if h.request then Request else Response) && q.httpMethod == h.httpMethod && q.httpMajor == h.major &&
    q.httpMinor == h.minor && (!h.request ==> q.statusCode == h.status)
  }

  /** The parser behind the headers. */
  predicate Knows(q: Parser, h: Head) {
    q.flags == FlagsIn(h.lines) && q.contentLength == Announced(HeadersOf(h.lines)) && Agrees(q, h)
  }

  lemma KnowsAfter(q: Parser, r: Parser, h: Head)
    requires Stands(q, h) && Follows(q, r, FlagsIn(h.lines), Length(HeadersOf(h.lines)))
    ensures Knows(r, h) && r.state.HeaderFieldStart?
  {
    hide FlagsIn, Length;
  }

  lemma {:induction false} LengthBound(hs: seq<Header>)
    ensures Length(hs).Some? ==> Length(hs).value <= MAX_LENGTH
    ensures Announced(hs) == ULLONG_MAX <==> Length(hs).None?
  {
    hide IsLengthHeader;
    if hs != [] {
      LengthBound(hs[..|hs| - 1]);
      LengthOfBound(hs[|hs| - 1]);
    }
    hide Length;
  }

  lemma LengthOfBound(h: Header)
    ensures LengthOf(h).Some? ==> LengthOf(h).value <= MAX_LENGTH
  {
    hide Decimal;
  }

  function Afterwards(h: Head): State {
    if KeepsAlive(h) then if h.request then StartReq else StartRes else Dead
  }

  /** The parser behind the body: only what no longer matters has changed. */
  predicate Spent(q: Parser, h: Head) {
    Agrees(q, h) && q.flags.(trailing := false) == FlagsIn(h.lines) &&
    (q.contentLength == ULLONG_MAX <==> Announced(HeadersOf(h.lines)) == ULLONG_MAX)
  }

  lemma AliveMeans(q: Parser, h: Head)
    requires Agrees(q, h) && !q.flags.skipBody
    requires q.flags.close == Says(h.lines, "close") && q.flags.keepAlive == Says(h.lines, "keep-alive")
    requires q.flags.chunked == SaysChunked(HeadersOf(h.lines))
    requires q.flags.chunked || (q.contentLength == ULLONG_MAX <==> Length(HeadersOf(h.lines)).None?)
    ensures NewMessage(q) == Afterwards(h)
  {
    hide Says, SaysChunked, Length, HeadersOf;
  }

  lemma AliveAfter(q: Parser, h: Head)
    requires Agrees(q, h) && q.flags.(trailing := false) == FlagsIn(h.lines)
    requires SaysChunked(HeadersOf(h.lines)) ||
             (q.contentLength == ULLONG_MAX <==> Announced(HeadersOf(h.lines)) == ULLONG_MAX)
    ensures NewMessage(q) == Afterwards(h)
  {
    hide Says, Asks, SaysChunked, Length, HeadersOf, Announced, NewMessage;
    LengthBound(HeadersOf(h.lines));
    AliveMeans(q, h);
  }

  // ---------------------------------------------------------------- the empty line

  function NextOf(h: Head): State {
    match FramingOf(h)
    case Empty => Afterwards(h)
    case Sized => BodyIdentity
    case Chunked => ChunkSizeStart
    case UntilEnd => BodyIdentityEof
  }

  lemma AlmostDone(q: Parser, h: Head)
    requires q.state.HeadersAlmostDone? && Knows(q, h) && IsHeadOf(h)
    ensures DispatchHeadersDone(q, '\n') ==
            Outcome(q.(state := HeadersDone, upgrade := Upgrades(h)), NoMark, NoFlush,
                    [HeadersComplete(h.httpMethod, Upgrades(h), Announced(HeadersOf(h.lines)))], Again)
  {
    hide Descends, Says, Asks, SaysChunked, Length, HeadersOf, AreLines, Announced;
  }

  lemma EofMeans(q: Parser, h: Head)
    requires Agrees(q, h) && !q.flags.skipBody && q.contentLength == ULLONG_MAX && !q.flags.chunked
    ensures MessageNeedsEof(q) <==> !(h.request || IsBodiless(h.status))
  {
  }

  /** The second trip for the line feed, when chunks follow. */
  lemma DoneChunked(q: Parser, h: Head)
    requires q.state.HeadersDone? && Knows(q, h) && IsHeadOf(h) && q.upgrade == Upgrades(h)
    requires SaysChunked(HeadersOf(h.lines))
    ensures var o, empty := DispatchHeadersDone(q, '\n'), FramingOf(h).Empty?;
            o == Outcome(q.(nread := 0, state := NextOf(h)), NoMark, NoFlush, if empty then [MessageComplete] else [],
                         if empty && Upgrades(h) then Exit else Next)
  {
    AliveAfter(q.(nread := 0), h);
    assert q.flags.chunked && !q.flags.skipBody;
    hide Descends, FlagsIn, SaysChunked, Length, HeadersOf, AreLines, Announced, NewMessage, Afterwards, Asks, Says,
      MessageNeedsEof;
  }

  /** The same without a length and without chunks. */
  lemma DoneOpen(q: Parser, h: Head)
    requires q.state.HeadersDone? && Knows(q, h) && IsHeadOf(h) && q.upgrade == Upgrades(h)
    requires Length(HeadersOf(h.lines)).None? && !SaysChunked(HeadersOf(h.lines))
    ensures var o, empty := DispatchHeadersDone(q, '\n'), FramingOf(h).Empty?;
            o == Outcome(q.(nread := 0, state := NextOf(h)), NoMark, NoFlush, if empty then [MessageComplete] else [],
                         if empty && Upgrades(h) then Exit else Next)
  {
    LengthBound(HeadersOf(h.lines));
    AliveAfter(q.(nread := 0), h);
    EofMeans(q.(nread := 0), h);
    assert !q.flags.chunked && !q.flags.skipBody && q.contentLength == ULLONG_MAX;
    hide Descends, FlagsIn, SaysChunked, Length, HeadersOf, AreLines, Announced, NewMessage, Afterwards, Asks, Says,
      IsBodiless, MessageNeedsEof;
  }

  lemma DoneLength(q: Parser, h: Head)
    requires q.state.HeadersDone? && Knows(q, h) && IsHeadOf(h) && q.upgrade == Upgrades(h)
    requires Length(HeadersOf(h.lines)).Some?
    ensures var o, empty := DispatchHeadersDone(q, '\n'), FramingOf(h).Empty?;
            o == Outcome(q.(nread := 0, state := NextOf(h)), NoMark, NoFlush, if empty then [MessageComplete] else [],
                         if empty && Upgrades(h) then Exit else Next)
  {
    LengthBound(HeadersOf(h.lines));
    AliveAfter(q.(nread := 0), h);
    hide Descends, Says, Asks, SaysChunked, Length, HeadersOf, AreLines, NewMessage, Afterwards, MessageNeedsEof;
  }

  /** The empty line. */
  lemma ReadEmptyLine(sc: Scan, q: Parser, out: seq<Event>, h: Head)
    requires AtLine(sc, q, out) && q.errno.OK? && Knows(q, h) && IsHeadOf(h)
    ensures var up, empty := Upgrades(h), FramingOf(h).Empty?;
            Reaches(sc, "\r\n", q.(state := NextOf(h), upgrade := up),
                    out + [HeadersComplete(h.httpMethod, up, Announced(HeadersOf(h.lines)))] +
                    (if empty then [MessageComplete] else []), empty && up)
  {
    hide Turns, ScanAll, At, AtLine, Reaches, Upgrades, FramingOf, Announced, NextOf, DispatchHeadersDone, FlagsIn,
      IsHeadOf, HeadersOf, Length;
    var q1 := q.(state := HeadersAlmostDone);
    ReadHeadersCr(sc, q, out);
    AlmostDone(q1, h);
    var o1 := DispatchHeadersDone(q1, '\n');
    HeadersTurns(q1, o1);
    assert Knows(o1.p, h);
    if SaysChunked(HeadersOf(h.lines)) { DoneChunked(o1.p, h); }
    else if Length(HeadersOf(h.lines)).Some? { DoneLength(o1.p, h); }
    else { DoneOpen(o1.p, h); }
    var o2 := DispatchHeadersDone(o1.p, '\n');
    HeadersTurns(o1.p, o2);
    assert PendOf(Nothing, o1) == Nothing && OutOf(out, Nothing, o1, '\n') == out + o1.events by {
      NoData(o1, out, '\n');
    }
    ReadLast(sc, "\r", q1, Nothing, out, '\n', o1, o2, out + o1.events);
    assert "\r" + ['\n'] == "\r\n";
    ReachesAlike(sc, "\r\n", o2.p, q.(state := NextOf(h), upgrade := Upgrades(h)), out + o1.events + o2.events,
                 o2.ctl.Exit?);
  }

  // ---------------------------------------------------------------- the body

  /** A body of known length, to its last byte. */
  lemma ReadWholeBody(sc: Scan, q: Parser, out: seq<Event>, body: string)
    requires At(sc, q, Nothing, out) && q.state.BodyIdentity? && q.contentLength == |body| && 0 < |body| < ULLONG_MAX
    ensures Reaches(sc, body, q.(contentLength := 0, state := NewMessage(q.(contentLength := 0))),
                    out + [Data(Body, body), MessageComplete], q.upgrade)
  {
    hide Turns, ByteStep, ScanAll, At, NewMessage, Reaches;
    assert q.errno.OK? by { AtOk(sc, q, Nothing, out); }
    var front, ch := body[..|body| - 1], body[|body| - 1];
    BodyAt(sc, q, out, front);
    var q1, pend := q.(contentLength := 1), if front == "" then Nothing else Since(Body, front);
    LastByteTurns(q1, ch);
    var o1 := Outcome(q.(contentLength := 0, state := MessageDone), MarkOf(Body), Through(Body), [], Again);
    var o2 := Complete(o1.p, if q.upgrade then Exit else Next);
    assert front + [ch] == body && "" + [ch] == [ch];
    assert PendOf(pend, o1) == Nothing && OutOf(out, pend, o1, ch) == out + [Data(Body, body)];
    assert out + [Data(Body, body)] + [MessageComplete] == out + [Data(Body, body), MessageComplete];
    ReadLast(sc, front, q1, pend, out, ch, o1, o2, out + [Data(Body, body)]);
    NewMessageNread(q.(contentLength := 0));
  }

  /** The empty line behind the last chunk and the trailer. */
  lemma ReadLastLine(sc: Scan, q: Parser, out: seq<Event>)
    requires AtLine(sc, q, out) && q.errno.OK? && q.flags.trailing
    ensures Reaches(sc, "\r\n", q.(state := NewMessage(q)), out + [ChunkComplete, MessageComplete], q.upgrade)
  {
    hide Turns, ByteStep, ScanAll, At, AtLine, NewMessage, Reaches;
    var q1, q2 := q.(state := HeadersAlmostDone), q.(state := MessageDone);
    ReadHeadersCr(sc, q, out);
    assert "\r" + ['\n'] == "\r\n";
    TrailerTurns(q1);
    TrailerTurns(q2);
    NewMessageNread(q);
    var o1, o2 := Outcome(q2, NoMark, NoFlush, [ChunkComplete], Again), Complete(q2, if q.upgrade then Exit else Next);
    NoData(o1, out, '\n');
    ReadLast(sc, "\r", q1, Nothing, out, '\n', o1, o2, out + [ChunkComplete]);
    assert out + [ChunkComplete] + [MessageComplete] == out + [ChunkComplete, MessageComplete];
  }

  lemma OtherIsLine(h: Header, f: Flags)
    requires IsOtherHeader(h)
    ensures IsLine(Plain(h)) && Noted(f, Plain(h)) == f && LengthOf(h).None? && !IsLengthHeader(h)
  {
    SortsDiffer(h);
    hide IsValueText, Spelled, IsListName, Decimal;
  }

  lemma FollowsSame(a: Parser, b: Parser, c: Parser)
    requires Follows(a, b, a.flags, None) && Follows(b, c, a.flags, None)
    ensures Follows(a, c, a.flags, None)
  {
  }

  lemma NoTrailer(sc: Scan, q: Parser, out: seq<Event>)
    requires At(sc, q, Nothing, out) && q.state.HeaderFieldStart?
    ensures AtLine(ScanAll(sc, PrintHeaders([])), q, out + HeaderTrace([])) && q.errno.OK? &&
            Follows(q, q, q.flags, None)
  {
    hide ScanAll, At;
    AtOk(sc, q, Nothing, out);
    NoHeaders(sc, q, out);
    ScanNothing(sc);
    assert out + [] == out;
  }

  /** The trailer changes nothing that the parser knows of the message. */
  lemma {:induction false} ReadTrailerLines(sc: Scan, q: Parser, out: seq<Event>, hs: seq<Header>) returns (r: Parser)
    requires At(sc, q, Nothing, out) && q.state.HeaderFieldStart? && IsTrailer(hs)
    ensures AtLine(ScanAll(sc, PrintHeaders(hs)), r, out + HeaderTrace(hs))
    ensures r.errno.OK? && Follows(q, r, q.flags, None)
  {
    hide ScanAll, At, AtLine, IsOtherHeader, PrintHeaders, HeaderTrace, IsLine, Noted, PrintHeader, LengthOf,
      IsLengthHeader;
    if hs == [] {
      r := q;
      NoTrailer(sc, q, out);
    } else {
      var front, h := hs[..|hs| - 1], hs[|hs| - 1];
      assert hs == front + [h];
      var m := ReadTrailerLines(sc, q, out, front);
      assert HeaderOf(Plain(h)) == h;
      OtherIsLine(h, m.flags);
      r := ReadLine(ScanAll(sc, PrintHeaders(front)), m, out + HeaderTrace(front), Plain(h));
      PrintSnoc(front, h, out);
      ScanAllConcat(sc, PrintHeaders(front), PrintHeader(h));
      FollowsSame(q, m, r);
    }
  }

  /** The parser behind the last chunk: only `trailing` and what belongs to the last header have
      changed. */
  predicate Past(q: Parser, r: Parser) {
    r.state == NewMessage(r) &&
    r == q.(flags := q.flags.(trailing := true), contentLength := 0, state := r.state, headerState := r.headerState,
            index := r.index, nread := r.nread)
  }

  lemma PastIs(q: Parser, m: Parser, r: Parser)
    requires m == q.(state := HeaderFieldStart, flags := q.flags.(trailing := true), contentLength := 0)
    requires Follows(m, r, m.flags, None)
    ensures Past(q, r.(state := NewMessage(r)))
  {
    NewMessageOf(r);
    hide NewMessage;
  }

  lemma NewMessageOf(q: Parser)
    ensures NewMessage(q.(state := NewMessage(q))) == NewMessage(q)
  {
  }

  lemma ReadChunkedLoad(sc: Scan, q: Parser, out: seq<Event>, chunks: seq<string>, trailer: seq<Header>)
    returns (r: Parser)
    requires At(sc, q, Nothing, out) && ScanSound(sc, 0) && ExpectsChunk(q) && AreChunks(chunks) && IsTrailer(trailer)
    ensures Reaches(sc, PrintChunks(chunks) + "0\r\n" + PrintHeaders(trailer) + "\r\n", r,
                    out + PiecesTrace(chunks, trailer), q.upgrade)
    ensures Past(q, r)
  {
    hide ScanAll, ScanSound, PrintChunks, ChunksTrace, At, AtLine, AreChunks, NewMessage, HexText, Reaches,
      PrintHeaders,
      HeaderTrace, IsTrailer, Past;
    ReadChunks(sc, q, out, chunks);
    var m := if chunks == [] then q else q.(contentLength := 0);
    var s1, out1 := ScanAll(sc, PrintChunks(chunks)), out + ChunksTrace(chunks);
    ZeroHead();
    ReadSizeLine(s1, m, out1, 0);
    var q1 := m.(state := HeaderFieldStart, flags := m.flags.(trailing := true), contentLength := 0);
    var s2, out2 := ScanAll(s1, "0\r\n"), out1 + [ChunkHeader(0)];
    var t := ReadTrailerLines(s2, q1, out2, trailer);
    PastIs(q, q1, t);
    r := t.(state := NewMessage(t));
    ReadLastLine(ScanAll(s2, PrintHeaders(trailer)), t, out2 + HeaderTrace(trailer));
    assert out2 + HeaderTrace(trailer) + [ChunkComplete, MessageComplete] == out + PiecesTrace(chunks, trailer);
    ReachesAfter(s2, PrintHeaders(trailer), "\r\n", r, out + PiecesTrace(chunks, trailer), q.upgrade);
    ReachesAfter(s1, "0\r\n", PrintHeaders(trailer) + "\r\n", r, out + PiecesTrace(chunks, trailer), q.upgrade);
    var rest := "0\r\n" + (PrintHeaders(trailer) + "\r\n");
    ReachesAfter(sc, PrintChunks(chunks), rest, r, out + PiecesTrace(chunks, trailer), q.upgrade);
    assert PrintChunks(chunks) + rest == PrintChunks(chunks) + "0\r\n" + PrintHeaders(trailer) + "\r\n";
  }

  // ---------------------------------------------------------------- everything behind the first line

  /** The parser between this message and the next. */
  predicate Rests(q: Parser, r: Parser, h: Head) {
    r.upgrade == Upgrades(h) && r.state == Afterwards(h) && Agrees(r, h)
  }

  /** What comes behind the empty line, unless it is nothing or has no end. */
  lemma ReadLoad(sc: Scan, q: Parser, out: seq<Event>, h: Head, load: Load) returns (r: Parser)
    requires At(sc, q, Nothing, out) && ScanSound(sc, 0) && Knows(q, h) && IsHeadOf(h) && Fits(h, load)
    requires q.state == NextOf(h) && q.upgrade == Upgrades(h) && (FramingOf(h).Sized? || FramingOf(h).Chunked?)
    ensures Reaches(sc, LoadText(load), r, out + LoadTrace(load), Upgrades(h)) && Rests(q, r, h)
  {
    hide At, ScanAll, ScanSound, Reaches, PrintChunks, PiecesTrace, NewMessage, Asks, Says, SaysChunked, HeadersOf,
      Length, Afterwards, AreLines, AreChunks, IsTrailer, PrintHeaders;
    assert q.errno.OK? by { AtOk(sc, q, Nothing, out); }
    LengthBound(HeadersOf(h.lines));
    if FramingOf(h).Sized? {
      r := q.(contentLength := 0, state := NewMessage(q.(contentLength := 0)));
      ReadWholeBody(sc, q, out, load.body);
      AliveAfter(q.(contentLength := 0), h);
      assert [Data(Body, load.body)] + [MessageComplete] == [Data(Body, load.body), MessageComplete];
    } else {
      r := ReadChunkedLoad(sc, q, out, load.chunks, load.trailer);
      AliveAfter(r, h);
    }
  }

  /** The headers and the empty line. */
  lemma ReadHeadEnd(sc: Scan, q: Parser, out: seq<Event>, h: Head) returns (m: Parser)
    requires At(sc, q, Nothing, out) && Stands(q, h) && IsHeadOf(h)
    ensures var up, empty := Upgrades(h), FramingOf(h).Empty?;
            Reaches(sc, PrintHeaders(HeadersOf(h.lines)) + "\r\n", m,
                    out + HeadTrace(h) + (if empty then [MessageComplete] else []), empty && up)
    ensures Knows(m, h) && m.state == NextOf(h) && m.upgrade == Upgrades(h)
  {
    hide At, AtLine, ScanAll, Reaches, FlagsIn, Upgrades, FramingOf, PrintHeaders, HeaderTrace, HeadersOf, AreLines,
      Announced, NextOf, Length, SaysChunked;
    var hs := HeadersOf(h.lines);
    var l := ReadLines(sc, q, out, h.lines);
    KnowsAfter(q, l, h);
    ReadEmptyLine(ScanAll(sc, PrintHeaders(hs)), l, out + HeaderTrace(hs), h);
    m := l.(state := NextOf(h), upgrade := Upgrades(h));
    var e := [HeadersComplete(h.httpMethod, Upgrades(h), Announced(hs))];
    assert out + HeaderTrace(hs) + e == out + HeadTrace(h);
    ReachesAfter(sc, PrintHeaders(hs), "\r\n", m,
                 out + HeadTrace(h) + (if FramingOf(h).Empty? then [MessageComplete] else []),
                 FramingOf(h).Empty? && Upgrades(h));
  }

  /** Everything behind the first line of a message that ends before the stream does. */
  lemma ReadRest(sc: Scan, q: Parser, out: seq<Event>, h: Head, load: Load) returns (r: Parser)
    requires At(sc, q, Nothing, out) && ScanSound(sc, 0) && Stands(q, h) && IsHeadOf(h) && Fits(h, load) && !load.ToEnd?
    ensures Reaches(sc, RestText(h, load), r, out + HeadTrace(h) + LoadTrace(load), Upgrades(h)) && Rests(q, r, h)
  {
    hide At, ScanAll, ScanSound, Reaches, Knows, Upgrades, FramingOf, PrintHeaders, HeadTrace, HeadersOf, Stands,
      IsHeadOf, LoadText;
    var text := PrintHeaders(HeadersOf(h.lines)) + "\r\n";
    r := ReadHeadEnd(sc, q, out, h);
    if FramingOf(h).Empty? {
      assert LoadText(load) == "" by { EmptyLoad(h, load); }
      assert text + "" == text;
      assert out + HeadTrace(h) + [MessageComplete] == out + HeadTrace(h) + LoadTrace(load);
      assert Rests(q, r, h) by { KnowsRests(q, r, h); }
    } else {
      assert !load.ToEnd? && !FramingOf(h).UntilEnd?;
      assert out + HeadTrace(h) + [] == out + HeadTrace(h);
      ReachesIsAt(sc, text, r, out + HeadTrace(h));
      ScanAllSound(sc, text);
      r := ReadLoad(ScanAll(sc, text), r, out + HeadTrace(h), h, load);
      ReachesAfter(sc, text, LoadText(load), r, out + HeadTrace(h) + LoadTrace(load), Upgrades(h));
    }
  }

  lemma EmptyLoad(h: Head, load: Load)
    requires FramingOf(h).Empty? && Fits(h, load)
    ensures load == Whole("") && LoadText(load) == ""
  {
    hide FramingOf;
  }

  lemma KnowsRests(q: Parser, r: Parser, h: Head)
    requires Knows(r, h) && r.state == NextOf(h) && FramingOf(h).Empty? && r.upgrade == Upgrades(h)
    ensures Rests(q, r, h)
  {
    hide FramingOf, Upgrades, Afterwards, FlagsIn, Announced;
  }

  /** A body that only the end of the stream ends. */
  lemma ReadToEnd(sc: Scan, q: Parser, out: seq<Event>, h: Head, body: string) returns (m: Parser)
    requires At(sc, q, Nothing, out) && Stands(q, h) && IsHeadOf(h) && Fits(h, ToEnd(body))
    ensures At(ScanAll(sc, RestText(h, ToEnd(body))), m, if body == "" then Nothing else Since(Body, body),
               out + HeadTrace(h))
    ensures m.state.BodyIdentityEof? && !Upgrades(h) && !m.upgrade && Agrees(m, h)
  {
    hide ScanAll, Reaches, PrintHeaders, HeadTrace, HeadersOf, Stands, IsHeadOf, Asks, Says, SaysChunked, Length,
      Afterwards, FlagsIn, Announced;
    var text := PrintHeaders(HeadersOf(h.lines)) + "\r\n";
    m := ReadHeadEnd(sc, q, out, h);
    assert out + HeadTrace(h) + [] == out + HeadTrace(h);
    ReachesIsAt(sc, text, m, out + HeadTrace(h));
    if body == "" {
      assert text + body == text;
    } else {
      EofRun(ScanAll(sc, text), body);
      ScanAllConcat(sc, text, body);
    }
  }
}
