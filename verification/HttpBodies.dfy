/** Reading the end of a header section, a body of known length, and chunks. */
module HttpBodies {
  import opened HttpTypes
  import opened HttpAutomaton
  import opened HttpScan
  import opened HttpRuns
  import opened HttpInvariant
  import opened HttpNread
  import opened HttpPieces
  import opened HttpFragments
  import opened HttpReads
  import opened HttpNames
  import opened HttpValues
  import opened HttpHeaders

  // ---------------------------------------------------------------- the empty line

  lemma HeadersTurns(q: Parser, o: Outcome)
    requires (q.state.HeadersAlmostDone? || q.state.HeadersDone?) && q.errno.OK?
    requires o == DispatchHeadersDone(q, '\n') && o.p.errno.OK?
    ensures Turns(q, '\n', o)
  {
    hide Descends, DispatchHeadersDone;
  }

  lemma CrTurns(q: Parser)
    requires q.state.HeaderFieldStart? && q.errno.OK?
    ensures Turns(q, '\r', Go(q.(state := HeadersAlmostDone)))
  {
    hide Descends;
  }

  /** A message that no upgrade follows and whose body is framed one way at most. */
  predicate Framed(q: Parser) {
    !q.flags.trailing && !q.flags.skipBody && !q.flags.upgrade && !q.httpMethod.CONNECT? &&
    !(q.flags.chunked && q.flags.contentLength)
  }

  /** What follows the header section: chunks, nothing, or a body of known length. */
  function BodyStart(q0: Parser): Parser {
    var q := q0.(upgrade := false);
    if q.flags.chunked then q.(state := ChunkSizeStart)
    else if q.contentLength == 0 || q.contentLength == ULLONG_MAX then q.(state := NewMessage(q))
    else q.(state := BodyIdentity)
  }

  function BodyStartTrace(q: Parser): seq<Event> {
    [HeadersComplete(q.httpMethod, false, q.contentLength)] +
    if !q.flags.chunked && (q.contentLength == 0 || q.contentLength == ULLONG_MAX) then [MessageComplete] else []
  }

  lemma HeadersAlmostDoneTrip(q: Parser)
    requires q.state.HeadersAlmostDone? && Framed(q)
    ensures DispatchHeadersDone(q, '\n') ==
            Outcome(q.(state := HeadersDone, upgrade := false), NoMark, NoFlush,
                    [HeadersComplete(q.httpMethod, false, q.contentLength)], Again)
  {
    hide Descends;
  }

  lemma HeadersDoneTrip(q: Parser)
    requires q.state.HeadersDone? && Framed(q) && !q.upgrade
    requires q.contentLength == ULLONG_MAX && !q.flags.chunked ==> q.kind.Request?
    ensures var o := DispatchHeadersDone(q, '\n');
            o == Outcome(o.p, NoMark, NoFlush,
                         if !q.flags.chunked && (q.contentLength == 0 || q.contentLength == ULLONG_MAX)
                         then [MessageComplete] else [], Next) &&
            Alike(BodyStart(q), o.p)
  {
    hide Descends;
    assert !q.flags.chunked && q.contentLength == ULLONG_MAX ==> !MessageNeedsEof(q.(nread := 0));
    NewMessageNread(q);
    hide ShouldKeepAlive, MessageNeedsEof, NewMessage;
  }

  /** Whether the connection goes on depends on neither of these. */
  lemma NewMessageNread(q: Parser)
    ensures NewMessage(q.(nread := 0)) == NewMessage(q) == NewMessage(q.(upgrade := false))
    ensures NewMessage(q.(state := HeadersDone)) == NewMessage(q) == NewMessage(q.(state := MessageDone))
  {
  }

  lemma BodyStartFrame(q: Parser)
    ensures BodyStart(q.(state := HeadersDone, upgrade := false)) == BodyStart(q)
    ensures BodyStartTrace(q) == [HeadersComplete(q.httpMethod, false, q.contentLength)] +
            (if !q.flags.chunked && (q.contentLength == 0 || q.contentLength == ULLONG_MAX) then [MessageComplete]
             else [])
  {
    NewMessageNread(q);
    NewMessageNread(q.(upgrade := false));
    hide NewMessage;
  }

  /** The empty line up to its CR. */
  lemma ReadHeadersCr(sc: Scan, q: Parser, out: seq<Event>)
    requires AtLine(sc, q, out) && q.errno.OK?
    ensures At(ScanAll(sc, "\r"), q.(state := HeadersAlmostDone), Nothing, out)
  {
    hide Turns, ByteStep, ScanAll, At, AtLine;
    AtLineState(sc, q, out);
    CrTurns(q);
    LineByte(sc, q, out, '\r', Go(q.(state := HeadersAlmostDone)));
    assert PendOf(Nothing, Go(q.(state := HeadersAlmostDone))) == Nothing;
    assert OutOf(out, Nothing, Go(q.(state := HeadersAlmostDone)), '\r') == out;
    ScanOne(sc, '\r');
    assert ['\r'] == "\r";
  }

  /** The empty line. */
  lemma ReadHeadersEnd(sc: Scan, q: Parser, out: seq<Event>)
    requires AtLine(sc, q, out) && q.errno.OK? && Framed(q)
    requires q.contentLength == ULLONG_MAX && !q.flags.chunked ==> q.kind.Request?
    ensures At(ScanAll(sc, "\r\n"), BodyStart(q), Nothing, out + BodyStartTrace(q))
  {
    hide Turns, ByteStep, ScanAll, At, AtLine, DispatchHeadersDone, BodyStart;
    ReadHeadersCr(sc, q, out);
    var q1, s1 := q.(state := HeadersAlmostDone), ScanAll(sc, "\r");
    HeadersAlmostDoneTrip(q1);
    var o1 := DispatchHeadersDone(q1, '\n');
    HeadersTurns(q1, o1);
    HeadersDoneTrip(o1.p);
    var o2 := DispatchHeadersDone(o1.p, '\n');
    assert o2.p.errno.OK? by { BodyStartOk(o1.p, o2.p); }
    HeadersTurns(o1.p, o2);
    ReadByteTwice(s1, q1, Nothing, out, '\n', o1, o2);
    BodyStartFrame(q);
    hide BodyStartTrace;
    assert PendOf(Nothing, o1) == Nothing && OutOf(out, Nothing, o1, '\n') == out + o1.events;
    assert PendOf(Nothing, o2) == Nothing && OutOf(out + o1.events, Nothing, o2, '\n') == out + o1.events + o2.events;
    assert out + o1.events + o2.events == out + BodyStartTrace(q);
    AtAlike(ByteStep(s1, '\n'), o2.p, BodyStart(q), Nothing, out + BodyStartTrace(q));
    ScanAllSnoc(sc, "\r", '\n');
    assert "\r" + ['\n'] == "\r\n";
  }

  lemma BodyStartOk(q: Parser, r: Parser)
    requires Alike(BodyStart(q), r) && q.errno.OK?
    ensures r.errno.OK?
  {
    hide NewMessage;
  }

  lemma AtAlike(sc: Scan, q: Parser, r: Parser, pend: Pending, out: seq<Event>)
    requires At(sc, q, pend, out) && Alike(r, q)
    ensures At(sc, r, pend, out)
  {
  }

  // ---------------------------------------------------------------- a body of known length

  lemma BodyTurns(q: Parser, ch: char, o: Outcome)
    requires (q.state.BodyIdentity? || q.state.MessageDone?) && q.errno.OK? && o == DispatchBody(q, ch) && o.p.errno.OK?
    ensures Turns(q, ch, o)
  {
    hide Descends, DispatchBody;
  }

  lemma LastByteTurns(q: Parser, ch: char)
    requires q.state.BodyIdentity? && q.errno.OK? && q.contentLength == 1
    ensures var o1 := Outcome(q.(contentLength := 0, state := MessageDone), MarkOf(Body), Through(Body), [], Again);
            var o2 := Complete(o1.p, if q.upgrade then Exit else Next);
            Turns(q, ch, o1) && Turns(o1.p, ch, o2)
  {
    var o1 := Outcome(q.(contentLength := 0, state := MessageDone), MarkOf(Body), Through(Body), [], Again);
    var o2 := Complete(o1.p, if q.upgrade then Exit else Next);
    assert DispatchBody(q, ch) == o1 by { hide Descends; }
    assert DispatchBody(o1.p, ch) == o2 by { hide Descends; }
    BodyTurns(q, ch, o1);
    BodyTurns(o1.p, ch, o2);
    hide Turns, DispatchBody, NewMessage;
  }

  /** A body byte that is not the last one leaves the body mark open. */
  lemma BodyAt(sc: Scan, q: Parser, out: seq<Event>, s: string)
    requires At(sc, q, Nothing, out) && InBody(q) && |s| < q.contentLength < ULLONG_MAX
    ensures At(ScanAll(sc, s), q.(contentLength := q.contentLength - |s|), if s == "" then Nothing
               else Since(Body, s), out)
  {
    if s == "" { ScanNothing(sc); } else { BodyRun(sc, s); }
    hide ScanAll;
  }

  lemma ReadBody(sc: Scan, q: Parser, out: seq<Event>, body: string)
    requires At(sc, q, Nothing, out) && q.state.BodyIdentity? && !q.upgrade
    requires q.contentLength == |body| && 0 < |body| < ULLONG_MAX
    ensures At(ScanAll(sc, body), q.(contentLength := 0, state := NewMessage(q.(contentLength := 0))), Nothing,
               out + [Data(Body, body), MessageComplete])
  {
    hide Turns, ByteStep, ScanAll, At, NewMessage;
    assert q.errno.OK? by { AtOk(sc, q, Nothing, out); }
    var front, ch := body[..|body| - 1], body[|body| - 1];
    BodyAt(sc, q, out, front);
    var q1 := q.(contentLength := 1);
    var pend := if front == "" then Nothing else Since(Body, front);
    LastByteTurns(q1, ch);
    var o1 := Outcome(q.(contentLength := 0, state := MessageDone), MarkOf(Body), Through(Body), [], Again);
    var o2 := Complete(o1.p, Next);
    assert front + [ch] == body && "" + [ch] == [ch];
    assert PendOf(pend, o1) == Nothing && OutOf(out, pend, o1, ch) == out + [Data(Body, body)];
    assert out + [Data(Body, body)] + [MessageComplete] == out + [Data(Body, body), MessageComplete];
    ReadByteTwice(ScanAll(sc, front), q1, pend, out, ch, o1, o2);
    NewMessageNread(q.(contentLength := 0));
    ScanAllSnoc(sc, front, ch);
  }

  // ---------------------------------------------------------------- a whole message

  predicate FreshMessage(q: Parser) {
    q.state.HeaderFieldStart? && q.flags == NO_FLAGS && q.contentLength == ULLONG_MAX && !q.httpMethod.CONNECT?
  }

  /** The callbacks from the end of the headers on. */
  function BodyTrace(m: Method, length: nat, body: string): seq<Event> {
    [HeadersComplete(m, false, length)] + (if body == "" then [] else [Data(Body, body)]) + [MessageComplete]
  }

  /** The announced length, or the sentinel. */
  function Announced(hs: seq<Header>): nat { if Length(hs).Some? then Length(hs).value else ULLONG_MAX }

  lemma TracksFramed(q: Parser, r: Parser, length: Option<nat>)
    requires FreshMessage(q) && Tracks(q, r, length, false)
    ensures Framed(r) && r.contentLength == (if length.Some? then length.value else ULLONG_MAX) && !r.flags.chunked
    ensures r.httpMethod == q.httpMethod && r.kind == q.kind && r.statusCode == q.statusCode
  {
  }

  /** The message is complete: the parser waits for the next one, or for none. */
  predicate BetweenMessages(s: State) { s.Dead? || s.StartReq? || s.StartRes? }

  lemma StartsAgain(q: Parser)
    ensures BetweenMessages(NewMessage(q))
  {
    hide ShouldKeepAlive;
  }

  /** The headers and the empty line that follow a first line. */
  lemma ReadHead(sc: Scan, q: Parser, out: seq<Event>, hs: seq<Header>, n: nat) returns (m: Parser)
    requires At(sc, q, Nothing, out) && FreshMessage(q) && IsSection(hs) && !SaysChunked(hs) && n < ULLONG_MAX
    requires Length(hs) == Some(n) || (Length(hs).None? && n == 0 && q.kind.Request?)
    ensures At(ScanAll(sc, PrintHeaders(hs) + "\r\n"), BodyStart(m), Nothing, out + HeaderTrace(hs) + BodyStartTrace(m))
    ensures m.contentLength == Announced(hs) && !m.flags.chunked && m.httpMethod == q.httpMethod &&
            m.statusCode == q.statusCode
  {
    hide ScanAll, At, AtLine, IsSection, SaysChunked, PrintHeaders, HeaderTrace, Length, NewMessage, Tracks,
      FreshMessage, Framed, BodyStart, BodyStartTrace;
    assert q.state.HeaderFieldStart? && !q.flags.contentLength by { FreshFacts(q); }
    m := ReadHeaders(sc, q, out, hs);
    TracksFramed(q, m, Length(hs));
    ReadHeadersEnd(ScanAll(sc, PrintHeaders(hs)), m, out + HeaderTrace(hs));
    ScanAllConcat(sc, PrintHeaders(hs), "\r\n");
  }

  /** The headers, the empty line and the body that follow a first line. */
  lemma ReadMessage(sc: Scan, q: Parser, out: seq<Event>, hs: seq<Header>, body: string) returns (r: Parser)
    requires At(sc, q, Nothing, out) && FreshMessage(q) && IsSection(hs) && !SaysChunked(hs) && |body| < ULLONG_MAX
    requires Length(hs) == Some(|body|) || (Length(hs).None? && body == "" && q.kind.Request?)
    ensures At(ScanAll(sc, PrintHeaders(hs) + "\r\n" + body), r, Nothing,
               out + HeaderTrace(hs) + BodyTrace(q.httpMethod, Announced(hs), body))
    ensures BetweenMessages(r.state) && r.httpMethod == q.httpMethod && r.statusCode == q.statusCode
  {
    hide ScanAll, At, IsSection, SaysChunked, PrintHeaders, HeaderTrace, Length, NewMessage, FreshMessage;
    var m := ReadHead(sc, q, out, hs, |body|);
    var s2 := ScanAll(sc, PrintHeaders(hs) + "\r\n");
    var out2 := out + HeaderTrace(hs) + BodyStartTrace(m);
    r := BodyStart(m);
    if body == "" {
      StartsAgain(m.(upgrade := false));
      assert PrintHeaders(hs) + "\r\n" + body == PrintHeaders(hs) + "\r\n";
      assert out2 == out + HeaderTrace(hs) + BodyTrace(q.httpMethod, Announced(hs), body);
    } else {
      ReadBody(s2, r, out2, body);
      StartsAgain(r.(contentLength := 0));
      r := r.(contentLength := 0, state := NewMessage(r.(contentLength := 0)));
      assert out2 + [Data(Body, body), MessageComplete] == out + HeaderTrace(hs) +
             BodyTrace(q.httpMethod, Announced(hs), body);
      ScanAllConcat(sc, PrintHeaders(hs) + "\r\n", body);
    }
  }

  lemma FreshFacts(q: Parser)
    requires FreshMessage(q)
    ensures q.state.HeaderFieldStart? && !q.flags.contentLength
  {
  }

  lemma OpenAt(p: Parser)
    requires p.errno.OK? && InitialMark(p).NoMark?
    ensures At(Open(p), p, Nothing, [])
  {
  }

  /** A buffer that has been read to a point with no open data is a whole call. */
  lemma FeedReads(p: Parser, s: string, r: Parser, out: seq<Event>)
    requires Valid(p) && p.errno.OK? && s != "" && At(ScanAll(Open(p), s), r, Nothing, out)
    ensures var w := Feed(p, s); Alike(r, w.p) && w.p.errno.OK? && w.out == out && w.used == |s|
  {
    hide ScanAll, Open, ScanSound, SkipsGeneral;
    assert s[..|s|] == s;
    PrefixSound(p, s, |s|);
    FeedIsClose(p, s);
  }

  /** Between two messages no inner loop is going on. */
  lemma EndsOutside(p0: Parser, s: string, r: Parser, out: seq<Event>)
    requires Valid(p0) && At(ScanAll(Open(p0), s), r, Nothing, out) && BetweenMessages(r.state)
    ensures !ScanAll(Open(p0), s).inner
  {
    OpenFits(p0);
    ScanAllSound(Open(p0), s);
    hide ScanAll, Open, Sound;
  }
}
