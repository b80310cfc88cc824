/** Responses with any headers: switching protocols, responses without a body, and bodies that
    only the end of the stream ends. */
module HttpReplies {
  import opened HttpTypes
  import opened HttpAutomaton
  import opened HttpScan
  import opened HttpRuns
  import opened HttpInvariant
  import opened HttpNread
  import opened HttpPieces
  import opened HttpFragments
  import opened HttpReads
  import opened HttpNames
  import opened HttpValues
  import opened HttpHeaders
  import opened HttpConnection
  import opened HttpBodies
  import opened HttpChunks
  import opened HttpText
  import opened HttpResponseBuilders
  import opened HttpSections
  import opened HttpMessages

  /** A response as it is sent. */
  datatype ResponseMessage = ResponseMessage(status: nat, reason: string, lines: seq<Line>, load: Load)

  function HeadOf(r: ResponseMessage): Head { Head(false, DELETE, r.status, 1, 1, r.lines) }

  /** An Upgrade header together with a Connection header that says upgrade. */
  predicate AsksUpgrade(r: ResponseMessage) { Asks(r.lines) && Says(r.lines, "upgrade") }

  /** Without a length and without chunks there is no body in a response whose status forbids
      one or that switches protocols, and otherwise the body ends with the stream. */
  predicate Carries(r: ResponseMessage) {
    var hs := HeadersOf(r.lines);
    var none := r.status / 100 == 1 || r.status == 204 || r.status == 304 || AsksUpgrade(r);
    match r.load
    case Whole(body) =>
      !SaysChunked(hs) && if Length(hs).Some? then |body| == Length(hs).value else body == "" && none
    case Pieces(chunks, trailer) => SaysChunked(hs) && AreChunks(chunks) && IsTrailer(trailer)
    case ToEnd(_) => !SaysChunked(hs) && Length(hs).None? && !none
  }

  predicate IsReply(r: ResponseMessage) {
    r.status <= 999 && IsReason(r.reason) && IsHeadOf(HeadOf(r)) && Carries(r)
  }

  function TextOf(r: ResponseMessage): string {
    PrintStatusLine(r.status, r.reason) + RestText(HeadOf(r), r.load)
  }

  /** The callbacks up to the end of the headers. */
  function StartTrace(r: ResponseMessage): seq<Event> {
    [MessageBegin, Data(Status(r.status), r.reason)] + HeadTrace(HeadOf(r))
  }

  lemma CarriesFits(r: ResponseMessage)
    requires IsReply(r)
    ensures Fits(HeadOf(r), r.load) && IsHeadOf(HeadOf(r)) && Upgrades(HeadOf(r)) == AsksUpgrade(r)
    ensures r.load.ToEnd? ==> !AsksUpgrade(r)
    ensures Afterwards(HeadOf(r)) == if !Says(r.lines, "close") && (AsksUpgrade(r) ==> Bounded(r)) && !r.load.ToEnd?
            then StartRes else Dead
  {
    hide SaysChunked, Length, HeadersOf, AreLines, AreChunks, Asks, Says, IsReason;
  }

  /** The end of the response is known without the end of the stream. */
  predicate Bounded(r: ResponseMessage) {
    r.status / 100 == 1 || r.status == 204 || r.status == 304 || SaysChunked(HeadersOf(r.lines)) ||
    Length(HeadersOf(r.lines)).Some?
  }

  lemma ReadStatusOf(sc: Scan, q: Parser, out: seq<Event>, r: ResponseMessage)
    requires At(sc, q, Nothing, out) && q.state.StartRes? && q.kind.Response? && q.httpMethod.DELETE? && IsReply(r)
    ensures var line := PrintStatusLine(r.status, r.reason);
            At(ScanAll(sc, line), StatusLineRead(q, r.status), Nothing,
               out + [MessageBegin, Data(Status(r.status), r.reason)]) &&
            Stands(StatusLineRead(q, r.status), HeadOf(r))
  {
    hide ScanAll, At, PrintStatusLine, IsReason, IsHeadOf, Carries;
    ReadStatusLine(sc, q, out, r.status, r.reason);
  }

  /** A response that ends before the stream does, where the parser waits for one. */
  lemma ReadReply(sc: Scan, q: Parser, out: seq<Event>, r: ResponseMessage) returns (e: Parser)
    requires At(sc, q, Nothing, out) && ScanSound(sc, 0) && q.state.StartRes? && q.kind.Response? &&
             q.httpMethod.DELETE?
    requires IsReply(r) && !r.load.ToEnd?
    ensures Reaches(sc, TextOf(r), e, out + StartTrace(r) + LoadTrace(r.load), AsksUpgrade(r))
    ensures e.upgrade == AsksUpgrade(r) && e.state == Afterwards(HeadOf(r)) && Agrees(e, HeadOf(r))
  {
    hide ScanAll, At, ScanSound, Reaches, PrintStatusLine, RestText, HeadTrace, LoadTrace, IsReply, Upgrades,
      Afterwards,
      IsHeadOf, Fits, Stands, AsksUpgrade;
    var h, line, q1 := HeadOf(r), PrintStatusLine(r.status, r.reason), StatusLineRead(q, r.status);
    CarriesFits(r);
    ReadStatusOf(sc, q, out, r);
    ScanAllSound(sc, line);
    var first := [MessageBegin, Data(Status(r.status), r.reason)];
    e := ReadRest(ScanAll(sc, line), q1, out + first, h, r.load);
    assert out + first + HeadTrace(h) + LoadTrace(r.load) == out + StartTrace(r) + LoadTrace(r.load);
    ReachesAfter(sc, line, RestText(h, r.load), e, out + StartTrace(r) + LoadTrace(r.load), AsksUpgrade(r));
  }

  lemma StartTraceIs(r: ResponseMessage)
    ensures StartTrace(r) ==
            [MessageBegin, Data(Status(r.status), r.reason)] + HeaderTrace(HeadersOf(r.lines)) +
            [HeadersComplete(DELETE, AsksUpgrade(r), if Length(HeadersOf(r.lines)).Some?
                                                     then Length(HeadersOf(r.lines)).value else ULLONG_MAX)]
  {
    hide HeaderTrace, HeadersOf, Length, Asks, Says;
    var a, b := [MessageBegin, Data(Status(r.status), r.reason)], HeaderTrace(HeadersOf(r.lines));
    var c := [HeadersComplete(DELETE, AsksUpgrade(r), Announced(HeadersOf(r.lines)))];
    assert a + (b + c) == a + b + c;
  }

  lemma TextStarts(r: ResponseMessage)
    ensures TextOf(r) != ""
  {
    hide RestText;
  }

  /** A response is recognised with its status, its headers and its body; with an upgrade the
      call ends at its last byte, whatever follows. Another response may follow unless a
      Connection header says close, or nothing but the end of the stream could have told where
      this one ends. */
  lemma ReplyReported(r: ResponseMessage, rest: string)
    requires IsReply(r) && !r.load.ToEnd? && (AsksUpgrade(r) || rest == "")
    ensures var up := Asks(r.lines) && Says(r.lines, "upgrade");
            var w := Feed(Init(Response), TextOf(r) + rest);
            w.p.errno.OK? && w.used == |TextOf(r)| && w.p.upgrade == up && w.p.statusCode == r.status &&
            w.p.state == (if !Says(r.lines, "close") && (up ==> Bounded(r)) then StartRes else Dead) &&
            w.out == [MessageBegin, Data(Status(r.status), r.reason)] + HeaderTrace(HeadersOf(r.lines)) +
                     [HeadersComplete(DELETE, up, if Length(HeadersOf(r.lines)).Some?
                                                  then Length(HeadersOf(r.lines)).value else ULLONG_MAX)] +
                     LoadTrace(r.load)
  {
    hide Feed, At, Reaches, Open, Valid, IsReply, TextOf, StartTrace, LoadTrace, HeaderTrace, HeadersOf, Asks, Says,
      Length, Afterwards, Upgrades, Bounded, Fits;
    var start := Init(Response);
    CarriesFits(r);
    TextStarts(r);
    InitIsValid(Response);
    OpenFits(start);
    OpenAt(start);
    var e := ReadReply(Open(start), start, [], r);
    FeedReaches(start, TextOf(r), rest, e, [] + StartTrace(r) + LoadTrace(r.load), AsksUpgrade(r));
    StartTraceIs(r);
    assert [] + StartTrace(r) == StartTrace(r);
  }

  lemma EofFeeds(p: Parser)
    requires p.errno.OK? && p.state.BodyIdentityEof?
    ensures Feed(p, "") == Result(p, [MessageComplete], 0)
  {
    hide ScanAll, Open, Close;
  }

  /** A body without an announced length is everything up to the end of the stream, which
      completes the message. */
  lemma ReplyToEnd(r: ResponseMessage)
    requires IsReply(r) && r.load.ToEnd?
    ensures var w := Feed(Init(Response), TextOf(r));
            w.p.errno.OK? && w.used == |TextOf(r)| && !w.p.upgrade && w.p.statusCode == r.status &&
            w.out == [MessageBegin, Data(Status(r.status), r.reason)] + HeaderTrace(HeadersOf(r.lines)) +
                     [HeadersComplete(DELETE, false, ULLONG_MAX)] +
                     (if r.load.body == "" then [] else [Data(Body, r.load.body)]) &&
            Feed(w.p, "") == Result(w.p, [MessageComplete], 0)
  {
    hide Feed, At, Open, Valid, HeaderTrace, HeadersOf, Length, AreLines, SaysChunked, ScanAll, PrintStatusLine,
      RestText,
      Stands, IsReason, Asks, Says, ScanSound, Fits;
    var start, h, line := Init(Response), HeadOf(r), PrintStatusLine(r.status, r.reason);
    CarriesFits(r);
    TextStarts(r);
    InitIsValid(Response);
    OpenAt(start);
    var sc := Open(start);
    ReadStatusOf(sc, start, [], r);
    var first := [MessageBegin, Data(Status(r.status), r.reason)];
    assert [] + first == first;
    var m := ReadToEnd(ScanAll(sc, line), StatusLineRead(start, r.status), first, h, r.load.body);
    ScanAllConcat(sc, line, RestText(h, r.load));
    var e := ScanAll(sc, TextOf(r));
    AtFacts(e, m, if r.load.body == "" then Nothing else Since(Body, r.load.body), first + HeadTrace(h));
    EndsClear(start, TextOf(r));
    assert TextOf(r)[..|TextOf(r)|] == TextOf(r);
    FeedIsClose(start, TextOf(r));
    LiveUsed(sc, TextOf(r));
    OpenUsed(start);
    EofFeeds(Feed(start, TextOf(r)).p);
  }

  lemma AtFacts(sc: Scan, q: Parser, pend: Pending, out: seq<Event>)
    requires At(sc, q, pend, out)
    ensures Live(sc) && sc.p.errno.OK? && sc.pend == pend && sc.out == out && Alike(q, sc.p)
  {
  }

  /** In a body no inner loop is going on. */
  lemma EndsClear(p: Parser, s: string)
    requires Valid(p)
    ensures ScanAll(Open(p), s).p.state.BodyIdentityEof? ==> !ScanAll(Open(p), s).inner
  {
    OpenFits(p);
    ScanAllSound(Open(p), s);
    hide ScanAll, Open, Sound;
  }
}
