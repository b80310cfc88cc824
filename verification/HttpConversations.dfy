/** Requests one behind the other on a connection: each is read where the one before ends, until
    one asks for an upgrade or closes the connection. */
module HttpConversations {
  import opened HttpTypes
  import opened HttpAutomaton
  import opened HttpScan
  import opened HttpRuns
  import opened HttpInvariant
  import opened HttpNread
  import opened HttpPieces
  import opened HttpFragments
  import opened HttpReads
  import opened HttpNames
  import opened HttpValues
  import opened HttpHeaders
  import opened HttpRequestLine
  import opened HttpConnection
  import opened HttpBodies
  import opened HttpChunks
  import opened HttpSections
  import opened HttpMessages

  /** A request as it is sent. */
  datatype RequestMessage = RequestMessage(httpMethod: Method, target: string, major: char, minor: char,
                                           lines: seq<Line>, load: Load)

  function HeadOf(r: RequestMessage): Head
    requires IsVersion(r.major, r.minor)
  {
    Head(true, r.httpMethod, 0, Digit(r.major), Digit(r.minor), r.lines)
  }

  /** The body is the one the headers announce; CONNECT has none, whatever they say. */
  predicate Carries(m: Method, hs: seq<Header>, load: Load) {
    match load
    case Whole(body) =>
      if m.CONNECT? then body == ""
      else !SaysChunked(hs) && |body| == if Length(hs).Some? then Length(hs).value else 0
    case Pieces(chunks, trailer) => !m.CONNECT? && SaysChunked(hs) && AreChunks(chunks) && IsTrailer(trailer)
    case ToEnd(_) => false
  }

  /** A request line that the parser takes. */
  predicate IsLineOf(r: RequestMessage) {
    (if r.httpMethod.CONNECT? then IsAuthority(r.target) else IsTarget(r.target)) && IsVersion(r.major, r.minor)
  }

  predicate IsRequest(r: RequestMessage) {
    IsLineOf(r) && IsHeadOf(HeadOf(r)) && Carries(r.httpMethod, HeadersOf(r.lines), r.load)
  }

  lemma CarriesFits(r: RequestMessage)
    requires IsRequest(r)
    ensures Fits(HeadOf(r), r.load) && !r.load.ToEnd? && IsVersion(r.major, r.minor) && IsHeadOf(HeadOf(r))
  {
    hide SaysChunked, Length, HeadersOf, IsAuthority, IsTarget, AreLines, Upgrades, AreChunks;
  }

  function LineOf(r: RequestMessage): string {
    MethodString(r.httpMethod) + " " + (r.target + " ") + VersionText(r.major, r.minor)
  }

  function TextOf(r: RequestMessage): string
    requires IsRequest(r)
  {
    LineOf(r) + RestText(HeadOf(r), r.load)
  }

  /** The callbacks of a request. */
  function TraceOf(r: RequestMessage): seq<Event>
    requires IsRequest(r)
  {
    CarriesFits(r);
    [MessageBegin, Data(Url, r.target)] + HeadTrace(HeadOf(r)) + LoadTrace(r.load)
  }

  // ---------------------------------------------------------------- one request

  /** The parser behind the request line. */
  function StartRead(q: Parser, r: RequestMessage): Parser
    requires IsVersion(r.major, r.minor)
  {
    VersionRead(MethodRead(q, r.httpMethod), r.major, r.minor)
  }

  lemma ReadLineOf(sc: Scan, q: Parser, out: seq<Event>, r: RequestMessage)
    requires At(sc, q, Nothing, out) && q.state.StartReq? && q.kind.Request? && IsLineOf(r)
    ensures At(ScanAll(sc, LineOf(r)), StartRead(q, r), Nothing, out + [MessageBegin, Data(Url, r.target)])
    ensures Stands(StartRead(q, r), HeadOf(r))
  {
    hide ScanAll, At, IsAuthority, IsTarget, MethodString, VersionText;
    var a, b := MethodString(r.httpMethod) + " ", r.target + " ";
    ReadMethod(sc, q, out, r.httpMethod);
    var q1, s1 := MethodRead(q, r.httpMethod), ScanAll(sc, a);
    if r.httpMethod.CONNECT? {
      ReadAuthority(s1, q1, out + [MessageBegin], r.target);
    } else {
      ReadTarget(s1, q1, out + [MessageBegin], r.target);
    }
    ReadVersion(ScanAll(s1, b), q1.(state := ReqHttpStart), out + [MessageBegin] + [Data(Url, r.target)], r.major,
                r.minor);
    assert out + [MessageBegin] + [Data(Url, r.target)] == out + [MessageBegin, Data(Url, r.target)];
    ScanAllConcat(sc, a, b);
    ScanAllConcat(sc, a + b, VersionText(r.major, r.minor));
  }

  /** A request, where the parser waits for one. */
  lemma ReadRequest(sc: Scan, q: Parser, out: seq<Event>, r: RequestMessage) returns (e: Parser)
    requires At(sc, q, Nothing, out) && ScanSound(sc, 0) && q.state.StartReq? && q.kind.Request? && IsRequest(r)
    ensures Reaches(sc, TextOf(r), e, out + TraceOf(r), Upgrades(HeadOf(r)))
    ensures e.kind.Request? && e.upgrade == Upgrades(HeadOf(r)) && e.state == Afterwards(HeadOf(r))
  {
    hide ScanAll, At, ScanSound, Reaches, LineOf, RestText, HeadTrace, LoadTrace, IsHeadOf, Carries, Upgrades,
      Afterwards,
      IsAuthority, IsTarget, StartRead, Stands;
    var h := HeadOf(r);
    CarriesFits(r);
    ReadLineOf(sc, q, out, r);
    ScanAllSound(sc, LineOf(r));
    var first := [MessageBegin, Data(Url, r.target)];
    e := ReadRest(ScanAll(sc, LineOf(r)), StartRead(q, r), out + first, h, r.load);
    assert out + first + HeadTrace(h) + LoadTrace(r.load) == out + TraceOf(r);
    ReachesAfter(sc, LineOf(r), RestText(h, r.load), e, out + TraceOf(r), Upgrades(h));
  }

  // ---------------------------------------------------------------- many requests

  /** CONNECT, or an Upgrade header together with a Connection header that says upgrade. */
  predicate AsksUpgrade(r: RequestMessage) {
    r.httpMethod.CONNECT? || (Asks(r.lines) && Says(r.lines, "upgrade"))
  }

  /** Another request may follow: unless a Connection header says close, or, with a minor
      version of 0, only when one says keep-alive. */
  predicate GoesOn(r: RequestMessage) {
    !AsksUpgrade(r) && if r.minor != '0' then !Says(r.lines, "close") else Says(r.lines, "keep-alive")
  }

  predicate AreRequests(rs: seq<RequestMessage>) { forall i | 0 <= i < |rs| :: IsRequest(rs[i]) }

  predicate AllGoOn(rs: seq<RequestMessage>) { forall i | 0 <= i < |rs| :: GoesOn(rs[i]) }

  function TextsOf(rs: seq<RequestMessage>): string
    requires AreRequests(rs)
  {
    if rs == [] then "" else
      assert IsRequest(rs[|rs| - 1]);
      TextsOf(rs[..|rs| - 1]) + TextOf(rs[|rs| - 1])
  }

  function TracesOf(rs: seq<RequestMessage>): seq<Event>
    requires AreRequests(rs)
  {
    if rs == [] then [] else
      assert IsRequest(rs[|rs| - 1]);
      TracesOf(rs[..|rs| - 1]) + TraceOf(rs[|rs| - 1])
  }

  lemma AfterRequest(r: RequestMessage)
    requires IsRequest(r)
    ensures Upgrades(HeadOf(r)) == AsksUpgrade(r) && (GoesOn(r) ==> !AsksUpgrade(r))
    ensures !AsksUpgrade(r) ==> Afterwards(HeadOf(r)) == if GoesOn(r) then StartReq else Dead
  {
    hide Asks, Says, IsHeadOf, IsAuthority, IsTarget, Carries;
  }

  lemma {:induction false} ReadRequests(sc: Scan, q: Parser, out: seq<Event>, rs: seq<RequestMessage>)
    returns (e: Parser)
    requires At(sc, q, Nothing, out) && ScanSound(sc, 0) && q.state.StartReq? && q.kind.Request?
    requires AreRequests(rs) && AllGoOn(rs)
    ensures At(ScanAll(sc, TextsOf(rs)), e, Nothing, out + TracesOf(rs)) && ScanSound(ScanAll(sc, TextsOf(rs)), 0)
    ensures e.state.StartReq? && e.kind.Request?
  {
    hide ScanAll, At, ScanSound, Reaches, IsRequest, GoesOn, TextOf, TraceOf, Upgrades, Afterwards;
    if rs == [] {
      e := q;
      ScanNothing(sc);
      assert out + [] == out;
    } else {
      var front, r := rs[..|rs| - 1], rs[|rs| - 1];
      assert IsRequest(r) && GoesOn(r);
      CarriesFits(r);
      var m := ReadRequests(sc, q, out, front);
      var s1 := ScanAll(sc, TextsOf(front));
      e := ReadRequest(s1, m, out + TracesOf(front), r);
      AfterRequest(r);
      assert out + TracesOf(front) + TraceOf(r) == out + TracesOf(rs);
      ReachesIsAt(s1, TextOf(r), e, out + TracesOf(rs));
      ScanAllConcat(sc, TextsOf(front), TextOf(r));
      ScanAllSound(sc, TextsOf(rs));
    }
  }

  /** The requests up to one that may be the last, read to its last byte. */
  lemma ReadConversation(front: seq<RequestMessage>, r: RequestMessage) returns (e: Parser)
    requires AreRequests(front) && AllGoOn(front) && IsRequest(r)
    ensures Reaches(Open(Init(Request)), TextsOf(front) + TextOf(r), e, TracesOf(front) + TraceOf(r),
                    Upgrades(HeadOf(r)))
    ensures e.kind.Request? && e.upgrade == Upgrades(HeadOf(r)) && e.state == Afterwards(HeadOf(r))
  {
    hide ScanAll, At, ScanSound, Reaches, IsRequest, GoesOn, TextOf, TraceOf, Upgrades, Afterwards, Open, Valid;
    var start := Init(Request);
    var sc := Open(start);
    InitIsValid(Request);
    OpenFits(start);
    OpenAt(start);
    CarriesFits(r);
    var m := ReadRequests(sc, start, [], front);
    assert [] + TracesOf(front) == TracesOf(front);
    e := ReadRequest(ScanAll(sc, TextsOf(front)), m, TracesOf(front), r);
    ReachesAfter(sc, TextsOf(front), TextOf(r), e, TracesOf(front) + TraceOf(r), Upgrades(HeadOf(r)));
  }

  lemma TextStarts(r: RequestMessage)
    requires IsRequest(r)
    ensures TextOf(r) != ""
  {
    hide RestText, IsHeadOf, Carries, IsAuthority, IsTarget;
  }

  /** Every request of a conversation is recognised, and the last one leaves the parser with an
      upgrade exactly when it is a CONNECT, or has an Upgrade header and a Connection header that
      says upgrade. An upgrade ends the call at the last byte of the request, whatever follows. */
  lemma UpgradeReported(front: seq<RequestMessage>, r: RequestMessage, rest: string)
    requires AreRequests(front) && AllGoOn(front) && IsRequest(r)
    ensures var up := AsksUpgrade(r);
            var length := if Length(HeadersOf(r.lines)).Some? then Length(HeadersOf(r.lines)).value else ULLONG_MAX;
            var w := Feed(Init(Request), TextsOf(front) + TextOf(r) + rest);
            up || rest == "" ==>
              w.p.errno.OK? && w.used == |TextsOf(front) + TextOf(r)| && w.p.upgrade == up && !r.load.ToEnd? &&
              w.out == TracesOf(front) + [MessageBegin, Data(Url, r.target)] + HeaderTrace(HeadersOf(r.lines)) +
                       [HeadersComplete(r.httpMethod, up, length)] + LoadTrace(r.load)
  {
    hide Feed, At, Reaches, Open, Valid, IsRequest, GoesOn, AsksUpgrade, Upgrades, TextOf, LoadTrace, HeaderTrace,
      HeadersOf, Asks, Says,
      Length, Afterwards;
    var up := AsksUpgrade(r);
    CarriesFits(r);
    TextStarts(r);
    InitIsValid(Request);
    var e := ReadConversation(front, r);
    AfterRequest(r);
    if up || rest == "" {
      FeedReaches(Init(Request), TextsOf(front) + TextOf(r), rest, e, TracesOf(front) + TraceOf(r), up);
      assert TracesOf(front) + TraceOf(r) ==
             TracesOf(front) + [MessageBegin, Data(Url, r.target)] + HeaderTrace(HeadersOf(r.lines)) +
             [HeadersComplete(r.httpMethod, up, Announced(HeadersOf(r.lines)))] + LoadTrace(r.load);
    }
  }

  lemma EndsBetween(p: Parser)
    requires p.errno.OK? && (p.state.StartReq? || p.state.Dead?)
    ensures Feed(p, "") == Result(p, [], 0)
  {
    hide ScanAll, Open, Close;
  }

  /** Behind a whole request the stream may end. */
  lemma EndsCleanly(front: seq<RequestMessage>, r: RequestMessage)
    requires AreRequests(front) && AllGoOn(front) && IsRequest(r)
    ensures var p := Feed(Init(Request), TextsOf(front) + TextOf(r)).p; Feed(p, "") == Result(p, [], 0)
  {
    hide Feed, Reaches, Open, Valid, IsRequest, GoesOn, AsksUpgrade, Upgrades, TextOf, TraceOf, KeepsAlive;
    var text := TextsOf(front) + TextOf(r);
    TextStarts(r);
    InitIsValid(Request);
    CarriesFits(r);
    var e := ReadConversation(front, r);
    FeedReaches(Init(Request), text, "", e, TracesOf(front) + TraceOf(r), Upgrades(HeadOf(r)));
    assert text + "" == text;
    EndsBetween(Feed(Init(Request), text).p);
  }

  // ---------------------------------------------------------------- the end of a connection

  lemma ClosedTurns(q: Parser, ch: char)
    requires q.state.Dead? && q.errno.OK? && IsCrLf(ch)
    ensures Turns(q, ch, Go(q))
  {
    hide Descends;
  }

  lemma {:induction false} ClosedWalk(q: Parser, s: string)
    requires q.state.Dead? && q.errno.OK? && forall i | 0 <= i < |s| :: IsCrLf(s[i])
    ensures Plods(q, s) && WalkTo(q, s) == q
  {
    hide Turns, Dispatch, IsCrLf;
    if s == "" {
      WalkNothing(q);
    } else {
      var front, ch := s[..|s| - 1], s[|s| - 1];
      assert s == front + [ch];
      ClosedWalk(q, front);
      ClosedTurns(q, ch);
      WalkStep(q, front, ch, q);
    }
  }

  lemma ClosedByte(sc: Scan, q: Parser, out: seq<Event>, ch: char)
    requires At(sc, q, Nothing, out) && q.state.Dead? && !IsCrLf(ch)
    ensures var e := ByteStep(sc, ch);
            e.p.errno.ClosedConnection? && e.out == out && e.used == sc.used && !Live(e)
  {
    hide Descends;
    var p := Count(sc.p);
    assert Dispatch(p, ch, sc.skip) == Fail(p, ClosedConnection);
    hide Dispatch;
    assert out + [] == out;
  }

  /** Behind a request that closes the connection nothing but ends of lines is let through: the
      first other byte is an error, and is not taken. */
  lemma NothingBehindClose(front: seq<RequestMessage>, r: RequestMessage, blank: string, ch: char, rest: string)
    requires AreRequests(front) && AllGoOn(front) && IsRequest(r)
    requires forall i | 0 <= i < |blank| :: blank[i] == '\r' || blank[i] == '\n'
    requires ch != '\r' && ch != '\n'
    requires !AsksUpgrade(r) && !GoesOn(r)
    ensures var text := TextsOf(front) + TextOf(r) + blank;
            var w := Feed(Init(Request), text + [ch] + rest);
            w.p.errno.ClosedConnection? && w.used == |text| && w.out == TracesOf(front) + TraceOf(r)
  {
    hide Feed, At, Reaches, Open, Valid, GoesOn, AsksUpgrade, Afterwards, Upgrades, TextOf, TraceOf, Asks, Says, Length,
      ScanAll, ByteStep, IsHeadOf, Carries,
      IsTarget, IsAuthority, FlushPending;
    var start, t := Init(Request), TextsOf(front) + TextOf(r);
    var sc, out := Open(start), TracesOf(front) + TraceOf(r);
    InitIsValid(Request);
    var e := ReadConversation(front, r);
    CarriesFits(r);
    AfterRequest(r);
    hide IsRequest;
    ReachesIsAt(sc, t, e, out);
    AtOk(ScanAll(sc, t), e, Nothing, out);
    ClosedWalk(e, blank);
    ReadWalk(ScanAll(sc, t), e, Nothing, out, blank);
    ScanAllConcat(sc, t, blank);
    var s1 := ScanAll(sc, t + blank);
    ClosedByte(s1, e, out, ch);
    LiveUsed(sc, t + blank) by { AtLive(s1, e, out); }
    ScanAllSnoc(sc, t + blank, ch);
    ScanAllConcat(sc, t + blank + [ch], rest);
    ReadDead(ByteStep(s1, ch), rest);
    var text := t + blank + [ch] + rest;
    assert text[..|text|] == text;
    FeedIsClose(start, text);
    OpenUsed(start);
  }

  lemma AtLive(sc: Scan, q: Parser, out: seq<Event>)
    requires At(sc, q, Nothing, out)
    ensures Live(sc)
  {
  }
}
