/** When the body of a response overflows its buffer: which Content-Length values do it. */
module HttpOverflows {
  import opened HttpTypes
  import opened HttpAutomaton
  import opened HttpScan
  import opened HttpRuns
  import opened HttpInvariant
  import opened HttpPieces
  import opened HttpFragments
  import opened HttpLength
  import opened HttpReads
  import opened HttpNames
  import opened HttpValues
  import opened HttpHeaders
  import opened HttpChunks
  import opened HttpBodies
  import opened HttpTrace
  import opened HttpResponses
  import HttpReceive
  import opened HttpText
  import opened HttpRequestBuilders
  import opened HttpResponseBuilders
  import opened HttpLimit
  import opened HttpEndToEnd
  import opened HttpCourse
  import opened HttpHeed
  import opened HttpOrder
  import opened HttpHeard

  // ---------------------------------------------------------------- the main results

  /** The response and the course of every run. */
  lemma RunTold(pieces: seq<string>)
    ensures var out := FeedAll(Init(Response), pieces).out;
            var c := FollowAll(SILENCE, out);
            Told(UpdateAll(FRESH, out), c) && Begun(c) && Stable(c) && c.good && NoEmptyBody(out) &&
            c.body == Bytes(out, Body) && (c.heads == 1 ==> Lengths(c)) &&
            (c.heads == 0 ==> c.text.None? && c.body == "")
  {
    hide FeedAll, FollowAll, Told, Lengths, UpdateAll, Lined, Bodied, Begun, Stable, Ordered;
    var out := FeedAll(Init(Response), pieces).out;
    HeadsHeard(out);
    StartFits(Response);
    FeedAllFits(Init(Response), SILENCE, pieces);
    FeedAllHeld(Init(Response), pieces);
    TellAll(out);
    BodyHeard(out);
    TextHeard(out);
  }

  /** set_body overflows its buffer, or atoi has no value to size it by, on exactly these
      streams, of any number of messages and however they are cut: a Content-Length value that is
      in force at the end of some headers overflows int, or the one in force at the first byte of
      body is a number other than 0 below the bytes of body that come, in whichever message,
      before the first chunk. On all others the body is the one delivered. */
  lemma BodyOverflows(pieces: seq<string>)
    ensures var out := FeedAll(Init(Response), pieces).out;
            var r := UpdateAll(FRESH, out);
            (r.Corrupt? <==> Unreadable(LengthText(out)) || 0 < Size(BodyText(out)) < Loose(out)) &&
            (r.Message? ==> r.body == Bytes(out, Body))
  {
    RunTold(pieces);
    hide FeedAll, FollowAll, UpdateAll, Size, Unreadable, Bytes, Stable, Begun;
  }

  /** The course without the body. */
  function Bodiless(c: Course): Course { c.(body := "", bodyText := None, loose := 0) }

  lemma BodilessStep(c: Course, e: Event)
    ensures Bodiless(Follow(c, e)) == if HttpReceive.IsBodyEvent(e) then Bodiless(c) else Follow(Bodiless(c), e)
  {
    hide Glue, FirstText;
  }

  lemma {:induction false} NoBodiesFollow(events: seq<Event>)
    ensures FollowAll(SILENCE, HttpReceive.NoBodies(events)) == Bodiless(FollowAll(SILENCE, events))
    ensures NoEmptyBody(HttpReceive.NoBodies(events))
  {
    hide Follow;
    if events != [] {
      var front, e := events[..|events| - 1], events[|events| - 1];
      NoBodiesFollow(front);
      BodilessStep(FollowAll(SILENCE, front), e);
      FollowSnoc(SILENCE, HttpReceive.NoBodies(front), e);
      assert HttpReceive.NoBodies(front) + [] == HttpReceive.NoBodies(front);
    }
    hide Bodiless;
  }

  /** With a body callback nothing is copied, and only a value that atoi cannot read is left. */
  lemma TakenOverflows(pieces: seq<string>)
    ensures var out := FeedAll(Init(Response), pieces).out;
            UpdateAll(FRESH, HttpReceive.NoBodies(out)).Corrupt? <==> Unreadable(LengthText(out))
  {
    hide FeedAll, FollowAll, UpdateAll, Size, Unreadable, Stable, Begun, NoEmptyBody;
    var out := FeedAll(Init(Response), pieces).out;
    RunTold(pieces);
    NoBodiesFollow(out);
    TellAll(HttpReceive.NoBodies(out));
  }

  lemma AtoiNothing()
    ensures AtoiU32("") == Some(0)
  {
  }

  /** With one message the condition is one on its Content-Length: a number other than 0 that is
      below the bytes of body that the parser delivers. */
  lemma OneOverflows(pieces: seq<string>)
    requires Heads(FeedAll(Init(Response), pieces).out) <= 1
    ensures var out := FeedAll(Init(Response), pieces).out;
            UpdateAll(FRESH, out).Corrupt? <==>
            Unreadable(LengthText(out)) || 0 < Size(LengthText(out)) < |Bytes(out, Body)|
  {
    hide FeedAll, UpdateAll, AtoiU32, Bytes, Heads, IsLength, FollowAll, Stable, Told;
    var out := FeedAll(Init(Response), pieces).out;
    BodyOverflows(pieces);
    RunTold(pieces);
    HeadsHeard(out);
    AtoiNothing();
  }

  /** A Content-Length of digits below 2^31 never overflows: then the parser delivers no more
      than the number that atoi reads. */
  lemma DigitsFit(pieces: seq<string>)
    requires Heads(FeedAll(Init(Response), pieces).out) <= 1
    ensures var out := FeedAll(Init(Response), pieces).out;
            var (r, text) := (UpdateAll(FRESH, out), LengthText(out));
            (text.Some? ==> AllDigits(text.value) && Decimal(text.value) <= 0x7FFF_FFFF) ==>
              r.Message? && r.body == Bytes(out, Body)
  {
    hide FeedAll, FollowAll, UpdateAll, AtoiU32, Bytes, Heads, IsLength, Decimal, AllDigits;
    var out := FeedAll(Init(Response), pieces).out;
    BodyOverflows(pieces);
    OneOverflows(pieces);
    RunTold(pieces);
    HeadsHeard(out);
    var c := FollowAll(SILENCE, out);
    if c.text.Some? && AllDigits(c.text.value) && Decimal(c.text.value) <= 0x7FFF_FFFF {
      if c.text.value == "" {
        AtoiNothing();
      } else {
        AtoiDigits(c.text.value);
        LengthIsDecimal(c.text.value, c.length);
        CourseDelivers(UpdateAll(FRESH, out), c);
      }
    }
  }

  lemma CourseDelivers(r: Message, c: Course)
    requires c.heads == 1 && Lengths(c) && Numbered(c) && c.length < ULLONG_MAX
    ensures |c.body| <= c.length
  {
    hide IsLength;
  }

  lemma LengthIsDecimal(v: string, n: nat)
    requires AllDigits(v)
    ensures IsLength(v, n) ==> n == Decimal(v)
  {
    NumberIsDecimal(v);
    hide Number, Decimal, IsNum;
  }

  lemma AtoiDigits(v: string)
    requires v != "" && AllDigits(v) && Decimal(v) <= 0x7FFF_FFFF
    ensures AtoiU32(v) == Some(Decimal(v))
  {
    assert IsNum(v[0]) && !IsSpace(v[0]) && v[0] != '-' && v[0] != '+';
    DigitsAre("", v);
    assert "" + v == v && Decimal("") == 0;
    AtoiPlain(v);
    hide AtoiU32, Digits, Decimal;
  }

  // ---------------------------------------------------------------- one such stream

  lemma BlankTurns(q: Parser, n: nat)
    requires ExpectsLength(q)
    ensures Turns(LengthSet(q, n), ' ', Go(LengthSet(q, n)))
  {
    assert DispatchValue(LengthSet(q, n), ' ', false) == Go(LengthSet(q, n)) by { hide Descends; }
    ValueTurns(LengthSet(q, n), ' ', Go(LengthSet(q, n)));
    hide Turns, DispatchValue;
  }

  const ONE_BLANK_NOUGHT := "1 0"

  /** The parser reads "1 0" as 10. */
  lemma ReadsTen(q: Parser)
    requires ExpectsLength(q)
    ensures ValuePlods(q, ONE_BLANK_NOUGHT) && ValueRead(q, ONE_BLANK_NOUGHT) == LengthSet(q, 10)
  {
    var q1 := ValueStart(q, '1').p;
    LengthDigit(q, '1');
    BlankTurns(q, 1);
    WalkStep(q1, "", ' ', LengthSet(q, 1));
    DigitTurns(q, 1, '0');
    WalkStep(q1, "" + [' '], '0', LengthSet(q, 10));
    assert ONE_BLANK_NOUGHT[1..] == "" + [' '] + ['0'];
    hide Turns, Plods, WalkTo, ValueStart, LengthSet;
  }

  /** atoi reads it as 1. */
  lemma AtoiOne()
    ensures AtoiU32(ONE_BLANK_NOUGHT) == Some(1)
  {
    assert ONE_BLANK_NOUGHT[1..] == " 0";
    assert Digits(ONE_BLANK_NOUGHT, 0) == Digits(" 0", 1) == 1;
    AtoiPlain(ONE_BLANK_NOUGHT);
    hide AtoiU32, Digits;
  }

  const LENGTH_HEADER := Header("Content-Length", ONE_BLANK_NOUGHT)

  lemma ReadBlankHeader(sc: Scan, q: Parser, out: seq<Event>)
    requires AtLine(sc, q, out) && q.errno.OK? && FreshMessage(q)
    ensures var r := LineRead(q, LENGTH_HEADER);
            AtLine(ScanAll(sc, PrintHeader(LENGTH_HEADER)), r,
                   out + [Data(Field, "Content-Length"), Data(Value, ONE_BLANK_NOUGHT)]) &&
            r.errno.OK? && Tracks(q, r, Some(10), false)
  {
    hide ScanAll, AtLine, ValuePlods, ValueRead, NameRead, Spelled, Shape, LineEnd, Tracks;
    var m := NameRead(q, "Content-Length");
    ContentLengthName();
    NameReadIs(q, "Content-Length");
    ShapeMeans(Spelled("Content-Length"));
    ReadsTen(m);
    LengthTracks(q, m, 10);
    TracksOk(q, LineEnd(LengthSet(m, 10)));
    ReadHeader(sc, q, out, LENGTH_HEADER);
  }

  lemma TracksOk(q: Parser, r: Parser)
    requires Tracks(q, r, Some(10), false) && q.errno.OK?
    ensures r.errno.OK?
  {
  }

  function BlankResponse(status: nat, body: string): string {
    PrintStatusLine(status, StatusText(status)) + PrintHeader(LENGTH_HEADER) + "\r\n" + body
  }

  function BlankStart(status: nat): seq<Event> {
    ResponseFirst(status) + [Data(Field, "Content-Length"), Data(Value, ONE_BLANK_NOUGHT)] +
    [HeadersComplete(DELETE, false, 10)]
  }

  function BlankTrace(status: nat, body: string): seq<Event> {
    BlankStart(status) + [Data(Body, body), MessageComplete]
  }

  /** The head of this response. */
  lemma ReadBlankHead(status: nat) returns (b: Parser)
    requires status <= 999
    ensures At(ScanAll(Open(Init(Response)), BlankResponse(status, "")), b, Nothing, BlankStart(status))
    ensures b.state.BodyIdentity? && b.contentLength == 10 && !b.upgrade
  {
    hide ScanAll, At, AtLine, Open, StatusText, DecimalText, VERSION_REST, LineRead, NewMessage, ONE_BLANK_NOUGHT,
      IsReason, Tracks, Framed;
    var (start, reason, first) := (Init(Response), StatusText(status), ResponseFirst(status));
    var line, lines := PrintStatusLine(status, reason), PrintHeader(LENGTH_HEADER);
    StatusReason(status);
    OpenAt(start);
    ReadStatusLine(Open(start), start, [], status, reason);
    assert [] + first == first;
    var (s1, q) := (ScanAll(Open(start), line), StatusLineRead(start, status));
    NoHeaders(s1, q, first);
    ReadBlankHeader(s1, q, first);
    var r, out := LineRead(q, LENGTH_HEADER), first + [Data(Field, "Content-Length"), Data(Value, ONE_BLANK_NOUGHT)];
    TracksFramed(q, r, Some(10));
    ReadHeadersEnd(ScanAll(s1, lines), r, out);
    b := BodyStart(r);
    assert out + BodyStartTrace(r) == BlankStart(status);
    ScanAllConcat(Open(start), line, lines);
    ScanAllConcat(Open(start), line + lines, "\r\n");
    assert line + lines + "\r\n" == BlankResponse(status, "");
  }

  lemma BlankFeeds(status: nat, body: string)
    requires status <= 999 && |body| == 10
    ensures var w := Feed(Init(Response), BlankResponse(status, body));
            w.p.errno.OK? && w.used == |BlankResponse(status, body)| && w.out == BlankTrace(status, body)
  {
    hide ScanAll, At, Open, Feed, Valid, NewMessage, BlankStart, PrintStatusLine, PrintHeader;
    var start, head := Init(Response), BlankResponse(status, "");
    InitIsValid(Response);
    var b := ReadBlankHead(status);
    ReadBody(ScanAll(Open(start), head), b, BlankStart(status), body);
    ScanAllConcat(Open(start), head, body);
    assert head + body == BlankResponse(status, body) != "";
    FeedReads(start, BlankResponse(status, body), b.(contentLength := 0, state := NewMessage(b.(contentLength := 0))),
              BlankTrace(status, body));
  }

  lemma FirstIsSilent(status: nat)
    ensures FollowAll(SILENCE, ResponseFirst(status)) == SILENCE
  {
    hide StatusText;
    var t := ResponseFirst(status);
    FollowOne(SILENCE, MessageBegin);
    FollowSnoc(SILENCE, [MessageBegin], t[1]);
    assert [MessageBegin] + [t[1]] == t;
  }

  lemma HearsLength(a: Event, b: Event, e: Event)
    requires a == Data(Field, "Content-Length") && b.Data? && b.kind.Value? && e.HeadersComplete?
    ensures var c := Follow(Follow(Follow(SILENCE, a), b), e); c.text == Some(b.bytes) && c.heads == 1 && c.body == ""
  {
    hide SameName, FindName, CONTENT_LENGTH;
    LengthNamed();
    FindMore([], "Content-Length");
    assert [] + ["Content-Length"] == ["Content-Length"];
    var c1 := Follow(SILENCE, a);
    assert c1 == SILENCE.(fields := ["Content-Length"], concatField := true);
    var c2 := Follow(c1, b);
    assert c2 == c1.(values := [b.bytes], concatField := false, concatValue := true);
  }

  /** The course of the trace up to the end of the headers. */
  lemma BlankCourse(status: nat)
    ensures var c := FollowAll(SILENCE, BlankStart(status));
            c.text == Some(ONE_BLANK_NOUGHT) && c.heads == 1 &&
            c.body == ""
  {
    hide StatusText, ONE_BLANK_NOUGHT, FollowAll, Follow, ResponseFirst;
    var a, b := Data(Field, "Content-Length"), Data(Value, ONE_BLANK_NOUGHT);
    var e, t := HeadersComplete(DELETE, false, 10), ResponseFirst(status);
    FirstIsSilent(status);
    FollowSnoc(SILENCE, t, a);
    FollowSnoc(SILENCE, t + [a], b);
    FollowSnoc(SILENCE, t + [a] + [b], e);
    assert t + [a] + [b] + [e] == BlankStart(status);
    HearsLength(a, b, e);
  }

  lemma BlankText(status: nat, body: string)
    ensures LengthText(BlankTrace(status, body)) == Some(ONE_BLANK_NOUGHT) && Heads(BlankTrace(status, body)) == 1
    ensures Bytes(BlankTrace(status, body), Body) == body
  {
    hide BlankStart, FollowAll, Heads, Bytes, ONE_BLANK_NOUGHT;
    BlankCourse(status);
    var t, d := BlankStart(status), Data(Body, body);
    FollowSnoc(SILENCE, t, d);
    FollowSnoc(SILENCE, t + [d], MessageComplete);
    assert t + [d] + [MessageComplete] == BlankTrace(status, body);
    assert "" + body == body;
    HeadsHeard(BlankTrace(status, body));
    BodyHeard(BlankTrace(status, body));
  }

  lemma LengthNamed()
    ensures SameName("Content-Length", CONTENT_LENGTH)
  {
    ContentLengthName();
    NameDone("Content-Length");
    ShapeMeans(Spelled("Content-Length"));
    hide Spelled, SameName, Shape;
  }

  /** A response that the parser accepts and whose body overflows its buffer: the parser reads
      the length as 10, atoi as 1. */
  lemma BlankOverflows(status: nat, body: string)
    requires status <= 999 && |body| == 10
    ensures var s := BlankResponse(status, body);
            Clean(Init(Response), s) && UpdateAll(FRESH, FeedAll(Init(Response), [s]).out).Corrupt?
  {
    hide Feed, FeedAll, UpdateAll, AtoiU32, BlankResponse, BlankTrace, Bytes, Heads, LengthText;
    BlankFeeds(status, body);
    BlankText(status, body);
    OnePiece(Init(Response), BlankResponse(status, body));
    OneOverflows([BlankResponse(status, body)]);
    AtoiOne();
  }

  // ---------------------------------------------------------------- a second response

  predicate IsPrintable(status: nat, hs: seq<Header>, body: string) {
    status <= 999 && AllQuiet(hs) && |body| < 1_000_000_000
  }

  /** Two printed responses in a row, when the first one keeps the connection. */
  lemma TwoFeeds(s1: nat, h1: seq<Header>, b1: string, s2: nat, h2: seq<Header>, b2: string)
    requires IsPrintable(s1, h1, b1) && IsPrintable(s2, h2, b2)
    requires Feed(Init(Response), ResponseText(s1, h1, b1)).p.state.StartRes?
    ensures var (start, both) := (Init(Response), ResponseText(s1, h1, b1) + ResponseText(s2, h2, b2));
            Clean(start, both) &&
            Feed(start, both).out ==
            ResponseTrace(s1, PrintedHeaders(h1, b1), b1) + ResponseTrace(s2, PrintedHeaders(h2, b2), b2)
  {
    hide ScanAll, At, Open, Feed, Put, AllQuiet, Valid, SizeText, PrintResponse, ResponseTrace;
    var start, t1, t2 := Init(Response), ResponseText(s1, h1, b1), ResponseText(s2, h2, b2);
    var out1, out2 := ResponseTrace(s1, PrintedHeaders(h1, b1), b1), ResponseTrace(s2, PrintedHeaders(h2, b2), b2);
    ResponseNonEmpty(s1, PrintedHeaders(h1, b1), b1);
    OpenAt(start);
    InitIsValid(Response);
    var r1 := ReadResponse(Open(start), start, [], s1, h1, b1);
    assert [] + out1 == out1;
    FeedReads(start, t1, r1, out1);
    var r2 := ReadResponse(ScanAll(Open(start), t1), r1, out1, s2, h2, b2);
    ScanAllConcat(Open(start), t1, t2);
    FeedReads(start, t1 + t2, r2, out1 + out2);
  }

  /** The callbacks of a printed response up to its headers. */
  function HeadTrace(status: nat, hs: seq<Header>): seq<Event> { ResponseFirst(status) + HeaderTrace(hs) }

  /** The names and values that were heard up to there. */
  lemma HeadHeard(status: nat, hs: seq<Header>)
    ensures var h := Join(HeaderEvents(HeadTrace(status, hs)));
            Texts(h, Field) == NamesOf(hs) && Texts(h, Value) == ValuesOf(hs)
    ensures Bytes(HeadTrace(status, hs), Body) == ""
  {
    hide StatusText, HeaderTrace, Join, HeaderEvents, Texts, Bytes, NamesOf, ValuesOf;
    var first := ResponseFirst(status);
    var r := FRESH.(statusCode := status, statusMessage := StatusText(status));
    UpdateOne(FRESH, first[0]);
    UpdateSnoc(FRESH, [first[0]], first[1]);
    assert [first[0]] + [first[1]] == first;
    HeadersUpdate(r, hs);
    UpdateConcat(FRESH, first, HeaderTrace(hs));
    hide UpdateAll;
    Collects(HeadTrace(status, hs));
  }

  /** The value in force behind the headers of a printed response. */
  lemma HeadText(status: nat, hs: seq<Header>, body: string)
    requires IsPrintable(status, hs, body)
    ensures var front := HeadTrace(status, PrintedHeaders(hs, body));
            LengthText(front + [HeadersComplete(DELETE, false, |body|)]) == Some(SizeText(|body|))
    ensures Size(Some(SizeText(|body|))) == |body|
  {
    hide Put, SizeText, FollowAll, Join, HeaderEvents, Texts, NamesOf, ValuesOf, HeadTrace, IsQuietHeader, FindName,
      Decimal, Spelled, AtoiU32;
    var printed, e := PrintedHeaders(hs, body), HeadersComplete(DELETE, false, |body|);
    var front := HeadTrace(status, printed);
    var i := PutQuiet(hs, "Content-Length", SizeText(|body|));
    SizeTextExact(|body|);
    ContentLengthName();
    LengthFound(printed, i);
    Columns(printed, i);
    HeadHeard(status, printed);
    LengthTextIs(front, e, []);
    assert front + [e] + [] == front + [e];
    AtoiReads(|body|);
  }

  /** The callbacks of a printed response have no chunks, and its body. */
  lemma TraceBody(status: nat, hs: seq<Header>, body: string)
    ensures Bytes(ResponseTrace(status, hs, body), Body) == body && NoChunks(ResponseTrace(status, hs, body))
  {
    hide StatusText, HeaderTrace, Bytes;
    var head, tail := HeadTrace(status, hs), BodyTrace(DELETE, |body|, body);
    HeadHeard(status, hs);
    HeadersPlain(hs);
    BytesConcat(head, tail, Body);
    assert head + tail == ResponseTrace(status, hs, body);
    TailBody(body);
    assert "" + body == body;
  }

  predicate NoChunks(events: seq<Event>) { forall i | 0 <= i < |events| :: !events[i].ChunkHeader? }

  lemma {:induction false} HeadersPlain(hs: seq<Header>)
    ensures NoChunks(HeaderTrace(hs))
  {
    if hs != [] { HeadersPlain(hs[..|hs| - 1]); }
  }

  lemma TailBody(body: string)
    ensures Bytes(BodyTrace(DELETE, |body|, body), Body) == body
  {
    hide Bytes;
    var a, b, e := HeadersComplete(DELETE, false, |body|), Data(Body, body), MessageComplete;
    BytesSnoc([], a, Body);
    assert [] + [a] == [a] && Bytes([], Body) == "" by { NoBytes(); }
    if body == "" {
      BytesSnoc([a], e, Body);
      assert [a] + [e] == BodyTrace(DELETE, |body|, body);
    } else {
      BytesSnoc([a], b, Body);
      BytesSnoc([a] + [b], e, Body);
      assert [a] + [b] + [e] == BodyTrace(DELETE, |body|, body);
    }
    assert "" + "" + body == body && body + "" == body;
  }

  lemma NoBytes()
    ensures Bytes([], Body) == ""
  {
  }

  /** The first value stays in force, and the bodies add up. */
  lemma TwoCourses(s1: nat, h1: seq<Header>, b1: string, s2: nat, h2: seq<Header>, b2: string)
    requires IsPrintable(s1, h1, b1)
    requires var t := ResponseTrace(s1, PrintedHeaders(h1, b1), b1) + ResponseTrace(s2, PrintedHeaders(h2, b2), b2);
             FollowAll(SILENCE, t).good && NoEmptyBody(t)
    ensures var t := ResponseTrace(s1, PrintedHeaders(h1, b1), b1) + ResponseTrace(s2, PrintedHeaders(h2, b2), b2);
            LengthText(t) == Some(SizeText(|b1|)) && Loose(t) == |b1| + |b2| &&
            (b1 != "" ==> BodyText(t) == Some(SizeText(|b1|)))
  {
    hide ResponseTrace, HeadTrace, Bytes, FollowAll, AllQuiet, SizeText, Put, NoEmptyBody;
    var p1, p2 := PrintedHeaders(h1, b1), PrintedHeaders(h2, b2);
    var t1, t2 := ResponseTrace(s1, p1, b1), ResponseTrace(s2, p2, b2);
    TraceBody(s1, p1, b1);
    TraceBody(s2, p2, b2);
    BytesConcat(t1, t2, Body);
    LooseHeard(t1 + t2);
    HeadText(s1, h1, b1);
    var front, e := HeadTrace(s1, p1), HeadersComplete(DELETE, false, |b1|);
    var rest := TraceParts(s1, p1, b1);
    assert front + [e] + (rest + t2) == t1 + t2;
    TextKept(front + [e], rest + t2);
    if b1 != "" {
      FrontBody(front, e, s1, p1);
      BodyTextIs(front + [e], b1, [MessageComplete] + t2);
      assert front + [e] + [Data(Body, b1)] + ([MessageComplete] + t2) == t1 + t2;
    }
  }

  /** Of two printed responses that reach the same HttpResponse, the second one overflows it
      exactly when both have a body: the buffer has the size that the first one announced, and no
      message starts a new one. */
  lemma SecondOverflows(s1: nat, h1: seq<Header>, b1: string, s2: nat, h2: seq<Header>, b2: string)
    requires IsPrintable(s1, h1, b1) && IsPrintable(s2, h2, b2)
    requires Feed(Init(Response), ResponseText(s1, h1, b1)).p.state.StartRes?
    ensures var both := ResponseText(s1, h1, b1) + ResponseText(s2, h2, b2);
            Clean(Init(Response), both) &&
            (UpdateAll(FRESH, FeedAll(Init(Response), [both]).out).Corrupt? <==> b1 != "" && b2 != "")
  {
    hide Feed, FeedAll, UpdateAll, ResponseText, ResponseTrace, FollowAll, AtoiU32, AllQuiet, SizeText, Put, Stable,
      Told, Lengths, NoEmptyBody;
    var both := ResponseText(s1, h1, b1) + ResponseText(s2, h2, b2);
    TwoFeeds(s1, h1, b1, s2, h2, b2);
    OnePiece(Init(Response), both);
    BodyOverflows([both]);
    RunTold([both]);
    TwoCourses(s1, h1, b1, s2, h2, b2);
    AtoiReads(|b1|);
  }

  lemma FrontBody(front: seq<Event>, e: Event, status: nat, hs: seq<Header>)
    requires front == HeadTrace(status, hs) && e.HeadersComplete?
    ensures Bytes(front + [e], Body) == ""
  {
    hide Bytes, HeadTrace;
    HeadHeard(status, hs);
    BytesSnoc(front, e, Body);
  }

  lemma TraceParts(status: nat, hs: seq<Header>, body: string) returns (rest: seq<Event>)
    ensures ResponseTrace(status, hs, body) == HeadTrace(status, hs) + [HeadersComplete(DELETE, false, |body|)] + rest
    ensures rest == if body == "" then [MessageComplete] else [Data(Body, body)] + [MessageComplete]
  {
    hide StatusText, HeaderTrace;
    rest := if body == "" then [MessageComplete] else [Data(Body, body)] + [MessageComplete];
  }
}
