/** From HttpResponseBuilder through any fragmentation to the HttpResponse object. */
module HttpEndToEnd {
  import opened HttpTypes
  import opened HttpAutomaton
  import opened HttpScan
  import opened HttpRuns
  import opened HttpInvariant
  import opened HttpNread
  import opened HttpTrace
  import opened HttpPieces
  import opened HttpFragments
  import opened HttpResponses
  import opened HttpReceive
  import opened HttpReads
  import opened HttpNames
  import opened HttpValues
  import opened HttpHeaders
  import opened HttpBodies
  import opened HttpText
  import opened HttpRequestBuilders
  import opened HttpResponseBuilders
  import opened HttpLimit

  // ---------------------------------------------------------------- what the callbacks leave

  function NamesOf(hs: seq<Header>): seq<string> {
    if hs == [] then [] else NamesOf(hs[..|hs| - 1]) + [hs[|hs| - 1].name]
  }

  function ValuesOf(hs: seq<Header>): seq<string> {
    if hs == [] then [] else ValuesOf(hs[..|hs| - 1]) + [hs[|hs| - 1].value]
  }

  lemma {:induction false} Columns(hs: seq<Header>, i: nat)
    ensures |NamesOf(hs)| == |hs| == |ValuesOf(hs)|
    ensures i < |hs| ==> NamesOf(hs)[i] == hs[i].name && ValuesOf(hs)[i] == hs[i].value
  {
    if hs != [] { Columns(hs[..|hs| - 1], i); }
  }

  lemma {:induction false} UpdateConcat(r: Message, a: seq<Event>, b: seq<Event>)
    ensures UpdateAll(r, a + b) == UpdateAll(UpdateAll(r, a), b)
    decreases |b|
  {
    hide Update;
    if b == [] {
      assert a + b == a;
    } else {
      assert (a + b)[..|a + b| - 1] == a + b[..|b| - 1];
      UpdateConcat(r, a, b[..|b| - 1]);
    }
  }

  lemma UpdateOne(r: Message, e: Event)
    ensures UpdateAll(r, [e]) == Update(r, e)
  {
    hide Update;
    assert [e][..0] == [];
  }

  /** The message after the headers. */
  function HeadersIn(r: Message, hs: seq<Header>): Message
    requires r.Message?
  {
    r.(fields := NamesOf(hs), values := ValuesOf(hs), concatField := false, concatValue := hs != [])
  }

  predicate NoHeadersYet(r: Message) {
    r.Message? && r.fields == [] && r.values == [] && !r.concatField && !r.concatValue
  }

  lemma HeaderUpdates(r: Message, hs: seq<Header>, h: Header)
    requires NoHeadersYet(r)
    ensures Update(Update(HeadersIn(r, hs), Data(Field, h.name)), Data(Value, h.value)) == HeadersIn(r, hs + [h])
  {
    assert (hs + [h])[..|hs|] == hs;
  }

  lemma {:induction false} HeadersUpdate(r: Message, hs: seq<Header>)
    requires NoHeadersYet(r)
    ensures UpdateAll(r, HeaderTrace(hs)) == HeadersIn(r, hs)
  {
    hide Update;
    if hs != [] {
      var front, h := hs[..|hs| - 1], hs[|hs| - 1];
      assert hs == front + [h];
      HeadersUpdate(r, front);
      HeaderUpdates(r, front, h);
      var a, b := Data(Field, h.name), Data(Value, h.value);
      UpdateConcat(r, HeaderTrace(front), [a, b]);
      UpdateSnoc(HeadersIn(r, front), [a], b);
      UpdateOne(HeadersIn(r, front), a);
      assert [a] + [b] == [a, b];
    }
  }

  // ---------------------------------------------------------------- Content-Length again

  /** strcicmp and the token table agree on names. */
  lemma {:induction false} SameNameIs(s: string, key: string)
    requires forall i | 0 <= i < |s| :: Token(s[i]) != '\0'
    ensures SameName(s, key) <==> Spelled(s) == key
  {
    if s != "" {
      TokenIsLower(s[0]);
      SpelledRest(s);
      SameNameIs(s[1..], if key == "" then "" else key[1..]);
      assert key != "" ==> key == [key[0]] + key[1..];
    }
    hide Token, LowerAscii;
  }

  lemma TokenIsLower(c: char)
    requires Token(c) != '\0'
    ensures LowerAscii(c) == Token(c) && c != '\0'
  {
  }

  lemma {:induction false} DigitsAre(p: string, s: string)
    requires AllDigits(p) && AllDigits(s)
    ensures AllDigits(p + s) && Digits(s, Decimal(p)) == Decimal(p + s)
    decreases |s|
  {
    if s == "" {
      assert p + s == p;
    } else {
      DecimalSnoc(p, s[0]);
      DigitsAre(p + [s[0]], s[1..]);
      assert p + [s[0]] + s[1..] == p + s;
    }
  }

  lemma AtoiPlain(s: string)
    requires s != "" && !IsSpace(s[0]) && s[0] != '-' && s[0] != '+' && Digits(s, 0) <= 0x7FFF_FFFF
    ensures AtoiU32(s) == Some(Digits(s, 0))
  {
    hide Digits;
  }

  /** atoi reads back what snprintf wrote. */
  lemma AtoiReads(n: nat)
    requires n < 1_000_000_000
    ensures AtoiU32(SizeText(n)) == Some(n)
  {
    SizeTextExact(n);
    var s := SizeText(n);
    assert IsNum(s[0]) && !IsSpace(s[0]) && s[0] != '-' && s[0] != '+';
    DigitsAre("", s);
    assert "" + s == s && Decimal("") == 0;
    AtoiPlain(s);
    hide AtoiU32, SizeText, Digits, Decimal;
  }

  lemma {:induction false} FindLength(fields: seq<string>, from: nat, i: nat)
    requires from <= i < |fields| && SameName(fields[i], CONTENT_LENGTH)
    requires forall k | 0 <= k < i :: !SameName(fields[k], CONTENT_LENGTH)
    ensures FindName(fields, from) == i
    decreases i - from
  {
    if from < i { FindLength(fields, from + 1, i); }
  }

  /** The one Content-Length header of a printed section. */
  lemma LengthFound(hs: seq<Header>, i: nat)
    requires i < |hs| && IsLengthHeader(hs[i])
    requires forall k | 0 <= k < |hs| && k != i :: IsQuietHeader(hs[k])
    ensures FindName(NamesOf(hs), 0) == i
  {
    hide IsName, Spelled, Decimal, SameName, NamesOf, IsValueText;
    var names := NamesOf(hs);
    Columns(hs, 0);
    forall k | 0 <= k <= i ensures names[k] == hs[k].name && (SameName(names[k], CONTENT_LENGTH) <==> k == i) {
      Columns(hs, k);
      assert IsName(hs[k].name);
      NameTokens(hs[k].name);
      SameNameIs(hs[k].name, CONTENT_LENGTH);
    }
    FindLength(names, 0, i);
  }

  lemma NameTokens(s: string)
    requires IsName(s)
    ensures forall i | 0 <= i < |s| :: Token(s[i]) != '\0'
  {
  }

  /** The message that a printed response must become. */
  predicate IsMessage(r: Message, status: nat, hs: seq<Header>, body: string) {
    r.Message? && r.statusCode == status && r.fields == NamesOf(hs) && r.values == ValuesOf(hs) && r.body == body &&
    r.complete
  }

  /** The body and the end, behind headers that announce the length. */
  lemma BodyUpdates(r: Message, status: nat, hs: seq<Header>, i: nat, body: string)
    requires r.Message? && r.fields == NamesOf(hs) && r.values == ValuesOf(hs) && i < |hs| && FindName(r.fields, 0) == i
    requires hs[i].value == SizeText(|body|) && |body| < 1_000_000_000
    requires r.body == "" && !r.hasBody && !r.chunked && r.statusCode == status
    ensures IsMessage(UpdateAll(r, BodyTrace(DELETE, |body|, body)), status, hs, body)
  {
    hide SizeText, NamesOf, ValuesOf, FindName, AtoiU32;
    AtoiReads(|body|);
    Columns(hs, i);
    var e1, e2, e3 := HeadersComplete(DELETE, false, |body|), Data(Body, body), MessageComplete;
    var r1 := Update(r, e1);
    assert r1 == r.(expected := |body|, httpMethod := DELETE, upgrade := false);
    UpdateOne(r, e1);
    if body == "" {
      assert BodyTrace(DELETE, 0, "") == [e1] + [e3];
      UpdateSnoc(r, [e1], e3);
    } else {
      var r2 := Update(r1, e2);
      assert "" + body == body;
      assert r2 == r1.(hasBody := true, capacity := |body|, body := body);
      assert BodyTrace(DELETE, |body|, body) == [e1] + [e2] + [e3];
      UpdateSnoc(r, [e1], e2);
      UpdateSnoc(r, [e1] + [e2], e3);
    }
  }

  /** The callbacks of a printed response make the message it was printed from. */
  lemma ResponseMakes(status: nat, hs: seq<Header>, i: nat, body: string)
    requires i < |hs| && IsLengthHeader(hs[i]) && hs[i].value == SizeText(|body|) && |body| < 1_000_000_000
    requires forall k | 0 <= k < |hs| && k != i :: IsQuietHeader(hs[k])
    ensures IsMessage(UpdateAll(FRESH, ResponseTrace(status, hs, body)), status, hs, body)
  {
    hide SizeText, StatusText, NamesOf, ValuesOf, HeaderTrace, BodyTrace, FindName, IsMessage, IsLengthHeader;
    LengthFound(hs, i);
    var a, b := MessageBegin, Data(Status(status), StatusText(status));
    var r := FRESH.(statusCode := status, statusMessage := StatusText(status));
    UpdateOne(FRESH, a);
    UpdateSnoc(FRESH, [a], b);
    assert [a] + [b] == [a, b];
    HeadersUpdate(r, hs);
    hide UpdateAll;
    UpdateConcat(FRESH, [a, b], HeaderTrace(hs));
    UpdateConcat(FRESH, [a, b] + HeaderTrace(hs), BodyTrace(DELETE, |body|, body));
    BodyUpdates(HeadersIn(r, hs), status, hs, i, body);
  }

  // ---------------------------------------------------------------- header characters

  predicate HeaderText(s: string) { forall i | 0 <= i < |s| :: IsHeaderChar(s[i]) }

  lemma TextConcat(a: string, b: string)
    requires HeaderText(a) && HeaderText(b)
    ensures HeaderText(a + b)
  {
    hide IsHeaderChar;
  }

  lemma NameText(name: string)
    requires IsName(name)
    ensures HeaderText(name)
  {
    forall i | 0 <= i < |name| ensures IsHeaderChar(name[i]) { assert Token(name[i]) != '\0'; }
  }

  lemma LineEndText()
    ensures HeaderText("\r\n") && HeaderText(": ") && HeaderText(" ")
  {
  }

  lemma HeaderLineText(h: Header)
    requires IsName(h.name) && HeaderText(h.value)
    ensures HeaderText(PrintHeader(h))
  {
    hide HeaderText, IsName;
    NameText(h.name);
    LineEndText();
    TextConcat(h.name, ": ");
    TextConcat(h.name + ": ", h.value);
    TextConcat(h.name + ": " + h.value, "\r\n");
  }

  lemma {:induction false} HeadersText(hs: seq<Header>)
    requires forall k | 0 <= k < |hs| :: IsQuietHeader(hs[k]) || IsLengthHeader(hs[k])
    ensures HeaderText(PrintHeaders(hs))
  {
    hide HeaderText, PrintHeader, IsQuietHeader, IsLengthHeader;
    if hs == [] {
      assert HeaderText("") by { NoText(); }
    } else {
      var front, h := hs[..|hs| - 1], hs[|hs| - 1];
      HeadersText(front);
      SortText(h);
      HeaderLineText(h);
      TextConcat(PrintHeaders(front), PrintHeader(h));
    }
  }

  lemma NoText()
    ensures HeaderText("")
  {
  }

  lemma SortText(h: Header)
    requires IsQuietHeader(h) || IsLengthHeader(h)
    ensures IsName(h.name) && HeaderText(h.value)
  {
    hide Spelled;
    if IsLengthHeader(h) { DigitsText(h.value); }
  }

  lemma DigitsText(s: string)
    requires AllDigits(s)
    ensures HeaderText(s)
  {
    forall i | 0 <= i < |s| ensures IsHeaderChar(s[i]) { assert IsNum(s[i]); }
  }

  lemma StatusLineText(status: nat)
    ensures HeaderText(PrintStatusLine(status, StatusText(status)))
  {
    hide StatusText, DecimalText, HeaderText, VERSION_REST;
    var reason := StatusText(status);
    VersionChecked();
    DigitsText(DecimalText(status));
    StatusReason(status);
    ReasonText(reason);
    LineEndText();
    TextConcat("H", VERSION_REST);
    TextConcat("H" + VERSION_REST, DecimalText(status));
    TextConcat(" ", reason);
    TextConcat(" " + reason, "\r\n");
    TextConcat("H" + VERSION_REST + DecimalText(status), " " + reason + "\r\n");
  }

  lemma VersionChecked()
    ensures HeaderText("H") && HeaderText(VERSION_REST)
  {
  }

  lemma ReasonText(s: string)
    requires IsReason(s)
    ensures HeaderText(s)
  {
  }

  /** A text whose head holds header characters and whose body is read by its length holds
      header characters wherever the parser leaves them unchecked. */
  lemma HeadChecked(start: Parser, head: string, body: string, q: Parser, out: seq<Event>)
    requires HeaderText(head) && (body != "" ==> q.state.BodyIdentity? && q.contentLength == |body| < ULLONG_MAX)
    requires At(ScanAll(Open(start), head), q, Nothing, out)
    ensures HeaderCharsOnly(start, head + body)
  {
    hide ScanAll, Open, IsHeaderChar;
    var s := head + body;
    forall k: nat | k < |s| ensures UncheckedAt(Prefix(start, s, k)) ==> IsHeaderChar(s[k]) {
      if k < |head| {
        assert s[k] == head[k];
      } else {
        var done := body[..k - |head|];
        assert s[..k] == head + done;
        ScanAllConcat(Open(start), head, done);
        BodyAt(ScanAll(Open(start), head), q, out, done);
      }
    }
  }

  // ---------------------------------------------------------------- the whole way

  /** What precedes the headers of a response. */
  function ResponseFirst(status: nat): seq<Event> { [MessageBegin, Data(Status(status), StatusText(status))] }

  /** A printed response up to the headers, and what they lead to. */
  lemma ReadResponseHead(status: nat, hs: seq<Header>, n: nat) returns (m: Parser)
    requires status <= 999 && n < ULLONG_MAX && IsSection(hs) && !SaysChunked(hs) && Length(hs) == Some(n)
    ensures At(ScanAll(Open(Init(Response)), PrintStatusLine(status, StatusText(status))),
               StatusLineRead(Init(Response), status), Nothing,
               ResponseFirst(status))
    ensures At(ScanAll(Open(Init(Response)), ResponseHead(status, hs)), BodyStart(m), Nothing,
               ResponseFirst(status) + HeaderTrace(hs) + BodyStartTrace(m))
    ensures m.contentLength == n && !m.flags.chunked
  {
    hide ScanAll, At, Open, PrintHeaders, HeaderTrace, Length, IsSection, SaysChunked, DecimalText, StatusText,
      IsReason, VERSION_REST, BodyStartTrace, BodyStart;
    var start, reason := Init(Response), StatusText(status);
    var line, lines := PrintStatusLine(status, reason), PrintHeaders(hs) + "\r\n";
    StatusReason(status);
    OpenAt(start);
    ReadStatusLine(Open(start), start, [], status, reason);
    assert [] + ResponseFirst(status) == ResponseFirst(status);
    m := ReadHead(ScanAll(Open(start), line), StatusLineRead(start, status), ResponseFirst(status), hs, n);
    ScanAllConcat(Open(start), line, lines);
  }

  /** The printed response is read without an error, and all its header values are checked. */
  lemma ResponseChecked(status: nat, hs: seq<Header>, i: nat, body: string)
    requires status <= 999 && |body| < 1_000_000_000
    requires i < |hs| && IsLengthHeader(hs[i]) && hs[i].value == SizeText(|body|)
    requires forall k | 0 <= k < |hs| && k != i :: IsQuietHeader(hs[k])
    ensures HeaderCharsOnly(Init(Response), PrintResponse(status, hs, body))
  {
    hide ScanAll, At, Open, PrintHeaders, HeaderTrace, Length, IsSection, SaysChunked, SizeText, DecimalText,
      StatusText, VERSION_REST, HeaderText, IsQuietHeader, IsLengthHeader, BodyStartTrace, HeaderCharsOnly,
      ResponseFirst;
    var line, lines := PrintStatusLine(status, StatusText(status)), PrintHeaders(hs) + "\r\n";
    LengthSection(hs, i);
    SizeTextExact(|body|);
    var m := ReadResponseHead(status, hs, |body|);
    StatusLineText(status);
    HeadersText(hs);
    LineEndText();
    TextConcat(PrintHeaders(hs), "\r\n");
    TextConcat(line, lines);
    HeadChecked(Init(Response), line + lines, body, BodyStart(m),
                ResponseFirst(status) + HeaderTrace(hs) + BodyStartTrace(m));
    assert line + lines + body == PrintResponse(status, hs, body);
  }

  /** The headers that the builder of responses prints. */
  function PrintedHeaders(hs: seq<Header>, body: string): seq<Header> { Put(hs, "Content-Length", SizeText(|body|)) }

  function ResponseText(status: nat, hs: seq<Header>, body: string): string {
    PrintResponse(status, PrintedHeaders(hs, body), body)
  }

  /** A printed response is clean, however it is cut. */
  lemma ResponseClean(status: nat, hs: seq<Header>, body: string)
    requires status <= 999 && AllQuiet(hs) && |body| < 1_000_000_000
    ensures var (start, s) := (Init(Response), ResponseText(status, hs, body));
            s != "" && Clean(start, s) && HeaderCharsOnly(start, s) && BetweenMessages(Feed(start, s).p.state) &&
            Feed(start, s).out == ResponseTrace(status, PrintedHeaders(hs, body), body)
  {
    hide Put, SizeText, Feed, HeaderCharsOnly, IsQuietHeader, AllQuiet, ResponseTrace, StatusText, PrintResponse,
      Spelled, Decimal;
    ResponseFeeds(status, hs, body);
    ResponseNonEmpty(status, PrintedHeaders(hs, body), body);
    var i := PutQuiet(hs, "Content-Length", SizeText(|body|));
    SizeTextExact(|body|);
    ContentLengthName();
    ResponseChecked(status, PrintedHeaders(hs, body), i, body);
  }

  lemma ResponseNonEmpty(status: nat, hs: seq<Header>, body: string)
    ensures PrintResponse(status, hs, body) != ""
  {
    hide PrintHeaders, StatusText, DecimalText;
  }

  lemma SameArrives(a: Message, b: Message, status: nat, hs: seq<Header>, body: string)
    requires SameMessage(a, b) && IsMessage(b, status, hs, body)
    ensures IsMessage(a, status, hs, body)
  {
    hide NamesOf, ValuesOf;
  }

  /** A response printed by the builder and fed in any number of pieces, cut anywhere, becomes
      an HttpResponse with exactly its status code, its headers, in map order, and its body. */
  lemma ResponseMade(status: nat, hs: seq<Header>, body: string, pieces: seq<string>)
    requires status <= 999 && AllQuiet(hs) && |body| < 1_000_000_000 && Cuts(pieces, ResponseText(status, hs, body))
    ensures var r := FeedAll(Init(Response), pieces);
            IsMessage(UpdateAll(FRESH, r.out), status, PrintedHeaders(hs, body), body) && r.p.errno.OK? &&
            BetweenMessages(r.p.state)
  {
    hide Put, SizeText, UpdateAll, FeedAll, Feed, Flat, Clean, HeaderCharsOnly, IsQuietHeader, AllQuiet,
      ResponseTrace, Decimal, Join, StatusText, Spelled, IsMessage, SameMessage, ResponseText;
    var start, s, printed := Init(Response), ResponseText(status, hs, body), PrintedHeaders(hs, body);
    ResponseClean(status, hs, body);
    CleanOk(start, s);
    assert pieces != [] by { FlatNothing(); }
    PiecesAgree(start, pieces);
    var i := PutQuiet(hs, "Content-Length", SizeText(|body|));
    SizeTextExact(|body|);
    ContentLengthName();
    ResponseMakes(status, printed, i, body);
    SameTraces(FRESH, FeedAll(start, pieces).out, Feed(start, s).out);
    SameArrives(UpdateAll(FRESH, FeedAll(start, pieces).out), UpdateAll(FRESH, Feed(start, s).out), status, printed,
                body);
  }
}
