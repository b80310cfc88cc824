/** From a request through the parser to the object that its handler is given. */
module HttpRequestMade {
  import opened HttpTypes
  import opened HttpAutomaton
  import opened HttpScan
  import opened HttpPieces
  import opened HttpTrace
  import opened HttpResponses
  import opened HttpNames
  import opened HttpValues
  import opened HttpHeaders
  import opened HttpRequestLine
  import opened HttpConnection
  import opened HttpBodies
  import opened HttpChunks
  import opened HttpSections
  import opened HttpMessages
  import opened HttpConversations
  import opened HttpEndToEnd

  // ---------------------------------------------------------------- the length

  lemma DigitIsPlain(c: char)
    requires IsNum(c)
    ensures !IsSpace(c) && c != '-' && c != '+'
  {
  }

  /** atoi reads every announced length that is an int. */
  lemma AtoiOfLength(s: string)
    requires s != "" && AllDigits(s) && Decimal(s) < 0x8000_0000
    ensures AtoiU32(s) == Some(Decimal(s))
  {
    DigitIsPlain(s[0]);
    DigitsAre("", s);
    assert "" + s == s;
    DecimalNothing();
    AtoiPlain(s);
    hide AtoiU32, Digits, Decimal;
  }

  /** A name that strcicmp takes for content-length belongs to a length header. */
  lemma LengthName(line: Line)
    requires IsLine(line)
    ensures SameName(HeaderOf(line).name, CONTENT_LENGTH) <==> IsLengthHeader(HeaderOf(line))
  {
    hide IsValueText, Decimal, AreTokens, SameName, IsName;
    var name := HeaderOf(line).name;
    assert IsName(name);
    NameTokens(name);
    SameNameIs(name, CONTENT_LENGTH);
    assert "content-length"[0] == 'c' && "transfer-encoding"[0] == 't' && "upgrade"[0] == 'u' &&
           "proxy-connection"[0] == 'p' && |"content-length"| == 14 && |"connection"| == 10;
    hide Spelled;
  }

  /** Each line is one, and the announced length is the one of the length header, if there is
      one. */
  lemma {:induction false} LengthOfLines(lines: seq<Line>, i: nat)
    requires AreLines(lines) && i < |lines|
    ensures IsLine(lines[i]) && HeadersOf(lines)[i] == HeaderOf(lines[i])
    ensures IsLengthHeader(HeadersOf(lines)[i]) ==>
              Length(HeadersOf(lines)) == Some(Decimal(HeadersOf(lines)[i].value))
  {
    hide IsLine, HeaderOf, IsLengthHeader, Decimal;
    var front, line := lines[..|lines| - 1], lines[|lines| - 1];
    assert lines == front + [line];
    HeadersSnoc(front, line);
    LengthSnoc(HeadersOf(front), HeaderOf(line));
    if i < |front| {
      LengthOfLines(front, i);
    } else if IsLengthHeader(HeaderOf(line)) {
      LengthOfIs(HeaderOf(line));
    }
  }

  lemma LengthOfIs(h: Header)
    requires IsLengthHeader(h)
    ensures LengthOf(h) == Some(Decimal(h.value)) && AllDigits(h.value) && h.value != ""
  {
  }

  lemma {:induction false} NoLength(hs: seq<Header>)
    requires forall i | 0 <= i < |hs| :: !IsLengthHeader(hs[i])
    ensures Length(hs).None?
  {
    hide IsLengthHeader;
    if hs != [] {
      LengthOrNot(hs[|hs| - 1]);
      NoLength(hs[..|hs| - 1]);
    }
  }

  /** What the first header of that name leads to. */
  lemma FoundLength(lines: seq<Line>)
    requires AreLines(lines) && (Length(HeadersOf(lines)).Some? ==> Length(HeadersOf(lines)).value < 0x8000_0000)
    ensures var hs := HeadersOf(lines);
            var i := FindName(NamesOf(hs), 0);
            if i == |hs| then Length(hs).None?
            else i < |ValuesOf(hs)| && AtoiU32(ValuesOf(hs)[i]) == Length(hs) && Length(hs).Some?
  {
    hide AreLines, IsLine, HeaderOf, IsLengthHeader, Decimal, NamesOf, ValuesOf, SameName, AtoiU32, Length, HeadersOf;
    var hs := HeadersOf(lines);
    var i := FindName(NamesOf(hs), 0);
    Columns(hs, 0);
    if i == |hs| {
      forall k | 0 <= k < |hs| ensures !IsLengthHeader(hs[k]) {
        Columns(hs, k);
        LengthOfLines(lines, k);
        LengthName(lines[k]);
      }
      NoLength(hs);
    } else {
      Columns(hs, i);
      LengthOfLines(lines, i);
      LengthName(lines[i]);
      LengthOfIs(hs[i]);
      AtoiOfLength(hs[i].value);
    }
  }

  // ---------------------------------------------------------------- the body

  /** The body that a load carries. */
  function BodyOf(load: Load): string {
    match load
    case Whole(body) => body
    case Pieces(chunks, _) => Flat(chunks)
    case ToEnd(body) => body
  }

  /** The headers behind it. */
  function TrailerOf(load: Load): seq<Header> { if load.Pieces? then load.trailer else [] }

  /** Only what belongs to the body has changed, and it has grown by `body`. */
  predicate Grown(r: Message, q: Message, body: string) {
    r.Message? && q.Message? && q.body == r.body + body &&
    q == r.(chunked := q.chunked, hasBody := q.hasBody, capacity := q.capacity, body := q.body, complete := q.complete)
  }

  lemma GrownTwice(a: Message, b: Message, c: Message, s: string, t: string)
    requires Grown(a, b, s) && Grown(b, c, t)
    ensures Grown(a, c, s + t)
  {
    assert a.body + s + t == a.body + (s + t);
  }

  lemma ChunkUpdates(r: Message, data: string)
    requires r.Message?
    ensures Grown(r, UpdateAll(r, ChunkTrace(data)), data)
  {
    var a, b, c := ChunkHeader(|data|), Data(Body, data), ChunkComplete;
    UpdateOne(r, a);
    UpdateSnoc(r, [a], b);
    UpdateSnoc(r, [a, b], c);
    assert [a] + [b] == [a, b] && [a, b] + [c] == ChunkTrace(data);
    hide UpdateAll;
  }

  lemma {:induction false} ChunksUpdate(r: Message, chunks: seq<string>)
    requires r.Message?
    ensures Grown(r, UpdateAll(r, ChunksTrace(chunks)), Flat(chunks))
  {
    hide ChunkTrace, Update;
    if chunks == [] {
      assert r.body + "" == r.body;
      FlatNothing();
    } else {
      var front, data := chunks[..|chunks| - 1], chunks[|chunks| - 1];
      assert chunks == front + [data];
      ChunksUpdate(r, front);
      ChunkUpdates(UpdateAll(r, ChunksTrace(front)), data);
      UpdateConcat(r, ChunksTrace(front), ChunkTrace(data));
      FlatSnoc(front, data);
      GrownTwice(r, UpdateAll(r, ChunksTrace(front)), UpdateAll(r, ChunksTrace(chunks)), Flat(front), data);
    }
  }

  /** The object with more headers. */
  function With(r: Message, hs: seq<Header>): Message
    requires r.Message?
  {
    r.(fields := r.fields + NamesOf(hs), values := r.values + ValuesOf(hs),
       concatValue := if hs == [] then r.concatValue else true)
  }

  lemma OneMore(r: Message, h: Header)
    requires r.Message? && !r.concatField
    ensures UpdateAll(r, [Data(Field, h.name), Data(Value, h.value)]) ==
            r.(fields := r.fields + [h.name], values := r.values + [h.value], concatValue := true)
  {
    UpdateOne(r, Data(Field, h.name));
    UpdateSnoc(r, [Data(Field, h.name)], Data(Value, h.value));
    assert [Data(Field, h.name)] + [Data(Value, h.value)] == [Data(Field, h.name), Data(Value, h.value)];
    hide UpdateAll;
  }

  lemma {:induction false} TrailerUpdates(r: Message, hs: seq<Header>)
    requires r.Message? && !r.concatField
    ensures UpdateAll(r, HeaderTrace(hs)) == With(r, hs)
  {
    hide Update, UpdateAll;
    if hs == [] {
      assert r.fields + [] == r.fields && r.values + [] == r.values;
      UpdateNone(r);
    } else {
      var front, h := hs[..|hs| - 1], hs[|hs| - 1];
      TrailerUpdates(r, front);
      UpdateConcat(r, HeaderTrace(front), [Data(Field, h.name), Data(Value, h.value)]);
      OneMore(With(r, front), h);
      assert r.fields + NamesOf(front) + [h.name] == r.fields + NamesOf(hs);
      assert r.values + ValuesOf(front) + [h.value] == r.values + ValuesOf(hs);
    }
  }

  lemma UpdateNone(r: Message)
    ensures UpdateAll(r, []) == r
  {
  }

  lemma EndUpdates(r: Message)
    requires r.Message?
    ensures UpdateAll(r, [ChunkHeader(0)]) == r.(chunked := true)
    ensures UpdateAll(r, [ChunkComplete, MessageComplete]) == r.(complete := true)
  {
    UpdateOne(r, ChunkHeader(0));
    UpdateOne(r, ChunkComplete);
    UpdateSnoc(r, [ChunkComplete], MessageComplete);
    assert [ChunkComplete] + [MessageComplete] == [ChunkComplete, MessageComplete];
    hide UpdateAll;
  }

  /** Chunks add to the body, and the trailer to the headers. */
  lemma PiecesUpdate(r: Message, chunks: seq<string>, trailer: seq<Header>)
    requires r.Message? && !r.concatField
    ensures var q := UpdateAll(r, PiecesTrace(chunks, trailer));
            Loaded(r, q, Flat(chunks), trailer)
  {
    hide Update, UpdateAll, ChunksTrace, HeaderTrace, Flat, NamesOf, ValuesOf;
    var a, b, c := ChunksTrace(chunks), [ChunkHeader(0)], HeaderTrace(trailer);
    ChunksUpdate(r, chunks);
    var r1 := UpdateAll(r, a);
    UpdateConcat(r, a, b);
    EndUpdates(r1);
    var r2 := UpdateAll(r, a + b);
    UpdateConcat(r, a + b, c);
    TrailerUpdates(r2, trailer);
    UpdateConcat(r, a + b + c, [ChunkComplete, MessageComplete]);
    EndUpdates(UpdateAll(r, a + b + c));
  }

  /** The object is complete, with this body and these headers added. */
  predicate Loaded(r: Message, q: Message, body: string, trailer: seq<Header>) {
    r.Message? && q.Message? && q.complete && q.body == r.body + body && q.fields == r.fields + NamesOf(trailer) &&
    q.values == r.values + ValuesOf(trailer) && q.url == r.url && q.httpMethod == r.httpMethod && q.upgrade == r.upgrade
  }

  lemma WholeUpdates(r: Message, body: string)
    requires r.Message? && r.body == "" && !r.hasBody && !r.chunked && (body != "" ==> r.expected == |body|)
    ensures var q := UpdateAll(r, LoadTrace(Whole(body))); Grown(r, q, body) && q.complete
  {
    assert r.body + body == body;
    if body == "" {
      assert LoadTrace(Whole(body)) == [MessageComplete];
      UpdateOne(r, MessageComplete);
    } else {
      UpdateOne(r, Data(Body, body));
      UpdateSnoc(r, [Data(Body, body)], MessageComplete);
    }
    hide UpdateAll;
  }

  lemma LoadUpdates(r: Message, load: Load)
    requires r.Message? && r.body == "" && !r.hasBody && !r.chunked && !r.concatField && !load.ToEnd?
    requires load.Whole? && load.body != "" ==> r.expected == |load.body|
    ensures Loaded(r, UpdateAll(r, LoadTrace(load)), BodyOf(load), TrailerOf(load))
  {
    hide Update, UpdateAll, Flat;
    if load.Whole? {
      WholeUpdates(r, load.body);
      assert r.fields + [] == r.fields && r.values + [] == r.values;
    } else {
      PiecesUpdate(r, load.chunks, load.trailer);
    }
  }

  // ---------------------------------------------------------------- the request

  lemma FirstUpdates(target: string)
    ensures UpdateAll(FRESH, [MessageBegin, Data(Url, target)]) == FRESH.(url := target)
  {
    UpdateOne(FRESH, MessageBegin);
    UpdateSnoc(FRESH, [MessageBegin], Data(Url, target));
    assert [MessageBegin] + [Data(Url, target)] == [MessageBegin, Data(Url, target)];
    hide UpdateAll;
  }

  /** The object when the headers are complete. */
  lemma HeadUpdates(r: Message, lines: seq<Line>, m: Method, up: bool, n: nat)
    requires NoHeadersYet(r) && AreLines(lines)
    requires Length(HeadersOf(lines)).Some? ==> Length(HeadersOf(lines)).value < 0x8000_0000
    ensures var hs := HeadersOf(lines);
            UpdateAll(r, HeaderTrace(hs) + [HeadersComplete(m, up, n)]) ==
            HeadersIn(r, hs).(expected := if Length(hs).Some? then Length(hs).value else r.expected, httpMethod := m,
                              upgrade := up)
  {
    var hs := HeadersOf(lines);
    HeadersUpdate(r, hs);
    UpdateSnoc(r, HeaderTrace(hs), HeadersComplete(m, up, n));
    FoundLength(lines);
    Columns(hs, 0);
    hide UpdateAll, HeaderTrace, FindName, AtoiU32, NamesOf, ValuesOf, HeadersOf, Length, AreLines;
  }

  /** The handler of a request is given its method, its target, whether it asks for an upgrade,
      all its headers in order, those behind the last chunk at the end, and its body, complete. */
  lemma RequestMade(r: RequestMessage)
    requires IsRequest(r)
    requires Length(HeadersOf(r.lines)).Some? ==> Length(HeadersOf(r.lines)).value < 0x8000_0000
    ensures var made := UpdateAll(FRESH, Feed(Init(Request), TextOf(r)).out);
            made.Message? && made.httpMethod == r.httpMethod && made.url == r.target &&
            made.upgrade == AsksUpgrade(r) &&
            made.fields == NamesOf(HeadersOf(r.lines)) + NamesOf(TrailerOf(r.load)) &&
            made.values == ValuesOf(HeadersOf(r.lines)) + ValuesOf(TrailerOf(r.load)) &&
            made.body == BodyOf(r.load) && made.complete
  {
    hide Update, UpdateAll, Feed, TextOf, AsksUpgrade, HeaderTrace, LoadTrace, HeadersOf, NamesOf, ValuesOf, Length,
      IsAuthority, IsTarget, SaysChunked, AreLines, BodyOf, TrailerOf;
    var hs, up := HeadersOf(r.lines), AsksUpgrade(r);
    var n := if Length(hs).Some? then Length(hs).value else ULLONG_MAX;
    var first, head := [MessageBegin, Data(Url, r.target)], HeaderTrace(hs) + [HeadersComplete(r.httpMethod, up, n)];
    CarriesFits(r);
    OneRequest(r);
    FirstUpdates(r.target);
    var r1 := FRESH.(url := r.target);
    HeadUpdates(r1, r.lines, r.httpMethod, up, n);
    UpdateConcat(FRESH, first, head);
    var r2 := UpdateAll(FRESH, first + head);
    LoadUpdates(r2, r.load);
    UpdateConcat(FRESH, first + head, LoadTrace(r.load));
    assert "" + BodyOf(r.load) == BodyOf(r.load);
    assert first + HeaderTrace(hs) + [HeadersComplete(r.httpMethod, up, n)] + LoadTrace(r.load) ==
           first + head + LoadTrace(r.load);
  }

  lemma OneRequest(r: RequestMessage)
    requires IsRequest(r)
    ensures var hs := HeadersOf(r.lines);
            !r.load.ToEnd? &&
            Feed(Init(Request), TextOf(r)).out ==
            [MessageBegin, Data(Url, r.target)] + HeaderTrace(hs) +
            [HeadersComplete(r.httpMethod, AsksUpgrade(r), if Length(hs).Some? then Length(hs).value else ULLONG_MAX)] +
            LoadTrace(r.load)
  {
    hide Feed, TextOf, AsksUpgrade, HeaderTrace, LoadTrace, HeadersOf, Length, IsRequest;
    CarriesFits(r);
    UpgradeReported([], r, "");
    assert "" + TextOf(r) + "" == TextOf(r);
    var m := [MessageBegin, Data(Url, r.target)];
    assert [] + m == m;
  }
}
