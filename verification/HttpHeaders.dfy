/** Reading a printed header section. */
module HttpHeaders {
  import opened HttpTypes
  import opened HttpAutomaton
  import opened HttpScan
  import opened HttpRuns
  import opened HttpInvariant
  import opened HttpReads
  import opened HttpNames
  import opened HttpValues

  /** The parser after a name and its colon. */
  function NameRead(q: Parser, name: string): Parser
    requires name != ""
  {
    WalkTo(NameStarted(q, name[0]), name[1..]).(state := HeaderValueDiscardWs)
  }

  lemma NameReadIs(q: Parser, name: string)
    requires IsName(name) && q.errno.OK?
    ensures var r := NameRead(q, name);
            r == q.(state := HeaderValueDiscardWs, headerState := Shape(Spelled(name)), index := r.index)
  {
    NameWalk(q.(index := 0, state := HeaderField, headerState := FirstHeaderState(Token(name[0]))), name);
    hide WalkTo, Plods, Shape, Spelled, IsName;
  }

  lemma NameTurns(q: Parser, ch: char)
    requires q.state.HeaderFieldStart? && q.errno.OK? && Token(ch) != '\0'
    ensures Turns(q, ch, Outcome(NameStarted(q, ch), MarkOf(Field), NoFlush, [], Next)) && !IsBlank(ch)
  {
    hide Descends;
  }

  lemma ColonTurns(q: Parser)
    requires q.state.HeaderField? && q.errno.OK?
    ensures Turns(q, ':', Outcome(q.(state := HeaderValueDiscardWs), NoMark, UpTo(Field), [], Next))
  {
    hide Descends, FieldByte;
  }

  /** The parser after a name. */
  function NameWalked(q: Parser, name: string): Parser
    requires name != ""
  {
    WalkTo(NameStarted(q, name[0]), name[1..])
  }

  lemma ReadNameText(sc: Scan, q: Parser, out: seq<Event>, name: string)
    requires AtLine(sc, q, out) && q.errno.OK? && IsName(name)
    ensures name != "" && At(ScanAll(sc, name), NameWalked(q, name), Since(Field, name), out)
    ensures NameWalked(q, name).state.HeaderField? && NameWalked(q, name).errno.OK?
  {
    hide Turns, ByteStep, ScanAll, At, Plods, WalkTo, AtLine, Shape, Spelled, Named;
    var q1 := NameStarted(q, name[0]);
    var o := Outcome(q1, MarkOf(Field), NoFlush, [], Next);
    AtLineState(sc, q, out);
    NameTurns(q, name[0]);
    LineByte(sc, q, out, name[0], o);
    assert PendOf(Nothing, o) == Since(Field, "") && OutOf(out, Nothing, o, name[0]) == out;
    var s1 := ByteStep(sc, name[0]);
    assert "" + [name[0]] == [name[0]];
    assert At(s1, q1, Since(Field, [name[0]]), out);
    NameWalk(q1, name);
    ReadWalk(s1, q1, Since(Field, [name[0]]), out, name[1..]);
    assert [name[0]] + name[1..] == name;
    ScanOne(sc, name[0]);
    ScanAllConcat(sc, [name[0]], name[1..]);
  }

  /** A name and its colon. */
  lemma ReadName(sc: Scan, q: Parser, out: seq<Event>, name: string)
    requires AtLine(sc, q, out) && q.errno.OK? && IsName(name)
    ensures At(ScanAll(sc, name + ":"), NameRead(q, name), Nothing, out + [Data(Field, name)])
  {
    hide Turns, ByteStep, ScanAll, At, WalkTo, AtLine;
    ReadNameText(sc, q, out, name);
    var m := NameWalked(q, name);
    ColonTurns(m);
    ReadFlush(ScanAll(sc, name), m, Field, name, out, ':', m.(state := HeaderValueDiscardWs));
    ScanAllSnoc(sc, name, ':');
    assert name + [':'] == name + ":";
  }

  lemma AtLineState(sc: Scan, q: Parser, out: seq<Event>)
    requires AtLine(sc, q, out)
    ensures q.state.HeaderFieldStart?
  {
  }

  // ---------------------------------------------------------------- one line

  datatype Header = Header(name: string, value: string)

  function PrintHeader(h: Header): string { h.name + ": " + h.value + "\r\n" }

  function LineRead(q: Parser, h: Header): Parser
    requires h.name != ""
  {
    LineEnd(ValueRead(NameRead(q, h.name), h.value))
  }

  lemma ReadHeader(sc: Scan, q: Parser, out: seq<Event>, h: Header)
    requires AtLine(sc, q, out) && q.errno.OK? && IsName(h.name) && IsValueText(h.value)
    requires ValuePlods(NameRead(q, h.name), h.value)
    requires h.value != "" ==> ValueRead(NameRead(q, h.name), h.value).state.HeaderValue?
    ensures AtLine(ScanAll(sc, PrintHeader(h)), LineRead(q, h), out + [Data(Field, h.name), Data(Value, h.value)])
  {
    hide ScanAll, At, AtLine, ValuePlods, ValueRead, LineEnd, NameRead, IsValueText;
    ReadName(sc, q, out, h.name);
    NameReadIs(q, h.name);
    ReadValue(ScanAll(sc, h.name + ":"), NameRead(q, h.name), out + [Data(Field, h.name)], h.value);
    assert out + [Data(Field, h.name)] + [Data(Value, h.value)] == out + [Data(Field, h.name), Data(Value, h.value)];
    ScanAllConcat(sc, h.name + ":", " " + h.value + "\r\n");
    assert h.name + ":" + (" " + h.value + "\r\n") == PrintHeader(h);
  }

  // ---------------------------------------------------------------- sorts of headers

  predicate IsQuietHeader(h: Header) { IsQuietName(h.name) && IsValueText(h.value) }

  predicate IsLengthHeader(h: Header) {
    IsName(h.name) && Spelled(h.name) == "content-length" && h.value != "" && AllDigits(h.value) &&
    Decimal(h.value) <= MAX_LENGTH
  }

  predicate IsChunkedHeader(h: Header) {
    IsName(h.name) && Spelled(h.name) == "transfer-encoding" && h.value == "chunked"
  }

  /** Header sections that are either of known length or chunked. */
  predicate IsSection(hs: seq<Header>) {
    hs == [] ||
    (IsSection(hs[..|hs| - 1]) &&
     var h := hs[|hs| - 1];
     IsQuietHeader(h) || IsChunkedHeader(h) || (IsLengthHeader(h) && Length(hs[..|hs| - 1]).None?))
  }

  function LengthOf(h: Header): Option<nat> { if IsLengthHeader(h) then Some(Decimal(h.value)) else None }

  /** The announced length, if there is one. */
  function Length(hs: seq<Header>): Option<nat> {
    if hs == [] then None
    else if LengthOf(hs[|hs| - 1]).Some? then LengthOf(hs[|hs| - 1])
    else Length(hs[..|hs| - 1])
  }

  predicate SaysChunked(hs: seq<Header>) { exists i :: 0 <= i < |hs| && IsChunkedHeader(hs[i]) }

  function PrintHeaders(hs: seq<Header>): string {
    if hs == [] then "" else PrintHeaders(hs[..|hs| - 1]) + PrintHeader(hs[|hs| - 1])
  }

  function HeaderTrace(hs: seq<Header>): seq<Event> {
    if hs == [] then []
    else HeaderTrace(hs[..|hs| - 1]) + [Data(Field, hs[|hs| - 1].name), Data(Value, hs[|hs| - 1].value)]
  }

  /** What a header section does to the parser. */
  predicate Tracks(q: Parser, r: Parser, length: Option<nat>, chunked: bool) {
    r.state.HeaderFieldStart? &&
    r == q.(state := r.state, headerState := r.headerState, index := r.index, flags := r.flags, nread := r.nread,
            contentLength := if length.Some? then length.value else q.contentLength) &&
    r.flags.chunked == (q.flags.chunked || chunked) &&
    r.flags.contentLength == (q.flags.contentLength || length.Some?) &&
    r.flags.trailing == q.flags.trailing && r.flags.upgrade == q.flags.upgrade && r.flags.skipBody == q.flags.skipBody
  }

  lemma QuietTracks(q: Parser, m: Parser, r: Parser)
    requires m == q.(state := HeaderValueDiscardWs, headerState := m.headerState, index := m.index)
    requires Quiet(m, r) && r.state.HeaderFieldStart?
    ensures Tracks(q, r, None, false)
  {
  }

  lemma QuietHeaderTracks(q: Parser, h: Header)
    requires q.errno.OK? && IsQuietHeader(h)
    ensures ValuePlods(NameRead(q, h.name), h.value) && Tracks(q, LineRead(q, h), None, false)
    ensures h.value != "" ==> ValueRead(NameRead(q, h.name), h.value).state.HeaderValue?
  {
    hide ValuePlods, ValueRead, NameRead, LineEnd, IsValueText, Quiet, Tracks, Spelled, Shape;
    var m := NameRead(q, h.name);
    NameReadIs(q, h.name);
    QuietNameShape(h.name);
    QuietValue(m, h.value);
    assert LineEnd(ValueRead(m, h.value)).state.HeaderFieldStart? by { LineEndStarts(ValueRead(m, h.value)); }
    QuietTracks(q, m, LineRead(q, h));
  }

  lemma LineEndStarts(q: Parser)
    ensures LineEnd(q).state.HeaderFieldStart?
  {
  }

  lemma LengthTracks(q: Parser, m: Parser, n: nat)
    requires m == q.(state := HeaderValueDiscardWs, headerState := ContentLength, index := m.index)
    ensures Tracks(q, LineEnd(LengthSet(m, n)), Some(n), false)
  {
  }

  lemma LengthHeaderTracks(q: Parser, h: Header)
    requires q.errno.OK? && !q.flags.contentLength && IsLengthHeader(h)
    ensures ValuePlods(NameRead(q, h.name), h.value) && Tracks(q, LineRead(q, h), Some(Decimal(h.value)), false)
    ensures ValueRead(NameRead(q, h.name), h.value).state.HeaderValue? && IsValueText(h.value)
  {
    hide ValuePlods, ValueRead, NameRead, LineEnd, Tracks, Spelled, Shape, Decimal;
    var m := NameRead(q, h.name);
    NameReadIs(q, h.name);
    ShapeMeans(Spelled(h.name));
    LengthValue(m, h.value);
    LengthTracks(q, m, Decimal(h.value));
  }

  // ---------------------------------------------------------------- Transfer-Encoding: chunked

  function ChunkedAt(m: Parser, i: nat): Parser {
    m.(state := HeaderValue, index := i,
       headerState := if i == 6 then TransferEncodingChunked else MatchingTransferEncodingChunked)
  }

  lemma ChunkedTurns(m: Parser, i: nat)
    requires m.errno.OK? && i < 6
    ensures Turns(ChunkedAt(m, i), "chunked"[i + 1], Go(ChunkedAt(m, i + 1)))
  {
    var ch := "chunked"[i + 1];
    var q := ChunkedAt(m, i);
    KeyCharAt("chunked", i + 1);
    assert IsHeaderChar(ch) && !IsCrLf(ch) && Lower(ch) == ch;
    assert ValueByte(q, ch) == ChunkedAt(m, i + 1) by { hide IsHeaderChar, IsCrLf, Lower, KeyChar; }
    assert DispatchValue(q, ch, false) == Go(ChunkedAt(m, i + 1)) by { hide ValueByte; }
    ValueTurns(q, ch, Go(ChunkedAt(m, i + 1)));
    hide Turns, DispatchValue, ValueByte;
  }

  lemma {:induction false} ChunkedWalk(m: Parser, n: nat)
    requires m.errno.OK? && n <= 6
    ensures Plods(ChunkedAt(m, 0), "chunked"[1..n + 1])
    ensures WalkTo(ChunkedAt(m, 0), "chunked"[1..n + 1]) == ChunkedAt(m, n)
  {
    hide Turns, Dispatch;
    if n == 0 {
      WalkNothing(ChunkedAt(m, 0));
      assert "chunked"[1..1] == "";
    } else {
      ChunkedWalk(m, n - 1);
      ChunkedTurns(m, n - 1);
      WalkStep(ChunkedAt(m, 0), "chunked"[1..n], "chunked"[n], ChunkedAt(m, n));
      assert "chunked"[1..n] + ["chunked"[n]] == "chunked"[1..n + 1];
    }
  }

  lemma ChunkedTracks(q: Parser, m: Parser)
    requires m == q.(state := HeaderValueDiscardWs, headerState := TransferEncoding, index := m.index)
    ensures ValueStart(m, 'c') == Marked(ChunkedAt(m, 0))
    ensures Tracks(q, LineEnd(ChunkedAt(m, 6)), None, true)
  {
  }

  lemma ChunkedHeaderTracks(q: Parser, h: Header)
    requires q.errno.OK? && IsChunkedHeader(h)
    ensures ValuePlods(NameRead(q, h.name), h.value) && Tracks(q, LineRead(q, h), None, true)
    ensures ValueRead(NameRead(q, h.name), h.value).state.HeaderValue? && IsValueText(h.value)
  {
    hide Plods, WalkTo, NameRead, LineEnd, Tracks, Spelled, Shape, ValueStart;
    var m := NameRead(q, h.name);
    NameReadIs(q, h.name);
    ShapeMeans(Spelled(h.name));
    ChunkedTracks(q, m);
    MarkedIs(ChunkedAt(m, 0));
    ChunkedWalk(m, 6);
    assert "chunked"[1..7] == "chunked"[1..];
  }

  // ---------------------------------------------------------------- the whole section

  lemma TracksTwice(a: Parser, b: Parser, c: Parser, len: Option<nat>, chunked: bool, len': Option<nat>, chunked': bool)
    requires Tracks(a, b, len, chunked) && Tracks(b, c, len', chunked')
    ensures Tracks(a, c, if len'.Some? then len' else len, chunked || chunked')
  {
  }

  lemma SaysChunkedSnoc(front: seq<Header>, h: Header)
    ensures SaysChunked(front + [h]) <==> SaysChunked(front) || IsChunkedHeader(h)
  {
    hide IsChunkedHeader;
    if SaysChunked(front) {
      var i :| 0 <= i < |front| && IsChunkedHeader(front[i]);
      assert IsChunkedHeader((front + [h])[i]);
    }
    if IsChunkedHeader(h) { assert IsChunkedHeader((front + [h])[|front|]); }
  }

  /** One more header. */
  lemma ReadOneMore(sc: Scan, q: Parser, out: seq<Event>, h: Header) returns (r: Parser)
    requires AtLine(sc, q, out) && q.errno.OK?
    requires IsQuietHeader(h) || IsChunkedHeader(h) || (IsLengthHeader(h) && !q.flags.contentLength)
    ensures AtLine(ScanAll(sc, PrintHeader(h)), r, out + [Data(Field, h.name), Data(Value, h.value)])
    ensures r.errno.OK? && Tracks(q, r, LengthOf(h), IsChunkedHeader(h))
  {
    r := LineRead(q, h);
    SortsDiffer(h);
    hide ScanAll, AtLine, ValuePlods, ValueRead, LineRead, NameRead, IsValueText, Spelled, Decimal;
    if IsQuietHeader(h) {
      QuietHeaderTracks(q, h);
    } else if IsChunkedHeader(h) {
      ChunkedHeaderTracks(q, h);
    } else {
      LengthHeaderTracks(q, h);
    }
    ReadHeader(sc, q, out, h);
  }

  lemma SortsDiffer(h: Header)
    ensures IsQuietHeader(h) ==> !IsChunkedHeader(h) && !IsLengthHeader(h)
    ensures IsChunkedHeader(h) ==> !IsLengthHeader(h)
    ensures IsQuietHeader(h) || IsChunkedHeader(h) || IsLengthHeader(h) ==> h.name != ""
  {
    assert "content-length"[0] != "transfer-encoding"[0];
  }

  /** A printed header section is read back name by name and value by value. */
  lemma {:induction false} ReadHeaders(sc: Scan, q: Parser, out: seq<Event>, hs: seq<Header>) returns (r: Parser)
    requires At(sc, q, Nothing, out) && q.state.HeaderFieldStart? && !q.flags.contentLength && IsSection(hs)
    ensures AtLine(ScanAll(sc, PrintHeaders(hs)), r, out + HeaderTrace(hs))
    ensures r.errno.OK? && Tracks(q, r, Length(hs), SaysChunked(hs))
  {
    hide ScanAll, IsQuietHeader, IsChunkedHeader, LengthOf, IsLengthHeader, PrintHeader, Tracks, SaysChunked, AtLine,
      At;
    assert q.errno.OK? by { AtOk(sc, q, Nothing, out); }
    if hs == [] {
      r := q;
      NoHeaders(sc, q, out);
      assert out + [] == out;
      assert ScanAll(sc, "") == sc by { ScanNothing(sc); }
    } else {
      var front, h := hs[..|hs| - 1], hs[|hs| - 1];
      assert hs == front + [h];
      var m := ReadHeaders(sc, q, out, front);
      TracksFlag(q, m, Length(front), SaysChunked(front));
      r := ReadOneMore(ScanAll(sc, PrintHeaders(front)), m, out + HeaderTrace(front), h);
      ScanAllConcat(sc, PrintHeaders(front), PrintHeader(h));
      assert out + HeaderTrace(front) + [Data(Field, h.name), Data(Value, h.value)] == out + HeaderTrace(hs);
      SaysChunkedSnoc(front, h);
      TracksTwice(q, m, r, Length(front), SaysChunked(front), LengthOf(h), IsChunkedHeader(h));
    }
  }

  lemma NoHeaders(sc: Scan, q: Parser, out: seq<Event>)
    requires At(sc, q, Nothing, out) && q.state.HeaderFieldStart?
    ensures AtLine(sc, q, out) && Tracks(q, q, None, false) && !SaysChunked([])
  {
    hide At;
  }

  lemma TracksFlag(q: Parser, r: Parser, length: Option<nat>, chunked: bool)
    requires Tracks(q, r, length, chunked)
    ensures r.flags.contentLength == (q.flags.contentLength || length.Some?)
  {
  }

  lemma ScanNothing(sc: Scan)
    ensures ScanAll(sc, "") == sc
  {
    hide ByteStep;
  }

  // ---------------------------------------------------------------- sections of known length

  predicate AllQuiet(hs: seq<Header>) { forall i | 0 <= i < |hs| :: IsQuietHeader(hs[i]) }

  lemma {:induction false} QuietSection(hs: seq<Header>)
    requires AllQuiet(hs)
    ensures IsSection(hs) && Length(hs).None? && !SaysChunked(hs)
  {
    hide IsQuietHeader, IsChunkedHeader, IsLengthHeader, Decimal;
    if hs != [] {
      var front, h := hs[..|hs| - 1], hs[|hs| - 1];
      assert hs == front + [h];
      QuietSection(front);
      SaysChunkedSnoc(front, h);
      SortsDiffer(h);
    }
  }

  lemma {:induction false} LengthSection(hs: seq<Header>, i: nat)
    requires i < |hs| && IsLengthHeader(hs[i])
    requires forall k | 0 <= k < |hs| && k != i :: IsQuietHeader(hs[k])
    ensures IsSection(hs) && Length(hs) == Some(Decimal(hs[i].value)) && !SaysChunked(hs)
  {
    hide IsQuietHeader, IsChunkedHeader, Decimal;
    var front, h := hs[..|hs| - 1], hs[|hs| - 1];
    assert hs == front + [h];
    if i == |front| {
      assert AllQuiet(front);
      QuietSection(front);
    } else {
      LengthSection(front, i);
    }
    SaysChunkedSnoc(front, h);
    SortsDiffer(h);
  }

  lemma {:induction false} SpelledAt(s: string, i: nat)
    requires i < |s|
    ensures Spelled(s)[i] == Token(s[i])
  {
    if i < |s| - 1 { SpelledAt(s[..|s| - 1], i); }
  }

  lemma ContentLengthName()
    ensures IsName("Content-Length") && Spelled("Content-Length") == "content-length"
  {
    var s := "Content-Length";
    forall i | 0 <= i < |s| ensures Spelled(s)[i] == "content-length"[i] { SpelledAt(s, i); }
  }

  lemma TransferEncodingName()
    ensures IsName("Transfer-Encoding") && Spelled("Transfer-Encoding") == "transfer-encoding"
  {
    var s := "Transfer-Encoding";
    forall i | 0 <= i < |s| ensures Spelled(s)[i] == "transfer-encoding"[i] { SpelledAt(s, i); }
  }

  /** A section that announces chunks. */
  lemma {:induction false} ChunkedSection(hs: seq<Header>, i: nat)
    requires i < |hs| && IsChunkedHeader(hs[i])
    requires forall k | 0 <= k < |hs| && k != i :: IsQuietHeader(hs[k])
    ensures IsSection(hs) && Length(hs).None? && SaysChunked(hs)
  {
    hide IsQuietHeader, IsChunkedHeader, IsLengthHeader, Decimal;
    var front, h := hs[..|hs| - 1], hs[|hs| - 1];
    assert hs == front + [h];
    if i == |front| {
      assert AllQuiet(front);
      QuietSection(front);
    } else {
      ChunkedSection(front, i);
    }
    SaysChunkedSnoc(front, h);
    SortsDiffer(h);
  }
}
