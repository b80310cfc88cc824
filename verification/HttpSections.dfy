/** Header sections with any number of Connection and Upgrade headers: what the parser knows
    about the message when they have been read. */
module HttpSections {
  import opened HttpTypes
  import opened HttpAutomaton
  import opened HttpScan
  import opened HttpReads
  import opened HttpNames
  import opened HttpValues
  import opened HttpHeaders
  import opened HttpConnection

  /** A header with its value, or a Connection header with the elements of its list. */
  datatype Line = Plain(header: Header) | List(name: string, items: seq<Item>)

  function HeaderOf(line: Line): Header {
    match line
    case Plain(h) => h
    case List(name, items) => Header(name, ListText(items))
  }

  function HeadersOf(lines: seq<Line>): (hs: seq<Header>)
    ensures |hs| == |lines|
  {
    if lines == [] then [] else HeadersOf(lines[..|lines| - 1]) + [HeaderOf(lines[|lines| - 1])]
  }

  predicate IsListName(name: string) {
    IsName(name) && (Spelled(name) == "connection" || Spelled(name) == "proxy-connection")
  }

  predicate IsList(line: Line) {
    line.List? && IsListName(line.name) && line.items != [] && AreTokens(line.items) && line.items[0].before == 0
  }

  predicate IsUpgradeHeader(h: Header) { IsName(h.name) && Spelled(h.name) == "upgrade" && IsValueText(h.value) }

  /** A header that the parser reports and does nothing else about. */
  predicate IsOtherHeader(h: Header) { IsQuietHeader(h) && !IsListName(h.name) }

  predicate IsLine(line: Line) {
    IsList(line) ||
    (line.Plain? && var h := line.header;
     IsOtherHeader(h) || IsUpgradeHeader(h) || IsChunkedHeader(h) || IsLengthHeader(h))
  }

  /** Lines with at most one announced length. */
  predicate AreLines(lines: seq<Line>) {
    lines == [] ||
    (AreLines(lines[..|lines| - 1]) && IsLine(lines[|lines| - 1]) &&
     (IsLengthHeader(HeaderOf(lines[|lines| - 1])) ==> Length(HeadersOf(lines[..|lines| - 1])).None?))
  }

  // ---------------------------------------------------------------- what the lines say

  predicate AsksIn(line: Line) { line.Plain? && Spelled(line.header.name) == "upgrade" && line.header.value != "" }

  /** Some Upgrade header names a protocol. */
  predicate Asks(lines: seq<Line>) { exists i :: 0 <= i < |lines| && AsksIn(lines[i]) }

  predicate SaysIn(line: Line, key: string) { line.List? && AreTokens(line.items) && Mentions(line.items, key) }

  /** Some Connection header has this element. */
  predicate Says(lines: seq<Line>, key: string) { exists i :: 0 <= i < |lines| && SaysIn(lines[i], key) }

  function FlagsIn(lines: seq<Line>): Flags {
    NO_FLAGS.(chunked := SaysChunked(HeadersOf(lines)), keepAlive := Says(lines, "keep-alive"),
              close := Says(lines, "close"), connectionUpgrade := Says(lines, "upgrade"), upgrade := Asks(lines),
              contentLength := Length(HeadersOf(lines)).Some?)
  }

  /** What one line adds. */
  function Noted(f: Flags, line: Line): Flags
    requires IsLine(line)
  {
    match line
    case List(_, items) =>
      Flagged(f, Mentions(items, "keep-alive"), Mentions(items, "close"), Mentions(items, "upgrade"))
    case Plain(h) =>
      if IsChunkedHeader(h) then f.(chunked := true)
      else if IsLengthHeader(h) then f.(contentLength := true)
      else if IsUpgradeHeader(h) && h.value != "" then f.(upgrade := true)
      else f
  }

  lemma AsksSnoc(front: seq<Line>, line: Line)
    ensures Asks(front + [line]) <==> Asks(front) || AsksIn(line)
  {
    hide AsksIn;
    var lines := front + [line];
    if i :| 0 <= i < |front| && AsksIn(front[i]) { assert AsksIn(lines[i]); }
    if AsksIn(line) { assert AsksIn(lines[|front|]); }
  }

  lemma SaysSnoc(front: seq<Line>, line: Line, key: string)
    ensures Says(front + [line], key) <==> Says(front, key) || SaysIn(line, key)
  {
    hide SaysIn;
    var lines := front + [line];
    if i :| 0 <= i < |front| && SaysIn(front[i], key) { assert SaysIn(lines[i], key); }
    if SaysIn(line, key) { assert SaysIn(lines[|front|], key); }
  }

  lemma HeadersSnoc(front: seq<Line>, line: Line)
    ensures HeadersOf(front + [line]) == HeadersOf(front) + [HeaderOf(line)]
  {
    assert (front + [line])[..|front|] == front;
  }

  lemma LengthSnoc(hs: seq<Header>, h: Header)
    ensures Length(hs + [h]) == if IsLengthHeader(h) then LengthOf(h) else Length(hs)
  {
    assert (hs + [h])[..|hs|] == hs;
  }

  /** No header is of two sorts. */
  lemma SortsOfLines(line: Line)
    requires IsLine(line)
    ensures line.List? ==> !IsChunkedHeader(HeaderOf(line)) && !IsLengthHeader(HeaderOf(line))
    ensures AsksIn(line) <==>
            line.Plain? && IsUpgradeHeader(line.header) && line.header.value != "" && !IsChunkedHeader(line.header) &&
            !IsLengthHeader(line.header)
    ensures line.Plain? && IsChunkedHeader(line.header) ==> !IsLengthHeader(line.header)
  {
    hide IsValueText, AreTokens, ListText, Decimal, Spelled;
    assert "content-length"[0] == 'c' && "transfer-encoding"[0] == 't' && "upgrade"[0] == 'u' &&
           "connection"[0] == 'c' && "proxy-connection"[0] == 'p' && |"content-length"| == 14 && |"connection"| == 10;
  }

  lemma FlagsSnoc(front: seq<Line>, line: Line)
    requires IsLine(line)
    ensures FlagsIn(front + [line]) == Noted(FlagsIn(front), line)
  {
    hide Asks, Says, AsksIn, IsLine, Length, SaysChunked, HeadersOf, HeaderOf, Mentions, IsChunkedHeader,
      IsLengthHeader,
      IsUpgradeHeader;
    AsksSnoc(front, line);
    SaysSnoc(front, line, "keep-alive");
    SaysSnoc(front, line, "close");
    SaysSnoc(front, line, "upgrade");
    HeadersSnoc(front, line);
    SaysChunkedSnoc(HeadersOf(front), HeaderOf(line));
    LengthSnoc(HeadersOf(front), HeaderOf(line));
    SortsOfLines(line);
    LineKind(line);
  }

  lemma LineKind(line: Line)
    requires IsLine(line)
    ensures line.List? ==> AreTokens(line.items)
    ensures line.Plain? ==> HeaderOf(line) == line.header
    ensures line.Plain? && IsLengthHeader(line.header) ==> LengthOf(line.header).Some?
  {
  }

  lemma FlagsNone()
    ensures FlagsIn([]) == NO_FLAGS
  {
  }

  // ---------------------------------------------------------------- reading a line

  /** The parser at the start of the next line, with these flags and this length. */
  predicate Follows(q: Parser, r: Parser, f: Flags, length: Option<nat>) {
    r == q.(state := HeaderFieldStart, headerState := r.headerState, index := r.index, nread := r.nread, flags := f,
            contentLength := if length.Some? then length.value else q.contentLength)
  }

  /** Nothing is looked for in the rest of the value. */
  lemma {:induction false} GeneralWalk(q: Parser, s: string)
    requires q.state.HeaderValue? && q.headerState.General? && q.errno.OK? && IsPlainText(s)
    ensures Plods(q, s) && WalkTo(q, s) == q
  {
    hide Turns, Dispatch, IsHeaderChar;
    if s == "" {
      WalkNothing(q);
    } else {
      var front, ch := s[..|s| - 1], s[|s| - 1];
      assert s == front + [ch];
      GeneralWalk(q, front);
      assert DispatchValue(q, ch, false) == Go(q);
      ValueTurns(q, ch, Go(q));
      WalkStep(q, front, ch, q);
    }
  }

  lemma RestIsPlain(v: string)
    requires IsValueText(v) && v != ""
    ensures IsPlainText(v[1..])
  {
    hide IsHeaderChar;
    forall i | 0 <= i < |v[1..]| ensures IsHeaderChar(v[1..][i]) && !IsCrLf(v[1..][i]) { assert v[1..][i] == v[i + 1]; }
  }

  /** The value of a header that is not looked into. */
  lemma GeneralValue(m: Parser, v: string, f: Flags)
    requires v != "" && IsValueText(v) && m.errno.OK?
    requires ValueStart(m, v[0]).p == m.(state := HeaderValue, index := 0, headerState := General, flags := f)
    ensures ValuePlods(m, v) && ValueRead(m, v).state.HeaderValue?
    ensures LineEnd(ValueRead(m, v)) ==
            m.(state := HeaderFieldStart, index := 0, headerState := General, flags := f)
  {
    hide ValueStart, Plods, WalkTo, IsValueText;
    RestIsPlain(v);
    GeneralWalk(ValueStart(m, v[0]).p, v[1..]);
  }

  lemma OtherStart(m: Parser, ch: char)
    requires QuietShape(m.headerState) && !m.headerState.Connection?
    ensures ValueStart(m, ch).p == m.(state := HeaderValue, index := 0, headerState := General)
    ensures LineEnd(m) == m.(state := HeaderFieldStart)
  {
    hide Lower;
  }

  lemma OtherLine(q: Parser, h: Header)
    requires q.errno.OK? && IsOtherHeader(h)
    ensures ValuePlods(NameRead(q, h.name), h.value) && Follows(q, LineRead(q, h), q.flags, None)
    ensures h.value != "" ==> ValueRead(NameRead(q, h.name), h.value).state.HeaderValue?
  {
    hide ValueStart, NameRead, LineEnd, IsValueText, Spelled, Shape, Plods, WalkTo;
    var m := NameRead(q, h.name);
    NameReadIs(q, h.name);
    QuietNameShape(h.name);
    ShapeMeans(Spelled(h.name));
    if h.value == "" {
      OtherStart(m, ' ');
    } else {
      OtherStart(m, h.value[0]);
      GeneralValue(m, h.value, m.flags);
    }
  }

  lemma UpgradeStart(m: Parser, ch: char)
    requires m.headerState.Upgrade?
    ensures ValueStart(m, ch).p ==
            m.(state := HeaderValue, index := 0, headerState := General, flags := m.flags.(upgrade := true))
    ensures LineEnd(m) == m.(state := HeaderFieldStart)
  {
  }

  lemma UpgradeLine(q: Parser, h: Header)
    requires q.errno.OK? && IsUpgradeHeader(h)
    ensures ValuePlods(NameRead(q, h.name), h.value)
    ensures Follows(q, LineRead(q, h), if h.value != "" then q.flags.(upgrade := true) else q.flags, None)
    ensures h.value != "" ==> ValueRead(NameRead(q, h.name), h.value).state.HeaderValue?
  {
    hide ValueStart, NameRead, LineEnd, IsValueText, Spelled, Shape, Plods, WalkTo;
    var m := NameRead(q, h.name);
    NameReadIs(q, h.name);
    ShapeMeans(Spelled(h.name));
    if h.value == "" {
      UpgradeStart(m, ' ');
    } else {
      UpgradeStart(m, h.value[0]);
      GeneralValue(m, h.value, m.flags.(upgrade := true));
    }
  }

  lemma ChunkedEnd(m: Parser)
    ensures LineEnd(ChunkedAt(m, 6)) ==
            m.(state := HeaderFieldStart, index := 6, headerState := TransferEncodingChunked,
               flags := m.flags.(chunked := true))
  {
  }

  lemma ChunkedLine(q: Parser, h: Header)
    requires q.errno.OK? && IsChunkedHeader(h)
    ensures ValuePlods(NameRead(q, h.name), h.value) && IsValueText(h.value)
    ensures Follows(q, LineRead(q, h), q.flags.(chunked := true), None)
    ensures ValueRead(NameRead(q, h.name), h.value).state.HeaderValue?
  {
    hide Plods, WalkTo, NameRead, LineEnd, Tracks, Spelled, Shape, ValueStart, IsValueText;
    var m := NameRead(q, h.name);
    ChunkedHeaderTracks(q, h);
    NameReadIs(q, h.name);
    ShapeMeans(Spelled(h.name));
    ChunkedTracks(q, m);
    MarkedIs(ChunkedAt(m, 0));
    ChunkedWalk(m, 6);
    assert "chunked"[1..7] == "chunked"[1..];
    ChunkedEnd(m);
  }

  lemma LengthEnd(m: Parser, n: nat)
    requires m.headerState.ContentLength?
    ensures LineEnd(LengthSet(m, n)) ==
            m.(state := HeaderFieldStart, index := 0, flags := m.flags.(contentLength := true), contentLength := n)
  {
  }

  lemma LengthLine(q: Parser, h: Header)
    requires q.errno.OK? && !q.flags.contentLength && IsLengthHeader(h)
    ensures ValuePlods(NameRead(q, h.name), h.value) && IsValueText(h.value)
    ensures Follows(q, LineRead(q, h), q.flags.(contentLength := true), Some(Decimal(h.value)))
    ensures ValueRead(NameRead(q, h.name), h.value).state.HeaderValue?
  {
    hide ValuePlods, ValueRead, NameRead, LineEnd, Tracks, Spelled, Shape, Decimal, LengthSet, IsValueText;
    var m := NameRead(q, h.name);
    LengthHeaderTracks(q, h);
    NameReadIs(q, h.name);
    ShapeMeans(Spelled(h.name));
    LengthValue(m, h.value);
    LengthEnd(m, Decimal(h.value));
  }

  lemma ListLine(q: Parser, line: Line)
    requires q.errno.OK? && IsList(line)
    ensures var h := HeaderOf(line);
            ValuePlods(NameRead(q, h.name), h.value) && IsValueText(h.value) &&
            Follows(q, LineRead(q, h), Noted(q.flags, line), None) &&
            (h.value != "" ==> ValueRead(NameRead(q, h.name), h.value).state.HeaderValue?)
  {
    hide ValuePlods, ValueRead, NameRead, LineEnd, Spelled, Shape, ListText, Mentions, AreTokens, IsValueText;
    var h := HeaderOf(line);
    var m := NameRead(q, h.name);
    NameReadIs(q, h.name);
    ShapeMeans(Spelled(h.name));
    ConnectionList(m, line.items);
    QuietValue(m, h.value);
    LineEndStarts(ValueRead(m, h.value));
  }

  /** The parser after one line. */
  lemma OneLine(q: Parser, line: Line)
    requires q.errno.OK? && IsLine(line) && (IsLengthHeader(HeaderOf(line)) ==> !q.flags.contentLength)
    ensures var h := HeaderOf(line);
            IsName(h.name) && IsValueText(h.value) && ValuePlods(NameRead(q, h.name), h.value) &&
            (h.value != "" ==> ValueRead(NameRead(q, h.name), h.value).state.HeaderValue?) &&
            Follows(q, LineRead(q, h), Noted(q.flags, line), LengthOf(h))
  {
    hide ValuePlods, ValueRead, NameRead, LineRead, Spelled, ListText, Mentions, AreTokens, IsValueText, Decimal,
      Follows;
    SortsOfLines(line);
    if IsList(line) {
      ListLine(q, line);
    } else {
      var h := line.header;
      SortsDiffer(h);
      if IsChunkedHeader(h) { ChunkedLine(q, h); }
      else if IsLengthHeader(h) { LengthLine(q, h); }
      else if IsUpgradeHeader(h) { UpgradeLine(q, h); }
      else { OtherLine(q, h); }
    }
  }

  lemma FollowsTwice(a: Parser, b: Parser, c: Parser, f: Flags, len: Option<nat>, g: Flags, len': Option<nat>)
    requires Follows(a, b, f, len) && Follows(b, c, g, len')
    ensures Follows(a, c, g, if len'.Some? then len' else len)
  {
  }

  /** One more line. */
  lemma ReadLine(sc: Scan, q: Parser, out: seq<Event>, line: Line) returns (r: Parser)
    requires AtLine(sc, q, out) && q.errno.OK? && IsLine(line)
    requires IsLengthHeader(HeaderOf(line)) ==> !q.flags.contentLength
    ensures var h := HeaderOf(line);
            AtLine(ScanAll(sc, PrintHeader(h)), r, out + [Data(Field, h.name), Data(Value, h.value)]) &&
            r.errno.OK? && Follows(q, r, Noted(q.flags, line), LengthOf(h))
  {
    hide ScanAll, IsLine, IsLengthHeader, LengthOf, PrintHeader, AtLine, HeaderOf, Noted, LineRead, ValuePlods,
      ValueRead, NameRead;
    var h := HeaderOf(line);
    OneLine(q, line);
    r := LineRead(q, h);
    ReadHeader(sc, q, out, h);
  }

  lemma NoLines(sc: Scan, q: Parser, out: seq<Event>)
    requires At(sc, q, Nothing, out) && q.state.HeaderFieldStart? && q.flags == NO_FLAGS
    ensures AtLine(ScanAll(sc, PrintHeaders(HeadersOf([]))), q, out + HeaderTrace(HeadersOf([])))
    ensures q.errno.OK? && Follows(q, q, FlagsIn([]), Length(HeadersOf([])))
  {
    hide ScanAll, At, Asks, Says, SaysChunked;
    AtOk(sc, q, Nothing, out);
    NoHeaders(sc, q, out);
    FlagsNone();
    assert out + [] == out;
    ScanNothing(sc);
  }

  /** Every line is read, name by name and value by value, and the parser knows of the message
      exactly what the lines say. */
  lemma {:induction false} ReadLines(sc: Scan, q: Parser, out: seq<Event>, lines: seq<Line>) returns (r: Parser)
    requires At(sc, q, Nothing, out) && q.state.HeaderFieldStart? && q.flags == NO_FLAGS && AreLines(lines)
    ensures AtLine(ScanAll(sc, PrintHeaders(HeadersOf(lines))), r, out + HeaderTrace(HeadersOf(lines)))
    ensures r.errno.OK? && Follows(q, r, FlagsIn(lines), Length(HeadersOf(lines)))
  {
    hide ScanAll, IsLine, IsLengthHeader, LengthOf, PrintHeader, SaysChunked, AtLine, At, HeaderOf, Asks, Says,
      Noted, FlagsIn, Length, HeaderTrace, PrintHeaders, HeadersOf;
    if lines == [] {
      r := q;
      NoLines(sc, q, out);
    } else {
      var front, line := lines[..|lines| - 1], lines[|lines| - 1];
      assert lines == front + [line];
      var hs, h := HeadersOf(front), HeaderOf(line);
      var m := ReadLines(sc, q, out, front);
      LengthFlag(front);
      r := ReadLine(ScanAll(sc, PrintHeaders(hs)), m, out + HeaderTrace(hs), line);
      HeadersSnoc(front, line);
      PrintSnoc(hs, h, out);
      ScanAllConcat(sc, PrintHeaders(hs), PrintHeader(h));
      FlagsSnoc(front, line);
      LengthSnoc(hs, h);
      LengthOrNot(h);
      FollowsTwice(q, m, r, FlagsIn(front), Length(hs), Noted(m.flags, line), LengthOf(h));
    }
  }

  lemma PrintSnoc(hs: seq<Header>, h: Header, out: seq<Event>)
    ensures PrintHeaders(hs + [h]) == PrintHeaders(hs) + PrintHeader(h)
    ensures out + HeaderTrace(hs + [h]) == out + HeaderTrace(hs) + [Data(Field, h.name), Data(Value, h.value)]
  {
    hide PrintHeader;
    assert (hs + [h])[..|hs|] == hs;
  }

  lemma LengthFlag(lines: seq<Line>)
    ensures FlagsIn(lines).contentLength == Length(HeadersOf(lines)).Some?
  {
  }

  lemma LengthOrNot(h: Header)
    ensures IsLengthHeader(h) <==> LengthOf(h).Some?
  {
  }
}
