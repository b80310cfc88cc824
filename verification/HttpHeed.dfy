/** The parser and the course of its callbacks: what one trip does to the course, and that a
    Content-Length is what the parser counts by. */
module HttpHeed {
  import opened HttpTypes
  import opened HttpAutomaton
  import opened HttpScan
  import opened HttpRuns
  import opened HttpInvariant
  import opened HttpPieces
  import opened HttpFragments
  import opened HttpLength
  import opened HttpReads
  import opened HttpNames
  import opened HttpValues
  import opened HttpResponses
  import opened HttpLimit
  import opened HttpEndToEnd
  import opened HttpCourse

  // ---------------------------------------------------------------- the number in a Content-Length

  /** The number that the parser reads: it passes over blanks. */
  function Number(v: string): nat {
    if v == "" then 0
    else if IsNum(v[|v| - 1]) then Number(v[..|v| - 1]) * 10 + Digit(v[|v| - 1])
    else Number(v[..|v| - 1])
  }

  predicate IsLength(v: string, n: nat) {
    v != "" && IsNum(v[0]) && (forall i | 0 <= i < |v| :: IsNum(v[i]) || v[i] == ' ') && Number(v) == n
  }

  lemma LengthFirst(ch: char)
    requires IsNum(ch)
    ensures IsLength([ch], Digit(ch))
  {
    assert [ch][..0] == "" && Number("") == 0;
  }

  lemma LengthNext(v: string, n: nat, ch: char)
    requires IsLength(v, n) && (IsNum(ch) || ch == ' ')
    ensures IsLength(v + [ch], if IsNum(ch) then n * 10 + Digit(ch) else n)
  {
    assert (v + [ch])[..|v|] == v;
  }

  lemma {:induction false} NumberIsDecimal(v: string)
    requires AllDigits(v)
    ensures Number(v) == Decimal(v)
  {
    if v != "" {
      AllDigitsSplit(v);
      NumberIsDecimal(v[..|v| - 1]);
    }
    hide Digit;
  }

  // ---------------------------------------------------------------- the headers and the parser

  predicate IsLineState(s: State) {
    IsStart(s) || s.ReqMethod? || s.ReqSpacesBeforeUrl? || IsUrlState(s) || IsRequestVersion(s) || IsResponseLine(s)
  }

  predicate BeforeValue(s: State) {
    s.HeaderValueDiscardWs? || s.HeaderValueDiscardWsAlmostDone? || s.HeaderValueDiscardLws?
  }

  predicate WithinValue(s: State) { s.HeaderValue? || s.HeaderAlmostDone? || s.HeaderValueLws? || s.HeaderValueStart? }

  /** Where a state stands in the lines before the body. */
  datatype Phase = FirstLine | InName | BeforeText | InText | BetweenLines

  function PhaseOf(s: State): Phase {
    if IsLineState(s) then FirstLine
    else if s.HeaderField? then InName
    else if BeforeValue(s) then BeforeText
    else if WithinValue(s) then InText
    else BetweenLines
  }

  lemma Phases(s: State)
    ensures s.HeaderFieldStart? || s.HeadersAlmostDone? ==> PhaseOf(s).BetweenLines?
    ensures s.HeaderField? ==> PhaseOf(s).InName?
    ensures BeforeValue(s) ==> PhaseOf(s).BeforeText?
    ensures WithinValue(s) ==> PhaseOf(s).InText?
    ensures s.HeaderFieldStart? || s.HeadersAlmostDone? || s.HeaderField? || BeforeValue(s) || WithinValue(s) ==>
              !NearBody(s) || s.HeadersAlmostDone?
  {
  }

  function Last(texts: seq<string>): string { if texts == [] then "" else texts[|texts| - 1] }

  predicate Paired(c: Course) { |c.fields| == |c.values| && !c.concatField }

  /** A name has been begun. */
  predicate Naming(c: Course) {
    |c.fields| == |c.values| + 1 && c.concatField && !c.concatValue && IsName(Last(c.fields))
  }

  /** The first Content-Length value so far is the one the parser has counted. */
  predicate Lengthy(c: Course, p: Parser)
    requires |c.values| <= |c.fields|
  {
    var i := FindName(c.fields[..|c.values|], 0);
    i < |c.values| && c.values[i] != "" ==> p.flags.contentLength && IsLength(c.values[i], p.contentLength)
  }

  /** A value has been begun. */
  predicate Valuing(c: Course, p: Parser) {
    |c.fields| == |c.values| > 0 && c.concatValue && !c.concatField && Last(c.values) != "" &&
    (p.headerState.ContentLength? <==> SameName(Last(c.fields), CONTENT_LENGTH)) &&
    (p.headerState.ContentLength? ==>
       p.flags.contentLength &&
       var i := FindName(c.fields, 0); i < |c.fields| && (i == |c.fields| - 1 || c.values[i] == ""))
  }

  /** Before the first headers are complete: the lists of names and values fit the state. */
  predicate Lined(c: Course, p: Parser) {
    |c.values| <= |c.fields| && Lengthy(c, p) &&
    match PhaseOf(p.state)
    case FirstLine => c.fields == [] && c.values == [] && !c.concatField && !c.concatValue
    case InName => Naming(c) && Named(p, Spelled(Last(c.fields)))
    case BeforeText => Naming(c) && p.headerState == Shape(Spelled(Last(c.fields)))
    case InText => Valuing(c, p)
    case BetweenLines => Paired(c)
  }

  /** A Content-Length header that is not empty. */
  predicate Numbered(c: Course) { c.text.Some? && c.text.value != "" }

  /** What holds from the end of the headers on. */
  predicate Lengths(c: Course) {
    (c.chunked ==> !Numbered(c)) && (c.chunked || c.length == ULLONG_MAX || |c.body| <= c.length) &&
    (Numbered(c) ==> IsLength(c.text.value, c.length)) && (c.body != "" ==> c.bodyText == c.text)
  }

  /** The body and the state. */
  predicate Bodied(c: Course, p: Parser) {
    var s := p.state;
    (s.HeadersDone? ==>
       c.body == "" && !c.chunked && p.contentLength == c.length && (Numbered(c) ==> !p.flags.chunked)) &&
    (s.BodyIdentity? ==> !c.chunked && c.length == |c.body| + p.contentLength) &&
    (s.BodyIdentityEof? ==> c.length == ULLONG_MAX) &&
    (IsChunkState(s) ==> !Numbered(c) && (c.chunked || c.body == "")) &&
    (s.ChunkData? || s.ChunkDataAlmostDone? || s.ChunkDataDone? ==> c.chunked)
  }

  /** The course of a run up to its second header section, and the parser. */
  predicate Counted(c: Course, p: Parser) {
    c.heads <= 1 ==>
      if c.heads == 0 then c.body == "" && !c.chunked && (p.errno.OK? ==> InHead(p) && Lined(c, p))
      else Lengths(c) && (p.errno.OK? ==> Bodied(c, p))
  }

  // ---------------------------------------------------------------- one trip

  /** The course after a trip, and after the byte when the trip ends it. */
  function Heed(c: Course, open: Mark, o: Outcome, ch: char): Course {
    var marked := if open.NoMark? then o.mark else open;
    var c1 := if open.NoMark? && o.mark.MarkOf? then FollowData(c, o.mark.kind, "") else c;
    var c2 := if o.flush.Through? && marked == MarkOf(o.flush.kind) then FollowData(c1, o.flush.kind, [ch]) else c1;
    var c3 := FollowAll(c2, o.events);
    var after := OpenAfter(open, o);
    if !o.ctl.Again? && o.p.errno.OK? && after.MarkOf? then FollowData(c3, after.kind, [ch]) else c3
  }

  lemma FollowOne(c: Course, e: Event)
    ensures FollowAll(c, [e]) == Follow(c, e) && FollowAll(c, []) == c
  {
    assert [e][..0] == [];
    hide Follow;
  }

  predicate IsLineMark(m: Mark) { m.MarkOf? ==> m.kind.Url? || m.kind.Status? }

  /** A trip in the first line of a message. */
  predicate LineTrip(o: Outcome) {
    (o.events == [] || o.events == [MessageBegin]) && IsLineMark(o.mark) && !o.flush.Through? &&
    (o.p.errno.OK? ==> PhaseOf(o.p.state).FirstLine? || PhaseOf(o.p.state).BetweenLines?)
  }

  lemma LineStart(p: Parser, ch: char)
    requires IsStart(p.state)
    ensures LineTrip(DispatchStart(p, ch))
  {
    hide Descends, FirstMethod, IsAlpha;
  }

  lemma LineMethod(p: Parser, ch: char)
    requires p.state.ReqMethod?
    ensures LineTrip(DispatchMethod(p, ch))
  {
    hide Descends, KeyChar, SwitchMethod, MethodString, IsAlpha;
  }

  lemma LineUrl(p: Parser, ch: char)
    requires p.state.ReqSpacesBeforeUrl? || IsUrlState(p.state)
    ensures LineTrip(DispatchUrl(p, ch))
  {
    hide Descends, ParseUrlChar;
  }

  lemma LineRequestVersion(p: Parser, ch: char)
    requires IsRequestVersion(p.state)
    ensures LineTrip(DispatchRequestVersion(p, ch))
  {
    hide Descends, Digit;
  }

  lemma LineResponse(p: Parser, ch: char)
    requires IsResponseLine(p.state)
    ensures LineTrip(DispatchResponseLine(p, ch))
  {
    hide Descends, Digit;
  }

  lemma LineTrips(p: Parser, ch: char, skip: bool)
    requires IsLineState(p.state)
    ensures LineTrip(Dispatch(p, ch, skip))
  {
    hide Descends, LineTrip, DispatchStart, DispatchMethod, DispatchUrl, DispatchRequestVersion, DispatchResponseLine,
      DispatchFieldStart, DispatchField, DispatchValue, DispatchValueEdges, DispatchHeadersDone, DispatchChunk,
      DispatchBody;
    var s := p.state;
    if IsStart(s) { LineStart(p, ch); }
    else if s.ReqMethod? { LineMethod(p, ch); }
    else if s.ReqSpacesBeforeUrl? || IsUrlState(s) { LineUrl(p, ch); }
    else if IsRequestVersion(s) { LineRequestVersion(p, ch); }
    else { LineResponse(p, ch); }
  }

  lemma OpenLine(p: Parser, open: Mark)
    requires Looking(p, open) && IsLineState(p.state)
    ensures IsLineMark(open)
  {
    hide Widths, FieldIndex, ValueIndex, MethodString;
  }

  lemma HeedLine(c: Course, open: Mark, o: Outcome, ch: char)
    requires IsLineMark(open) && LineTrip(o)
    ensures Heed(c, open, o, ch) == c
  {
    FollowOne(c, MessageBegin);
    hide FollowAll;
  }

  lemma FitLine(c: Course, p: Parser, open: Mark, o: Outcome, ch: char)
    requires PhaseOf(p.state).FirstLine? && Counted(c, p) && c.heads == 0 && p.errno.OK? && IsLineMark(open) &&
             LineTrip(o) && Plain(p, o)
    ensures Counted(Heed(c, open, o, ch), o.p)
  {
    HeedLine(c, open, o, ch);
    hide Heed, Named, Shape, Spelled, OpenAfter, PhaseOf;
  }

  // ---------------------------------------------------------------- shapes of trips

  lemma HeedNone(c: Course, o: Outcome, ch: char)
    requires o.mark.NoMark? && o.events == []
    ensures Heed(c, NoMark, o, ch) == c
  {
    FollowOne(c, MessageBegin);
    hide FollowAll;
  }

  lemma HeedMark(c: Course, k: DataKind, o: Outcome, ch: char)
    requires o == Outcome(o.p, MarkOf(k), NoFlush, [], Next) && o.p.errno.OK?
    ensures Heed(c, NoMark, o, ch) == FollowData(c, k, [ch])
  {
    FollowOne(FollowData(c, k, ""), MessageBegin);
    FollowTwice(c, k, "", [ch]);
    assert "" + [ch] == [ch];
    hide FollowAll, FollowData;
  }

  lemma HeedOn(c: Course, k: DataKind, o: Outcome, ch: char)
    requires o == Go(o.p) && o.p.errno.OK?
    ensures Heed(c, MarkOf(k), o, ch) == FollowData(c, k, [ch])
  {
    FollowOne(c, MessageBegin);
    hide FollowAll, FollowData;
  }

  lemma HeedFlush(c: Course, k: DataKind, o: Outcome, ch: char)
    requires o.mark.NoMark? && o.flush == UpTo(k) && o.events == []
    ensures Heed(c, MarkOf(k), o, ch) == c
  {
    FollowOne(c, MessageBegin);
    hide FollowAll, FollowData;
  }

  lemma HeedEmpty(c: Course, k: DataKind, o: Outcome, ch: char)
    requires o.mark == MarkOf(k) && o.flush == UpTo(k) && o.events == []
    ensures Heed(c, NoMark, o, ch) == FollowData(c, k, "")
  {
    FollowOne(FollowData(c, k, ""), MessageBegin);
    hide FollowAll, FollowData;
  }

  /** A trip that ends in an error outside the bodies. */
  lemma FitFailed(c: Course, p: Parser, open: Mark, o: Outcome, ch: char)
    requires Counted(c, p) && c.heads == 0 && Plain(p, o) && !IsBody(open) && !o.p.errno.OK?
    ensures Counted(Heed(c, open, o, ch), o.p)
  {
    FollowOne(c, MessageBegin);
    if o.mark.MarkOf? { FollowOne(FollowData(c, o.mark.kind, ""), MessageBegin); }
    if o.flush.Through? {
      FollowOne(FollowData(c, o.flush.kind, [ch]), MessageBegin);
      if o.mark.MarkOf? { FollowOne(FollowData(FollowData(c, o.mark.kind, ""), o.flush.kind, [ch]), MessageBegin); }
    }
    hide FollowAll, Glue, Lined, InHead;
  }

  // ---------------------------------------------------------------- names

  /** The first Content-Length with one more name. */
  lemma FindMore(a: seq<string>, name: string)
    ensures FindName(a + [name], 0) ==
            if FindName(a, 0) < |a| then FindName(a, 0) else if SameName(name, CONTENT_LENGTH) then |a| else |a| + 1
  {
    FindSame(a, a + [name], 0);
    hide SameName;
  }

  lemma NameFirst(ch: char)
    requires Token(ch) != '\0'
    ensures IsName([ch]) && Spelled([ch]) == [Token(ch)] && Shape([Token(ch)]) == FirstHeaderState(Token(ch))
  {
    SpelledSnoc("", ch);
    assert "" + [ch] == [ch];
    ShapeFirst(Token(ch));
    hide Token, Shape;
  }

  lemma NameNext(name: string, ch: char)
    requires IsName(name) && Token(ch) != '\0'
    ensures IsName(name + [ch]) && Spelled(name + [ch]) == Spelled(name) + [Token(ch)]
  {
    SpelledSnoc(name, ch);
    hide Token;
  }

  /** A name at its end is Content-Length exactly when the header state says so. */
  lemma NameDone(name: string)
    requires IsName(name)
    ensures Shape(Spelled(name)).ContentLength? <==> SameName(name, CONTENT_LENGTH)
  {
    NameTokens(name);
    SameNameIs(name, CONTENT_LENGTH);
    ShapeMeans(Spelled(name));
    hide Shape, Spelled, SameName;
  }

  lemma FitHead(c: Course, p: Parser, c': Course, q: Parser)
    requires Counted(c, p) && c.heads == 0 &&
             c' == c.(fields := c'.fields, values := c'.values, concatField := c'.concatField,
                      concatValue := c'.concatValue, closed := c'.closed, good := c'.good)
    requires InHead(q) && Lined(c', q)
    ensures Counted(c', q)
  {
    hide InHead, Lined;
  }

  lemma FitsHead(c: Course, p: Parser)
    requires Counted(c, p) && c.heads == 0 && p.errno.OK?
    ensures InHead(p) && Lined(c, p)
  {
    hide InHead, Lined;
  }

  lemma LengthyKept(c: Course, p: Parser, c': Course, q: Parser)
    requires |c.values| <= |c.fields| && Lengthy(c, p) && c'.values == c.values && |c.values| <= |c'.fields|
    requires c'.fields[..|c.values|] == c.fields[..|c.values|] && q.flags.contentLength == p.flags.contentLength &&
             q.contentLength == p.contentLength
    ensures Lengthy(c', q)
  {
    hide FindName, IsLength;
  }

  lemma LinedName(c: Course, p: Parser, q: Parser, ch: char)
    requires Lined(c, p) && PhaseOf(p.state).BetweenLines? && Token(ch) != '\0'
    requires PhaseOf(q.state).InName? && q.flags == p.flags && q.contentLength == p.contentLength && q.index == 0
    requires q.headerState == FirstHeaderState(Token(ch))
    ensures Lined(FollowData(c, Field, [ch]), q)
  {
    hide Token, Spelled, Shape, Named, Lengthy, IsName, FirstHeaderState, PhaseOf;
    NameFirst(ch);
    NamedFirst(q, Token(ch));
    LengthyKept(c, p, FollowData(c, Field, [ch]), q);
  }

  lemma FieldStartTrip(p: Parser, ch: char)
    requires p.state.HeaderFieldStart? && p.errno.OK? && DispatchFieldStart(p, ch).p.errno.OK?
    ensures var o := DispatchFieldStart(p, ch);
            (InHead(p) ==> InHead(o.p)) && o.p.flags == p.flags && o.p.contentLength == p.contentLength &&
            PhaseOf(p.state).BetweenLines? &&
            if IsCrLf(ch) then o.mark.NoMark? && o.events == [] && PhaseOf(o.p.state).BetweenLines? &&
               o.p.headerState == p.headerState
            else o == Outcome(o.p, MarkOf(Field), NoFlush, [], Next) && Token(ch) != '\0' &&
                 PhaseOf(o.p.state).InName? && o.p.index == 0 &&
                 o.p.headerState == FirstHeaderState(Token(ch))
  {
    Phases(p.state);
    Phases(DispatchFieldStart(p, ch).p.state);
    hide PhaseOf, NearBody, Descends, Token;
  }

  lemma LinedSame(c: Course, p: Parser, q: Parser)
    requires Lined(c, p) && q.flags.contentLength == p.flags.contentLength && q.contentLength == p.contentLength
    requires PhaseOf(q.state) == PhaseOf(p.state) && (PhaseOf(p.state).BetweenLines? || PhaseOf(p.state).BeforeText?)
    requires q.headerState == p.headerState
    ensures Lined(c, q)
  {
    hide PhaseOf, Naming, Spelled, Shape, Named, FindName, IsLength, Last, Paired;
  }

  /** The start of a name. */
  lemma FitFieldStart(c: Course, p: Parser, open: Mark, ch: char)
    requires Counted(c, p) && c.heads == 0 && p.state.HeaderFieldStart? && p.errno.OK? && open.NoMark?
    requires DispatchFieldStart(p, ch).p.errno.OK?
    ensures Counted(Heed(c, open, DispatchFieldStart(p, ch), ch), DispatchFieldStart(p, ch).p)
  {
    hide Counted, Lined, InHead, Heed, DispatchFieldStart, Token, FirstHeaderState, IsCrLf, PhaseOf;
    var o := DispatchFieldStart(p, ch);
    FitsHead(c, p);
    FieldStartTrip(p, ch);
    if IsCrLf(ch) {
      HeedNone(c, o, ch);
      LinedSame(c, p, o.p);
      FitHead(c, p, c, o.p);
    } else {
      HeedMark(c, Field, o, ch);
      LinedName(c, p, o.p, ch);
      FitHead(c, p, FollowData(c, Field, [ch]), o.p);
    }
  }

  lemma NamedFirst(p: Parser, c: char)
    requires p.index == 0 && p.headerState == FirstHeaderState(c)
    ensures Named(p, [c])
  {
    ShapeFirst(c);
    hide Shape;
  }

  lemma GlueLast(texts: seq<string>, ch: char)
    requires texts != []
    ensures var r := Glue(texts, true, [ch]);
            |r| == |texts| && Last(r) == Last(texts) + [ch] && r[..|r| - 1] == texts[..|texts| - 1] &&
            r[|r| - 1] == Last(r)
  {
  }

  lemma LinedNext(c: Course, p: Parser, q: Parser, ch: char)
    requires Lined(c, p) && PhaseOf(p.state).InName? && Token(ch) != '\0'
    requires PhaseOf(q.state).InName? && q.flags == p.flags && q.contentLength == p.contentLength
    requires Named(q, Spelled(Last(c.fields)) + [Token(ch)])
    ensures Lined(FollowData(c, Field, [ch]), q)
  {
    hide Token, Spelled, Shape, Named, Lengthy, IsName, Last, Glue, PhaseOf;
    NameNext(Last(c.fields), ch);
    GlueLast(c.fields, ch);
    LengthyKept(c, p, FollowData(c, Field, [ch]), q);
  }

  lemma LinedColon(c: Course, p: Parser, q: Parser)
    requires Lined(c, p) && PhaseOf(p.state).InName? && q == p.(state := q.state) && PhaseOf(q.state).BeforeText?
    ensures Lined(c, q)
  {
    NamedShape(p, Spelled(Last(c.fields)));
    hide Spelled, Shape, Named, FindName, IsLength, Last, Naming, PhaseOf;
  }

  lemma NameTrip(p: Parser, ch: char, t: string)
    requires p.state.HeaderField? && InHead(p) && p.errno.OK? && DispatchField(p, ch).p.errno.OK? && Named(p, t)
    ensures var o := DispatchField(p, ch);
            InHead(o.p) && o.p.flags == p.flags && o.p.contentLength == p.contentLength &&
            PhaseOf(p.state).InName? &&
            if Token(ch) != '\0' then o == Go(o.p) && PhaseOf(o.p.state).InName? && Named(o.p, t + [Token(ch)])
            else o == Outcome(p.(state := HeaderValueDiscardWs), NoMark, UpTo(Field), [], Next) &&
                 PhaseOf(o.p.state).BeforeText?
  {
    if Token(ch) != '\0' { ShapeStep(p, t, ch); }
    Phases(p.state);
    Phases(DispatchField(p, ch).p.state);
    hide PhaseOf, NearBody, Descends, Token, FieldByte, Named;
  }

  lemma LinedNamed(c: Course, p: Parser)
    requires Lined(c, p) && PhaseOf(p.state).InName?
    ensures Named(p, Spelled(Last(c.fields)))
  {
    hide Named, Spelled, Lengthy, Naming, PhaseOf;
  }

  /** One more byte of a name, or its end. */
  lemma FitField(c: Course, p: Parser, open: Mark, ch: char)
    requires Counted(c, p) && c.heads == 0 && p.state.HeaderField? && p.errno.OK? && open == MarkOf(Field)
    requires DispatchField(p, ch).p.errno.OK?
    ensures Counted(Heed(c, open, DispatchField(p, ch), ch), DispatchField(p, ch).p)
  {
    hide Counted, Lined, InHead, Heed, DispatchField, Token, Named, Spelled, Last;
    var o := DispatchField(p, ch);
    FitsHead(c, p);
    assert PhaseOf(p.state).InName?;
    hide PhaseOf;
    LinedNamed(c, p);
    NameTrip(p, ch, Spelled(Last(c.fields)));
    if Token(ch) != '\0' {
      HeedOn(c, Field, o, ch);
      LinedNext(c, p, o.p, ch);
      FitHead(c, p, FollowData(c, Field, [ch]), o.p);
    } else {
      HeedFlush(c, Field, o, ch);
      LinedColon(c, p, o.p);
      FitHead(c, p, c, o.p);
    }
  }

  lemma NamedShape(p: Parser, t: string)
    requires Named(p, t)
    ensures p.headerState == Shape(t)
  {
    hide Shape;
  }

  // ---------------------------------------------------------------- values

  /** What the parser keeps of a Content-Length. */
  predicate SameCount(p: Parser, q: Parser) {
    q.flags.contentLength == p.flags.contentLength && q.contentLength == p.contentLength
  }

  /** A value begins. */
  predicate Begins(p: Parser, q: Parser, ch: char) {
    q.state.HeaderValue? && q.headerState.ContentLength? == p.headerState.ContentLength? &&
    if p.headerState.ContentLength? then
      !p.flags.contentLength && q.flags.contentLength && IsNum(ch) && q.contentLength == Digit(ch)
    else SameCount(p, q)
  }

  /** A value goes on. */
  predicate GoesOn(p: Parser, q: Parser, ch: char) {
    q.state.HeaderValue? && q.headerState.ContentLength? == p.headerState.ContentLength? &&
    q.flags.contentLength == p.flags.contentLength &&
    if p.headerState.ContentLength?
    then (IsNum(ch) || ch == ' ') &&
         q.contentLength == (if IsNum(ch) then p.contentLength * 10 + Digit(ch) else p.contentLength)
    else q.contentLength == p.contentLength
  }

  lemma LengthyBegins(c: Course, p: Parser, q: Parser, ch: char)
    requires Naming(c) && Lengthy(c, p) && Begins(p, q, ch)
    requires p.headerState.ContentLength? <==> SameName(Last(c.fields), CONTENT_LENGTH)
    ensures var c' := FollowData(c, Value, [ch]); Lengthy(c', q) && Valuing(c', q)
  {
    var front, name := c.fields[..|c.values|], Last(c.fields);
    assert c.fields == front + [name];
    FindMore(front, name);
    var c' := FollowData(c, Value, [ch]);
    assert c'.values == c.values + [[ch]] && c'.fields[..|c'.values|] == c.fields;
    if IsNum(ch) { LengthFirst(ch); }
    hide SameName, FindName, IsLength, IsName, IsNum, Digit;
  }

  lemma LinedBegins(c: Course, p: Parser, q: Parser, ch: char)
    requires Lined(c, p) && PhaseOf(p.state).BeforeText? && Begins(p, q, ch) && PhaseOf(q.state).InText?
    ensures Lined(FollowData(c, Value, [ch]), q)
  {
    hide Valuing, Lengthy, Spelled, Shape, Named, IsName, Begins, SameName, Last, PhaseOf;
    NameDone(Last(c.fields));
    LengthyBegins(c, p, q, ch);
  }

  lemma LengthyEmpty(c: Course, p: Parser, q: Parser)
    requires Naming(c) && Lengthy(c, p) && SameCount(p, q)
    ensures var c' := FollowData(c, Value, ""); |c'.values| == |c'.fields| && Lengthy(c', q) && Paired(c')
  {
    var front, name := c.fields[..|c.values|], Last(c.fields);
    assert c.fields == front + [name];
    FindMore(front, name);
    var c' := FollowData(c, Value, "");
    assert c'.values == c.values + [""] && c'.fields[..|c'.values|] == c.fields;
    hide SameName, FindName, IsLength, IsName;
  }

  /** An empty value. */
  lemma LinedEmpty(c: Course, p: Parser, q: Parser)
    requires Lined(c, p) && PhaseOf(p.state).BeforeText? && PhaseOf(q.state).BetweenLines? && SameCount(p, q)
    ensures Lined(FollowData(c, Value, ""), q)
  {
    hide Valuing, Lengthy, Spelled, Shape, Named, IsName, SameName, Last, PhaseOf, Naming, Paired;
    LengthyEmpty(c, p, q);
  }

  lemma LengthyGoesOn(c: Course, p: Parser, q: Parser, ch: char)
    requires |c.values| <= |c.fields| && Valuing(c, p) && Lengthy(c, p) && GoesOn(p, q, ch)
    ensures var c' := FollowData(c, Value, [ch]); Lengthy(c', q) && Valuing(c', q)
  {
    var c', i := FollowData(c, Value, [ch]), FindName(c.fields, 0);
    GlueLast(c.values, ch);
    assert c.fields[..|c.values|] == c.fields && c'.fields[..|c'.values|] == c.fields;
    forall k | 0 <= k < |c.values| - 1
      ensures c'.values[k] == c.values[k]
    {
      assert c'.values[k] == c'.values[..|c.values| - 1][k];
    }
    if i == |c.fields| - 1 && p.headerState.ContentLength? { LengthNext(c.values[i], p.contentLength, ch); }
    hide SameName, FindName, IsLength, IsNum, Digit, Glue;
  }

  lemma LinedGoesOn(c: Course, p: Parser, q: Parser, ch: char)
    requires Lined(c, p) && PhaseOf(p.state).InText? && GoesOn(p, q, ch) && PhaseOf(q.state).InText?
    ensures Lined(FollowData(c, Value, [ch]), q)
  {
    hide Valuing, Lengthy, Spelled, Shape, Named, GoesOn, Last, Glue, PhaseOf;
    LengthyGoesOn(c, p, q, ch);
    ValuingPairs(c, p);
    ValuingPairs(FollowData(c, Value, [ch]), q);
  }

  lemma ValuingPairs(c: Course, p: Parser)
    requires Valuing(c, p)
    ensures |c.fields| == |c.values| && Paired(c)
  {
    hide SameName, FindName, Last;
  }

  /** The states at the end of a value. */
  lemma LinedEnds(c: Course, p: Parser, q: Parser)
    requires Lined(c, p) && PhaseOf(p.state).InText? && SameCount(p, q)
    requires (PhaseOf(q.state).InText? && q.headerState == p.headerState) || PhaseOf(q.state).BetweenLines?
    ensures Lined(c, q)
  {
    hide Spelled, Shape, Named, FindName, IsLength, Last, SameName, PhaseOf;
    ValuingPairs(c, p);
  }

  lemma ValueStartTrip(p: Parser, ch: char)
    requires p.errno.OK? && ValueStart(p, ch).p.errno.OK? && (BeforeValue(p.state) || WithinValue(p.state))
    ensures var o := ValueStart(p, ch);
            o == Outcome(o.p, MarkOf(Value), NoFlush, [], Next) && (InHead(p) ==> InHead(o.p)) && Begins(p, o.p, ch)
  {
    hide Lower;
  }

  /** Before a value. */
  lemma BeforeTrip(p: Parser, ch: char)
    requires BeforeValue(p.state) && p.errno.OK? && DispatchValueEdges(p, ch).p.errno.OK?
    ensures var o := DispatchValueEdges(p, ch);
            (InHead(p) ==> InHead(o.p)) && PhaseOf(p.state).BeforeText? &&
            if p.state.HeaderValueDiscardWs? && !IsBlank(ch) && !IsCrLf(ch) then o == ValueStart(p, ch) &&
               PhaseOf(o.p.state).InText?
            else
              SameCount(p, o.p) && o.events == [] &&
              ((o.mark.NoMark? && PhaseOf(o.p.state).BeforeText? && o.p.headerState == p.headerState) ||
               (o.mark == MarkOf(Value) && o.flush == UpTo(Value) && PhaseOf(o.p.state).BetweenLines?))
  {
    Phases(p.state);
    Phases(DispatchValueEdges(p, ch).p.state);
    PlainFinish(p);
    FinishKeeps(p);
    if p.state.HeaderValueDiscardWs? && !IsBlank(ch) && !IsCrLf(ch) { ValueStartTrip(p, ch); }
    hide PhaseOf, NearBody, Descends, FinishHeader, ValueStart, Begins;
  }

  /** Behind a value. */
  lemma BehindTrip(p: Parser, ch: char)
    requires p.state.HeaderAlmostDone? || p.state.HeaderValueLws? || p.state.HeaderValueStart?
    requires p.errno.OK? && DispatchValueEdges(p, ch).p.errno.OK?
    ensures var o := DispatchValueEdges(p, ch);
            (InHead(p) ==> InHead(o.p)) && PhaseOf(p.state).InText? &&
            if p.state.HeaderValueStart? then o == ValueStart(p, ch) && PhaseOf(o.p.state).InText?
            else
              SameCount(p, o.p) && o.events == [] && o.mark.NoMark? &&
              ((PhaseOf(o.p.state).InText? && o.p.headerState == p.headerState) || PhaseOf(o.p.state).BetweenLines?)
  {
    Phases(p.state);
    Phases(DispatchValueEdges(p, ch).p.state);
    PlainFinish(p);
    FinishKeeps(p);
    if p.state.HeaderValueStart? { ValueStartTrip(p, ch); }
    hide PhaseOf, NearBody, Descends, FinishHeader, ValueStart, Begins;
  }

  lemma FinishKeeps(p: Parser)
    ensures SameCount(p, FinishHeader(p))
  {
    FlagsKeep(p.flags, p.headerState);
    hide ConnectionFlags;
  }

  lemma FlagsKeep(f: Flags, h: HeaderState)
    ensures ConnectionFlags(f, h).contentLength == f.contentLength
  {
  }

  lemma FitBefore(c: Course, p: Parser, open: Mark, ch: char)
    requires Counted(c, p) && c.heads == 0 && BeforeValue(p.state) && p.errno.OK? && open.NoMark?
    requires DispatchValueEdges(p, ch).p.errno.OK?
    ensures Counted(Heed(c, open, DispatchValueEdges(p, ch), ch), DispatchValueEdges(p, ch).p)
  {
    hide Counted, Lined, InHead, Heed, DispatchValueEdges, ValueStart, Begins, SameCount, Glue, PhaseOf;
    var o := DispatchValueEdges(p, ch);
    FitsHead(c, p);
    BeforeTrip(p, ch);
    if p.state.HeaderValueDiscardWs? && !IsBlank(ch) && !IsCrLf(ch) {
      ValueStartTrip(p, ch);
      HeedMark(c, Value, o, ch);
      LinedBegins(c, p, o.p, ch);
      FitHead(c, p, FollowData(c, Value, [ch]), o.p);
    } else if o.mark.MarkOf? {
      HeedEmpty(c, Value, o, ch);
      LinedEmpty(c, p, o.p);
      FitHead(c, p, FollowData(c, Value, ""), o.p);
    } else {
      HeedNone(c, o, ch);
      CountMeans(p, o.p);
      LinedSame(c, p, o.p);
      FitHead(c, p, c, o.p);
    }
  }

  lemma CountMeans(p: Parser, q: Parser)
    requires SameCount(p, q)
    ensures q.flags.contentLength == p.flags.contentLength && q.contentLength == p.contentLength
  {
  }

  lemma FitBehind(c: Course, p: Parser, open: Mark, ch: char)
    requires Counted(c, p) && c.heads == 0 && p.errno.OK? && open.NoMark?
    requires p.state.HeaderAlmostDone? || p.state.HeaderValueLws? || p.state.HeaderValueStart?
    requires DispatchValueEdges(p, ch).p.errno.OK?
    ensures Counted(Heed(c, open, DispatchValueEdges(p, ch), ch), DispatchValueEdges(p, ch).p)
  {
    hide Counted, Lined, InHead, Heed, DispatchValueEdges, ValueStart, Begins, GoesOn, SameCount, Glue, PhaseOf;
    var o := DispatchValueEdges(p, ch);
    FitsHead(c, p);
    BehindTrip(p, ch);
    if p.state.HeaderValueStart? {
      ValueStartTrip(p, ch);
      HeedMark(c, Value, o, ch);
      NoSecondLength(c, p, o.p, ch);
      LinedGoesOn(c, p, o.p, ch);
      FitHead(c, p, FollowData(c, Value, [ch]), o.p);
    } else {
      HeedNone(c, o, ch);
      LinedEnds(c, p, o.p);
      FitHead(c, p, c, o.p);
    }
  }

  /** A continuation line of a Content-Length is refused. */
  lemma NoSecondLength(c: Course, p: Parser, q: Parser, ch: char)
    requires Lined(c, p) && PhaseOf(p.state).InText? && Begins(p, q, ch)
    ensures GoesOn(p, q, ch)
  {
    hide PhaseOf, Spelled, Shape, Named, FindName, IsLength, Last, SameName, Lengthy;
  }

  lemma TextTrip(p: Parser, ch: char, skip: bool)
    requires p.state.HeaderValue? && p.errno.OK? && DispatchValue(p, ch, skip).p.errno.OK?
    ensures var o := DispatchValue(p, ch, skip);
            (InHead(p) ==> InHead(o.p)) && PhaseOf(p.state).InText? && PhaseOf(o.p.state).InText? &&
            if IsCrLf(ch) then o.mark.NoMark? && o.flush == UpTo(Value) && o.events == [] && SameCount(p, o.p) &&
                               o.p.headerState == p.headerState
            else o == Go(o.p) && GoesOn(p, o.p, ch)
  {
    if !IsCrLf(ch) { ByteGoesOn(p, ch); }
    PlainValueByte(p, ch);
    Phases(p.state);
    Phases(DispatchValue(p, ch, skip).p.state);
    hide PhaseOf, NearBody, Descends, ValueByte, GoesOn;
  }

  lemma MatchEnds(p: Parser, c: char, key: string, miss: HeaderState, hit: HeaderState)
    ensures var h := MatchKey(p, c, key, miss, hit).headerState; h == miss || h == hit || h == p.headerState
  {
    hide KeyChar;
  }

  lemma ConnectionKeeps(p: Parser, ch: char)
    requires IsConnectionScan(p.headerState)
    ensures var r := ConnectionByte(p, ch); SameCount(p, r) && r.state == p.state && !r.headerState.ContentLength?
  {
    FlagsKeep(p.flags, p.headerState);
    MatchEnds(p, Lower(ch), "keep-alive", MatchingConnectionToken, ConnectionKeepAlive);
    MatchEnds(p, Lower(ch), "close", MatchingConnectionToken, ConnectionClose);
    MatchEnds(p, Lower(ch), "upgrade", MatchingConnectionToken, ConnectionUpgrade);
    hide KeyChar, Lower, Token, ConnectionFlags, MatchKey;
  }

  lemma ByteGoesOn(p: Parser, ch: char)
    requires p.state.HeaderValue? && p.errno.OK? && ValueByte(p, ch).errno.OK?
    ensures GoesOn(p, ValueByte(p, ch), ch)
  {
    if IsConnectionScan(p.headerState) { ConnectionKeeps(p, ch); }
    hide ConnectionByte, Lower, KeyChar;
  }

  /** One more byte of a value, or its end. */
  lemma FitValue(c: Course, p: Parser, open: Mark, ch: char, skip: bool)
    requires Counted(c, p) && c.heads == 0 && p.state.HeaderValue? && p.errno.OK? && open == MarkOf(Value)
    requires DispatchValue(p, ch, skip).p.errno.OK?
    ensures Counted(Heed(c, open, DispatchValue(p, ch, skip), ch), DispatchValue(p, ch, skip).p)
  {
    hide Counted, Lined, InHead, Heed, DispatchValue, GoesOn, SameCount, IsCrLf, Glue, PhaseOf;
    var o := DispatchValue(p, ch, skip);
    FitsHead(c, p);
    TextTrip(p, ch, skip);
    if IsCrLf(ch) {
      HeedFlush(c, Value, o, ch);
      LinedEnds(c, p, o.p);
      FitHead(c, p, c, o.p);
    } else {
      HeedOn(c, Value, o, ch);
      LinedGoesOn(c, p, o.p, ch);
      FitHead(c, p, FollowData(c, Value, [ch]), o.p);
    }
  }

  // ---------------------------------------------------------------- bodies

  predicate SameBody(c: Course, d: Course) {
    d == c.(fields := d.fields, values := d.values, concatField := d.concatField, concatValue := d.concatValue,
            closed := d.closed, good := d.good)
  }

  lemma DataPlain(c: Course, k: DataKind, s: string)
    requires !k.Body?
    ensures SameBody(c, FollowData(c, k, s))
  {
    hide Glue;
  }

  /** A trip that has nothing to do with a body. */
  lemma HeedPlain(c: Course, p: Parser, open: Mark, o: Outcome, ch: char)
    requires Plain(p, o) && !IsBody(open)
    ensures SameBody(c, Heed(c, open, o, ch))
  {
    hide FollowAll, FollowData;
    var marked := if open.NoMark? then o.mark else open;
    var c1 := if open.NoMark? && o.mark.MarkOf? then FollowData(c, o.mark.kind, "") else c;
    if open.NoMark? && o.mark.MarkOf? { DataPlain(c, o.mark.kind, ""); }
    var c2 := if o.flush.Through? && marked == MarkOf(o.flush.kind) then FollowData(c1, o.flush.kind, [ch]) else c1;
    if o.flush.Through? { DataPlain(c1, o.flush.kind, [ch]); }
    FollowOne(c2, MessageBegin);
    if marked.MarkOf? { DataPlain(c2, marked.kind, [ch]); }
  }

  lemma HeedBody(c: Course, open: Mark, o: Outcome, ch: char)
    requires AtMostBody(open) && o == Outcome(o.p, MarkOf(Body), NoFlush, [], Next) && o.p.errno.OK?
    ensures Heed(c, open, o, ch) == FollowData(c, Body, [ch])
  {
    if open.NoMark? {
      HeedMark(c, Body, o, ch);
    } else {
      FollowOne(c, MessageBegin);
    }
    hide FollowAll, FollowData;
  }

  lemma HeedLast(c: Course, open: Mark, o: Outcome, ch: char)
    requires AtMostBody(open) && o == Outcome(o.p, MarkOf(Body), Through(Body), [], Again)
    ensures Heed(c, open, o, ch) == FollowData(c, Body, [ch])
  {
    FollowTwice(c, Body, "", [ch]);
    assert "" + [ch] == [ch];
    FollowOne(FollowData(c, Body, [ch]), MessageBegin);
    hide FollowAll, FollowData;
  }

  lemma HeedUpTo(c: Course, open: Mark, o: Outcome, ch: char)
    requires AtMostBody(open) && o.mark.NoMark? && o.flush == UpTo(Body) && o.events == []
    ensures Heed(c, open, o, ch) == c
  {
    FollowOne(c, MessageBegin);
    hide FollowAll, FollowData;
  }

  lemma HeedEvent(c: Course, o: Outcome, e: Event, ch: char)
    requires o.mark.NoMark? && o.events == [e] && !o.flush.Through?
    ensures Heed(c, NoMark, o, ch) == Follow(c, e)
  {
    FollowOne(c, e);
    hide FollowAll, Follow;
  }

  /** No event ends a trip with an error. */
  lemma HeedError(c: Course, open: Mark, o: Outcome, ch: char)
    requires o.mark.NoMark? && o.flush.NoFlush? && o.events == [] && !o.p.errno.OK?
    ensures Heed(c, open, o, ch) == c
  {
    FollowOne(c, MessageBegin);
    hide FollowAll, FollowData;
  }

  lemma FitsBody(c: Course, p: Parser)
    requires Counted(c, p) && c.heads == 1
    ensures Lengths(c) && (p.errno.OK? ==> Bodied(c, p))
  {
    hide Lengths, Bodied;
  }

  lemma FitBody(c: Course, p: Parser)
    requires c.heads == 1 && Lengths(c) && (p.errno.OK? ==> Bodied(c, p))
    ensures Counted(c, p)
  {
    hide Lengths, Bodied;
  }

  lemma BodiedAway(c: Course, p: Parser)
    requires !NearBody(p.state) || p.state.HeadersAlmostDone? || p.state.MessageDone?
    ensures Bodied(c, p)
  {
  }

  lemma SameBodyFits(c: Course, d: Course)
    requires SameBody(c, d)
    ensures Lengths(c) ==> Lengths(d)
  {
    hide IsLength;
  }

  /** Behind the headers, outside the body. */
  lemma FitAway(c: Course, p: Parser, open: Mark, o: Outcome, ch: char)
    requires Counted(c, p) && c.heads == 1 && Plain(p, o) && !IsBody(open)
    ensures Counted(Heed(c, open, o, ch), o.p)
  {
    HeedPlain(c, p, open, o, ch);
    FitsBody(c, p);
    SameBodyFits(c, Heed(c, open, o, ch));
    if o.p.errno.OK? { BodiedAway(Heed(c, open, o, ch), o.p); }
    FitBody(Heed(c, open, o, ch), o.p);
    hide Heed, Counted, Lengths, Bodied;
  }

  lemma HeadersComplete0(c: Course, p: Parser, q: Parser, e: Event)
    requires c.heads == 0 && c.body == "" && !c.chunked && Lined(c, p) && p.state.HeadersAlmostDone?
    requires e.HeadersComplete? && e.length == p.contentLength && q.state.HeadersDone? && q.flags == p.flags
    requires q.contentLength == p.contentLength && !(p.flags.chunked && p.flags.contentLength)
    ensures Counted(Follow(c, e), q)
  {
    Phases(p.state);
    assert c.fields[..|c.values|] == c.fields;
    hide PhaseOf, FindName, IsLength, Spelled, Shape, Named, Last;
  }

  lemma AlmostDoneTrips(p: Parser, ch: char)
    requires p.state.HeadersAlmostDone? && p.errno.OK?
    ensures var o := DispatchHeadersDone(p, ch);
            o.mark.NoMark? && o.flush.NoFlush? &&
            if !o.p.errno.OK? then o.events == []
            else if p.flags.trailing then o.events == [ChunkComplete] && o.p.state.MessageDone?
            else o.events == [HeadersComplete(p.httpMethod, o.p.upgrade, p.contentLength)] && o.p.state.HeadersDone? &&
                 o.p.flags == p.flags &&
                 o.p.contentLength == p.contentLength && !(p.flags.chunked && p.flags.contentLength)
  {
    hide Descends;
  }

  lemma CompleteTwice(c: Course, e: Event, q: Parser)
    requires c.heads > 0 && e.HeadersComplete?
    ensures Counted(Follow(c, e), q)
  {
    hide FirstText, Lined, Bodied, Lengths;
  }

  lemma FitAlmostDone(c: Course, p: Parser, open: Mark, ch: char)
    requires Counted(c, p) && c.heads <= 1 && p.state.HeadersAlmostDone? && p.errno.OK? && open.NoMark?
    ensures Counted(Heed(c, open, DispatchHeadersDone(p, ch), ch), DispatchHeadersDone(p, ch).p)
  {
    hide Heed, DispatchHeadersDone, Lined, Bodied, Lengths, FirstText;
    AlmostDoneTrips(p, ch);
    var o := DispatchHeadersDone(p, ch);
    if !o.p.errno.OK? {
      HeedError(c, open, o, ch);
    } else if p.flags.trailing {
      HeedEvent(c, o, ChunkComplete, ch);
      BodiedAway(c, o.p);
    } else {
      var e := o.events[0];
      HeedEvent(c, o, e, ch);
      if c.heads == 0 { HeadersComplete0(c, p, o.p, e); } else { CompleteTwice(c, e, o.p); }
    }
  }

  lemma DoneTrips(p: Parser, ch: char)
    requires p.state.HeadersDone? && p.errno.OK?
    ensures var o := DispatchHeadersDone(p, ch);
            o.mark.NoMark? && o.flush.NoFlush? && (o.events == [] || o.events == [MessageComplete]) &&
            if !o.p.errno.OK? then o.events == []
            else o.p.contentLength == p.contentLength &&
                 (!NearBody(o.p.state) || (o.p.state.ChunkSizeStart? && p.flags.chunked) || o.p.state.BodyIdentity? ||
                  (o.p.state.BodyIdentityEof? && p.contentLength == ULLONG_MAX))
  {
    hide Descends, MessageNeedsEof, ShouldKeepAlive;
  }

  lemma BodyBegins(c: Course, p: Parser, q: Parser)
    requires Bodied(c, p) && p.state.HeadersDone? && q.contentLength == p.contentLength
    requires (q.state.ChunkSizeStart? && p.flags.chunked) || q.state.BodyIdentity? ||
             (q.state.BodyIdentityEof? && p.contentLength == ULLONG_MAX)
    ensures Bodied(c, q)
  {
  }

  lemma FitDone(c: Course, p: Parser, open: Mark, ch: char)
    requires Counted(c, p) && c.heads == 1 && p.state.HeadersDone? && p.errno.OK? && open.NoMark?
    ensures Counted(Heed(c, open, DispatchHeadersDone(p, ch), ch), DispatchHeadersDone(p, ch).p)
  {
    hide Heed, DispatchHeadersDone, Bodied, Lengths, Counted, NearBody;
    FitsBody(c, p);
    DoneTrips(p, ch);
    var o := DispatchHeadersDone(p, ch);
    if o.events == [] { HeedNone(c, o, ch); } else { HeedEvent(c, o, MessageComplete, ch); }
    if o.p.errno.OK? {
      if NearBody(o.p.state) { BodyBegins(c, p, o.p); } else { BodiedAway(c, o.p); }
    }
    FitBody(c, o.p);
  }

  lemma SizeTrips(p: Parser, ch: char)
    requires p.state.ChunkSizeStart? || p.state.ChunkSize? || p.state.ChunkParameters?
    ensures var o := DispatchChunk(p, ch);
            o.mark.NoMark? && o.flush.NoFlush? && o.events == [] &&
            (o.p.errno.OK? ==> o.p.state.ChunkSize? || o.p.state.ChunkParameters? || o.p.state.ChunkSizeAlmostDone?)
  {
    ChunkDigitFrame(p, ch);
    hide Descends, Unhex, ChunkDigit;
  }

  lemma FitSize(c: Course, p: Parser, open: Mark, ch: char)
    requires Counted(c, p) && c.heads == 1 && p.errno.OK? && open.NoMark?
    requires p.state.ChunkSizeStart? || p.state.ChunkSize? || p.state.ChunkParameters?
    ensures Counted(Heed(c, open, DispatchChunk(p, ch), ch), DispatchChunk(p, ch).p)
  {
    hide Heed, DispatchChunk, Lengths, Counted;
    FitsBody(c, p);
    SizeTrips(p, ch);
    HeedNone(c, DispatchChunk(p, ch), ch);
    FitBody(c, DispatchChunk(p, ch).p);
  }

  lemma FitChunkHeader(c: Course, p: Parser, open: Mark, ch: char)
    requires Counted(c, p) && c.heads == 1 && p.errno.OK? && open.NoMark? && p.state.ChunkSizeAlmostDone?
    ensures Counted(Heed(c, open, DispatchChunk(p, ch), ch), DispatchChunk(p, ch).p)
  {
    hide Heed, Counted, Descends, IsLength;
    FitsBody(c, p);
    var o := DispatchChunk(p, ch);
    if !o.p.errno.OK? {
      HeedError(c, open, o, ch);
      FitBody(c, o.p);
    } else {
      HeedEvent(c, o, ChunkHeader(p.contentLength), ch);
      FitBody(Follow(c, ChunkHeader(p.contentLength)), o.p);
    }
  }

  lemma FitChunkData(c: Course, p: Parser, open: Mark, ch: char)
    requires Counted(c, p) && c.heads == 1 && p.errno.OK? && AtMostBody(open) && p.state.ChunkData?
    ensures Counted(Heed(c, open, DispatchChunk(p, ch), ch), DispatchChunk(p, ch).p)
  {
    hide Heed, Counted, Descends, IsLength;
    FitsBody(c, p);
    var o := DispatchChunk(p, ch);
    if !o.p.errno.OK? {
      HeedError(c, open, o, ch);
      FitBody(c, o.p);
    } else {
      HeedBody(c, open, o, ch);
      FitBody(FollowData(c, Body, [ch]), o.p);
    }
  }

  lemma FitChunkEnd(c: Course, p: Parser, open: Mark, ch: char)
    requires Counted(c, p) && c.heads == 1 && p.errno.OK? && AtMostBody(open)
    requires p.state.ChunkDataAlmostDone? || (p.state.ChunkDataDone? && open.NoMark?)
    ensures Counted(Heed(c, open, DispatchChunk(p, ch), ch), DispatchChunk(p, ch).p)
  {
    hide Heed, Counted, Descends, IsLength;
    FitsBody(c, p);
    var o := DispatchChunk(p, ch);
    if !o.p.errno.OK? {
      HeedError(c, open, o, ch);
    } else if p.state.ChunkDataAlmostDone? {
      HeedUpTo(c, open, o, ch);
    } else {
      HeedEvent(c, o, ChunkComplete, ch);
    }
    FitBody(c, o.p);
  }

  lemma FitIdentity(c: Course, p: Parser, open: Mark, ch: char)
    requires Counted(c, p) && c.heads == 1 && p.errno.OK? && AtMostBody(open) && p.state.BodyIdentity?
    ensures Counted(Heed(c, open, DispatchBody(p, ch), ch), DispatchBody(p, ch).p)
  {
    hide Heed, Counted, Descends, IsLength;
    FitsBody(c, p);
    var o := DispatchBody(p, ch);
    if !o.p.errno.OK? {
      HeedError(c, open, o, ch);
      FitBody(c, o.p);
    } else {
      if o.ctl.Again? { HeedLast(c, open, o, ch); } else { HeedBody(c, open, o, ch); }
      FitBody(FollowData(c, Body, [ch]), o.p);
    }
  }

  lemma FitEof(c: Course, p: Parser, open: Mark, ch: char)
    requires Counted(c, p) && c.heads == 1 && p.errno.OK? && AtMostBody(open) && p.state.BodyIdentityEof?
    ensures Counted(Heed(c, open, DispatchBody(p, ch), ch), DispatchBody(p, ch).p)
  {
    hide Heed, Counted, Descends, IsLength;
    FitsBody(c, p);
    HeedBody(c, open, DispatchBody(p, ch), ch);
    FitBody(FollowData(c, Body, [ch]), DispatchBody(p, ch).p);
  }

  lemma FitMessageDone(c: Course, p: Parser, open: Mark, ch: char)
    requires Counted(c, p) && c.heads == 1 && p.errno.OK? && open.NoMark? && p.state.MessageDone?
    ensures Counted(Heed(c, open, DispatchBody(p, ch), ch), DispatchBody(p, ch).p)
  {
    hide Heed, Counted, Descends, Lengths, ShouldKeepAlive;
    FitsBody(c, p);
    var o := DispatchBody(p, ch);
    HeedEvent(c, o, MessageComplete, ch);
    BodiedAway(c, o.p);
    FitBody(c, o.p);
  }

  // ---------------------------------------------------------------- every trip

  lemma DataHeads(c: Course, k: DataKind, s: string)
    ensures FollowData(c, k, s).heads == c.heads
  {
    hide Glue;
  }

  lemma {:induction false} FollowHeads(c: Course, events: seq<Event>)
    ensures c.heads <= FollowAll(c, events).heads
  {
    if events != [] {
      FollowHeads(c, events[..|events| - 1]);
      FollowMonotone(FollowAll(c, events[..|events| - 1]), events[|events| - 1]);
    }
    hide Follow;
  }

  lemma FitMany(c: Course, open: Mark, o: Outcome, ch: char)
    requires c.heads > 1
    ensures Counted(Heed(c, open, o, ch), o.p)
  {
    hide FollowAll, FollowData, Lined, Bodied, Lengths, InHead, OpenAfter;
    var marked := if open.NoMark? then o.mark else open;
    var c1 := if open.NoMark? && o.mark.MarkOf? then FollowData(c, o.mark.kind, "") else c;
    if o.mark.MarkOf? { DataHeads(c, o.mark.kind, ""); }
    var c2 := if o.flush.Through? && marked == MarkOf(o.flush.kind) then FollowData(c1, o.flush.kind, [ch]) else c1;
    if o.flush.Through? { DataHeads(c1, o.flush.kind, [ch]); }
    FollowHeads(c2, o.events);
    var after := OpenAfter(open, o);
    if after.MarkOf? { DataHeads(FollowAll(c2, o.events), after.kind, [ch]); }
  }

  lemma OpenIn(p: Parser, open: Mark)
    requires Looking(p, open)
    ensures p.state.HeaderField? ==> open == MarkOf(Field)
    ensures p.state.HeaderValue? ==> open == MarkOf(Value)
    ensures p.state.BodyIdentity? || p.state.BodyIdentityEof? || p.state.ChunkData? || p.state.ChunkDataAlmostDone? ==>
            AtMostBody(open)
    ensures p.state.HeaderFieldStart? || IsValueEdge(p.state) || p.state.HeadersAlmostDone? || p.state.HeadersDone? ==>
            open.NoMark?
    ensures p.state.ChunkSizeStart? || p.state.ChunkSize? || p.state.ChunkParameters? ==> open.NoMark?
    ensures p.state.ChunkSizeAlmostDone? ==> open.NoMark?
    ensures p.state.ChunkDataDone? || p.state.MessageDone? ==> open.NoMark?
  {
    hide Widths, FieldIndex, ValueIndex, MethodString;
  }

  lemma FitHeaderTrip(c: Course, p: Parser, open: Mark, ch: char, skip: bool)
    requires Looking(p, open) && Counted(c, p) && c.heads == 0 && Dispatch(p, ch, skip).p.errno.OK?
    requires p.state.HeaderFieldStart? || p.state.HeaderField? || p.state.HeaderValue? || IsValueEdge(p.state)
    ensures Counted(Heed(c, open, Dispatch(p, ch, skip), ch), Dispatch(p, ch, skip).p)
  {
    hide Sound, Counted, Heed, Descends, DispatchFieldStart, DispatchField, DispatchValue, DispatchValueEdges;
    OpenIn(p, open);
    var s := p.state;
    if s.HeaderFieldStart? { FitFieldStart(c, p, open, ch); }
    else if s.HeaderField? { FitField(c, p, open, ch); }
    else if s.HeaderValue? { FitValue(c, p, open, ch, skip); }
    else if BeforeValue(s) { FitBefore(c, p, open, ch); }
    else { FitBehind(c, p, open, ch); }
  }

  lemma FirstPhase(s: State)
    requires IsLineState(s)
    ensures PhaseOf(s).FirstLine?
  {
  }

  /** Before the first headers are complete. */
  lemma FitHeadTrip(c: Course, p: Parser, open: Mark, ch: char, skip: bool)
    requires Looking(p, open) && Counted(c, p) && c.heads == 0 && !NearBody(p.state)
    ensures Counted(Heed(c, open, Dispatch(p, ch, skip), ch), Dispatch(p, ch, skip).p)
  {
    hide Sound, Counted, Heed, Dispatch, Plain, LineTrip;
    var o := Dispatch(p, ch, skip);
    PlainTrip(p, ch, skip);
    NotBody(p, open);
    if !o.p.errno.OK? {
      FitFailed(c, p, open, o, ch);
    } else if IsLineState(p.state) {
      LineTrips(p, ch, skip);
      OpenLine(p, open);
      FirstPhase(p.state);
      FitLine(c, p, open, o, ch);
    } else {
      FitHeaderTrip(c, p, open, ch, skip);
    }
  }

  lemma FitDoneTrip(c: Course, p: Parser, open: Mark, ch: char, skip: bool)
    requires Looking(p, open) && Counted(c, p) &&
             (p.state.HeadersAlmostDone? || (p.state.HeadersDone? && c.heads == 1)) &&
             c.heads <= 1
    ensures Counted(Heed(c, open, Dispatch(p, ch, skip), ch), Dispatch(p, ch, skip).p)
  {
    hide Sound, Counted, Heed, Descends, DispatchHeadersDone;
    OpenIn(p, open);
    if p.state.HeadersAlmostDone? { FitAlmostDone(c, p, open, ch); } else { FitDone(c, p, open, ch); }
  }

  lemma FitChunkTrip(c: Course, p: Parser, open: Mark, ch: char, skip: bool)
    requires Looking(p, open) && Counted(c, p) && IsChunkState(p.state) && c.heads == 1
    ensures Counted(Heed(c, open, Dispatch(p, ch, skip), ch), Dispatch(p, ch, skip).p)
  {
    hide Sound, Counted, Heed, Descends, DispatchChunk;
    OpenIn(p, open);
    var s := p.state;
    if s.ChunkSizeStart? || s.ChunkSize? || s.ChunkParameters? { FitSize(c, p, open, ch); }
    else if s.ChunkSizeAlmostDone? { FitChunkHeader(c, p, open, ch); }
    else if s.ChunkData? { FitChunkData(c, p, open, ch); }
    else { FitChunkEnd(c, p, open, ch); }
  }

  lemma FitBodyTrip(c: Course, p: Parser, open: Mark, ch: char, skip: bool)
    requires Looking(p, open) && Counted(c, p) && c.heads == 1
    requires p.state.BodyIdentity? || p.state.BodyIdentityEof? || p.state.MessageDone?
    ensures Counted(Heed(c, open, Dispatch(p, ch, skip), ch), Dispatch(p, ch, skip).p)
  {
    hide Sound, Counted, Heed, Descends, DispatchBody;
    OpenIn(p, open);
    if p.state.BodyIdentity? { FitIdentity(c, p, open, ch); }
    else if p.state.BodyIdentityEof? { FitEof(c, p, open, ch); }
    else { FitMessageDone(c, p, open, ch); }
  }

  /** Every trip of a first message keeps what the parser counts. */
  lemma TripCounted(c: Course, p: Parser, open: Mark, ch: char, skip: bool)
    requires Looking(p, open) && Counted(c, p)
    ensures Counted(Heed(c, open, Dispatch(p, ch, skip), ch), Dispatch(p, ch, skip).p)
  {
    hide Sound, Heed, Dispatch, Plain, Lined, Bodied, Lengths;
    if c.heads > 1 {
      FitMany(c, open, Dispatch(p, ch, skip), ch);
    } else if !NearBody(p.state) {
      if c.heads == 0 {
        FitHeadTrip(c, p, open, ch, skip);
      } else {
        PlainTrip(p, ch, skip);
        NotBody(p, open);
        FitAway(c, p, open, Dispatch(p, ch, skip), ch);
      }
    } else if p.state.HeadersAlmostDone? || p.state.HeadersDone? {
      FitDoneTrip(c, p, open, ch, skip);
    } else if IsChunkState(p.state) {
      FitChunkTrip(c, p, open, ch, skip);
    } else {
      FitBodyTrip(c, p, open, ch, skip);
    }
  }
}
