/** The order of the header callbacks, over any number of messages: every name is followed by its
    value, and no value comes right behind the end of the headers. */
module HttpOrder {
  import opened HttpTypes
  import opened HttpAutomaton
  import opened HttpScan
  import opened HttpRuns
  import opened HttpInvariant
  import opened HttpFragments
  import opened HttpLength
  import opened HttpReads
  import opened HttpNames
  import opened HttpValues
  import opened HttpResponses
  import opened HttpLimit
  import opened HttpCourse
  import opened HttpHeed

  // ---------------------------------------------------------------- the order and the state

  /** A name waits for its value. */
  predicate Opened(c: Course) {
    |c.fields| == |c.values| + 1 && c.concatField && !c.concatValue && !c.closed
  }

  /** A value may go on. */
  predicate Filling(c: Course) {
    |c.fields| == |c.values| > 0 && c.concatValue && !c.concatField && !c.closed
  }

  predicate Ordered(c: Course, p: Parser) {
    match PhaseOf(p.state)
    case InName => Opened(c)
    case BeforeText => Opened(c)
    case InText => Filling(c)
    case _ => Paired(c)
  }

  /** The course and the parser. */
  predicate Fits(c: Course, p: Parser) { c.good && (p.errno.OK? ==> Ordered(c, p)) && Counted(c, p) }

  predicate OrderKept(c: Course, p: Parser) { c.good && (p.errno.OK? ==> Ordered(c, p)) }

  // ---------------------------------------------------------------- one trip

  function Marked(open: Mark, o: Outcome): Mark { if open.NoMark? then o.mark else open }

  predicate NoHead(events: seq<Event>) {
    events == [] || (|events| == 1 && !events[0].Data? && !events[0].HeadersComplete?)
  }

  lemma NoHeadFollows(c: Course, events: seq<Event>)
    requires NoHead(events)
    ensures SameLines(c, FollowAll(c, events))
  {
    if events != [] {
      FollowOne(c, events[0]);
      assert events == [events[0]];
    }
  }

  predicate SameLines(c: Course, d: Course) {
    d.fields == c.fields && d.values == c.values && d.concatField == c.concatField && d.concatValue == c.concatValue &&
    d.closed == c.closed && d.good == c.good
  }

  lemma SameOrder(c: Course, p: Parser, d: Course, q: Parser)
    requires Paired(c) && SameLines(c, d) && (PhaseOf(q.state).FirstLine? || PhaseOf(q.state).BetweenLines?)
    ensures Ordered(d, q)
  {
    hide PhaseOf;
  }

  lemma DataGood(c: Course, k: DataKind, s: string)
    requires c.good && (k.Value? ==> !c.closed)
    ensures var d := FollowData(c, k, s); d.good && (k.Value? ==> !d.closed)
  {
    hide Glue;
  }

  /** A trip, with an error or not, that touches a value only where one is expected. */
  lemma HeedGood(c: Course, open: Mark, o: Outcome, ch: char)
    requires c.good && NoHead(o.events) && (Marked(open, o) == MarkOf(Value) ==> !c.closed)
    ensures Heed(c, open, o, ch).good
  {
    hide FollowAll, FollowData;
    var marked := Marked(open, o);
    var c1 := if open.NoMark? && o.mark.MarkOf? then FollowData(c, o.mark.kind, "") else c;
    if open.NoMark? && o.mark.MarkOf? { DataGood(c, o.mark.kind, ""); }
    var c2 := if o.flush.Through? && marked == MarkOf(o.flush.kind) then FollowData(c1, o.flush.kind, [ch]) else c1;
    if marked.MarkOf? { DataGood(c1, marked.kind, [ch]); }
    NoHeadFollows(c2, o.events);
    if marked.MarkOf? { DataGood(FollowAll(c2, o.events), marked.kind, [ch]); }
  }

  lemma DataBody(c: Course, k: DataKind, s: string)
    requires k.Body?
    ensures SameLines(c, FollowData(c, k, s))
  {
  }

  /** A trip that can touch nothing but the body. */
  lemma HeedBodyLines(c: Course, open: Mark, o: Outcome, ch: char)
    requires AtMostBody(open) && AtMostBody(o.mark) && NoHead(o.events)
    ensures SameLines(c, Heed(c, open, o, ch))
  {
    hide FollowAll, FollowData;
    var marked := Marked(open, o);
    var c1 := if open.NoMark? && o.mark.MarkOf? then FollowData(c, o.mark.kind, "") else c;
    if open.NoMark? && o.mark.MarkOf? { DataBody(c, o.mark.kind, ""); }
    var c2 := if o.flush.Through? && marked == MarkOf(o.flush.kind) then FollowData(c1, o.flush.kind, [ch]) else c1;
    if marked.MarkOf? { DataBody(c1, marked.kind, [ch]); }
    NoHeadFollows(c2, o.events);
    if marked.MarkOf? { DataBody(FollowAll(c2, o.events), marked.kind, [ch]); }
  }

  lemma OrderFieldStart(c: Course, p: Parser, open: Mark, ch: char)
    requires c.good && Ordered(c, p) && p.state.HeaderFieldStart? && p.errno.OK? && open.NoMark?
    requires DispatchFieldStart(p, ch).p.errno.OK?
    ensures OrderKept(Heed(c, open, DispatchFieldStart(p, ch), ch), DispatchFieldStart(p, ch).p)
  {
    hide Heed, DispatchFieldStart, PhaseOf, InHead, Token, FirstHeaderState;
    var o := DispatchFieldStart(p, ch);
    FieldStartTrip(p, ch);
    if IsCrLf(ch) {
      HeedNone(c, o, ch);
    } else {
      HeedMark(c, Field, o, ch);
    }
  }

  lemma FieldTrip(p: Parser, ch: char)
    requires p.state.HeaderField? && p.errno.OK? && DispatchField(p, ch).p.errno.OK?
    ensures var o := DispatchField(p, ch);
            PhaseOf(p.state).InName? &&
            if Token(ch) != '\0' then o == Go(o.p) && PhaseOf(o.p.state).InName?
            else o.mark.NoMark? && o.flush == UpTo(Field) && o.events == [] && PhaseOf(o.p.state).BeforeText?
  {
    FieldByteStays(p, ch, Token(ch));
    Phases(p.state);
    Phases(DispatchField(p, ch).p.state);
    hide PhaseOf, NearBody, Descends, Token, FieldByte;
  }

  lemma FieldByteStays(p: Parser, ch: char, c: char)
    ensures FieldByte(p, ch, c).state == p.state
  {
    hide KeyChar;
  }

  lemma OrderField(c: Course, p: Parser, open: Mark, ch: char)
    requires c.good && Ordered(c, p) && p.state.HeaderField? && p.errno.OK? && open == MarkOf(Field)
    requires DispatchField(p, ch).p.errno.OK?
    ensures OrderKept(Heed(c, open, DispatchField(p, ch), ch), DispatchField(p, ch).p)
  {
    hide Heed, DispatchField, PhaseOf, Token;
    var o := DispatchField(p, ch);
    FieldTrip(p, ch);
    if Token(ch) != '\0' {
      HeedOn(c, Field, o, ch);
    } else {
      HeedFlush(c, Field, o, ch);
    }
  }

  lemma OrderBefore(c: Course, p: Parser, open: Mark, ch: char)
    requires c.good && Ordered(c, p) && BeforeValue(p.state) && p.errno.OK? && open.NoMark?
    requires DispatchValueEdges(p, ch).p.errno.OK?
    ensures OrderKept(Heed(c, open, DispatchValueEdges(p, ch), ch), DispatchValueEdges(p, ch).p)
  {
    hide Heed, DispatchValueEdges, ValueStart, Begins, SameCount, PhaseOf, InHead;
    var o := DispatchValueEdges(p, ch);
    BeforeTrip(p, ch);
    if p.state.HeaderValueDiscardWs? && !IsBlank(ch) && !IsCrLf(ch) {
      ValueStartTrip(p, ch);
      HeedMark(c, Value, o, ch);
    } else if o.mark.MarkOf? {
      HeedEmpty(c, Value, o, ch);
    } else {
      HeedNone(c, o, ch);
    }
  }

  lemma OrderBehind(c: Course, p: Parser, open: Mark, ch: char)
    requires c.good && Ordered(c, p) && p.errno.OK? && open.NoMark?
    requires p.state.HeaderAlmostDone? || p.state.HeaderValueLws? || p.state.HeaderValueStart?
    requires DispatchValueEdges(p, ch).p.errno.OK?
    ensures OrderKept(Heed(c, open, DispatchValueEdges(p, ch), ch), DispatchValueEdges(p, ch).p)
  {
    hide Heed, DispatchValueEdges, ValueStart, Begins, SameCount, PhaseOf, InHead;
    var o := DispatchValueEdges(p, ch);
    BehindTrip(p, ch);
    if p.state.HeaderValueStart? {
      ValueStartTrip(p, ch);
      HeedMark(c, Value, o, ch);
    } else {
      HeedNone(c, o, ch);
    }
  }

  lemma OrderValue(c: Course, p: Parser, open: Mark, ch: char, skip: bool)
    requires c.good && Ordered(c, p) && p.state.HeaderValue? && p.errno.OK? && open == MarkOf(Value)
    requires DispatchValue(p, ch, skip).p.errno.OK?
    ensures OrderKept(Heed(c, open, DispatchValue(p, ch, skip), ch), DispatchValue(p, ch, skip).p)
  {
    hide Heed, DispatchValue, GoesOn, SameCount, IsCrLf, PhaseOf, InHead;
    var o := DispatchValue(p, ch, skip);
    TextTrip(p, ch, skip);
    if IsCrLf(ch) {
      HeedFlush(c, Value, o, ch);
    } else {
      HeedOn(c, Value, o, ch);
    }
  }

  /** A header line that ends in an error. */
  lemma OrderFailed(c: Course, p: Parser, open: Mark, ch: char, skip: bool)
    requires Looking(p, open) && c.good && Ordered(c, p) && !Dispatch(p, ch, skip).p.errno.OK?
    requires p.state.HeaderFieldStart? || p.state.HeaderField? || p.state.HeaderValue? || IsValueEdge(p.state)
    ensures Heed(c, open, Dispatch(p, ch, skip), ch).good
  {
    hide Heed, Dispatch, PhaseOf, Sound;
    var o := Dispatch(p, ch, skip);
    OpenIn(p, open);
    Phases(p.state);
    PlainHeader(p, ch, skip);
    if p.state.HeaderFieldStart? { StartMarks(p, ch, skip); }
    HeedGood(c, open, o, ch);
  }

  lemma PlainHeader(p: Parser, ch: char, skip: bool)
    requires p.state.HeaderFieldStart? || p.state.HeaderField? || p.state.HeaderValue? || IsValueEdge(p.state)
    ensures NoHead(Dispatch(p, ch, skip).events)
  {
    PlainTrip(p, ch, skip);
    hide Dispatch;
  }

  lemma StartMarks(p: Parser, ch: char, skip: bool)
    requires p.state.HeaderFieldStart?
    ensures Dispatch(p, ch, skip).mark != MarkOf(Value)
  {
    hide Descends, Token, FirstHeaderState;
  }

  lemma OrderHeader(c: Course, p: Parser, open: Mark, ch: char, skip: bool)
    requires Looking(p, open) && c.good && Ordered(c, p) && Dispatch(p, ch, skip).p.errno.OK?
    requires p.state.HeaderFieldStart? || p.state.HeaderField? || p.state.HeaderValue? || IsValueEdge(p.state)
    ensures OrderKept(Heed(c, open, Dispatch(p, ch, skip), ch), Dispatch(p, ch, skip).p)
  {
    hide Sound, Ordered, OrderKept, Heed, Descends, DispatchFieldStart, DispatchField, DispatchValue,
      DispatchValueEdges;
    OpenIn(p, open);
    var s := p.state;
    if s.HeaderFieldStart? { OrderFieldStart(c, p, open, ch); }
    else if s.HeaderField? { OrderField(c, p, open, ch); }
    else if s.HeaderValue? { OrderValue(c, p, open, ch, skip); }
    else if BeforeValue(s) { OrderBefore(c, p, open, ch); }
    else { OrderBehind(c, p, open, ch); }
  }

  lemma OrderLine(c: Course, p: Parser, open: Mark, o: Outcome, ch: char)
    requires PhaseOf(p.state).FirstLine? && c.good && Ordered(c, p) && IsLineMark(open) && LineTrip(o)
    ensures OrderKept(Heed(c, open, o, ch), o.p)
  {
    HeedLine(c, open, o, ch);
    hide Heed, PhaseOf;
  }

  // ---------------------------------------------------------------- the end of the headers, and bodies

  lemma OrderAlmostDone(c: Course, p: Parser, open: Mark, ch: char)
    requires c.good && Ordered(c, p) && p.state.HeadersAlmostDone? && p.errno.OK? && open.NoMark?
    ensures OrderKept(Heed(c, open, DispatchHeadersDone(p, ch), ch), DispatchHeadersDone(p, ch).p)
  {
    hide Heed, DispatchHeadersDone, FirstText;
    AlmostDoneTrips(p, ch);
    var o := DispatchHeadersDone(p, ch);
    Phases(p.state);
    if !o.p.errno.OK? {
      HeedError(c, open, o, ch);
    } else {
      HeedEvent(c, o, o.events[0], ch);
      assert PhaseOf(o.p.state).BetweenLines?;
    }
  }

  predicate BodyTrip(o: Outcome) {
    AtMostBody(o.mark) && NoHead(o.events) &&
    (o.p.errno.OK? ==> PhaseOf(o.p.state).FirstLine? || PhaseOf(o.p.state).BetweenLines?)
  }

  lemma DoneBody(p: Parser, ch: char)
    requires p.state.HeadersDone?
    ensures BodyTrip(DispatchHeadersDone(p, ch))
  {
    hide Descends, MessageNeedsEof, ShouldKeepAlive;
  }

  lemma ChunkBody(p: Parser, ch: char)
    requires IsChunkState(p.state)
    ensures BodyTrip(DispatchChunk(p, ch))
  {
    ChunkDigitFrame(p, ch);
    hide Descends, Unhex, ChunkDigit;
  }

  lemma PlainBody(p: Parser, ch: char)
    requires p.state.BodyIdentity? || p.state.BodyIdentityEof? || p.state.MessageDone?
    ensures BodyTrip(DispatchBody(p, ch))
  {
    hide Descends, ShouldKeepAlive;
  }

  lemma BodyTrips(p: Parser, ch: char, skip: bool)
    requires NearBody(p.state) && !p.state.HeadersAlmostDone?
    ensures BodyTrip(Dispatch(p, ch, skip))
  {
    hide Descends, BodyTrip, DispatchHeadersDone, DispatchChunk, DispatchBody, DispatchStart, DispatchMethod,
      DispatchUrl, DispatchRequestVersion, DispatchResponseLine, DispatchFieldStart, DispatchField, DispatchValue,
      DispatchValueEdges;
    if p.state.HeadersDone? { DoneBody(p, ch); }
    else if IsChunkState(p.state) { ChunkBody(p, ch); }
    else { PlainBody(p, ch); }
  }

  lemma OpenNearBody(p: Parser, open: Mark)
    requires Looking(p, open) && NearBody(p.state)
    ensures AtMostBody(open) && PhaseOf(p.state).BetweenLines?
  {
    hide Widths, FieldIndex, ValueIndex, MethodString;
  }

  // ---------------------------------------------------------------- every trip

  /** Every trip, of whichever message, keeps the order. */
  lemma TripOrdered(c: Course, p: Parser, open: Mark, ch: char, skip: bool)
    requires Looking(p, open) && c.good && Ordered(c, p)
    ensures OrderKept(Heed(c, open, Dispatch(p, ch, skip), ch), Dispatch(p, ch, skip).p)
  {
    hide Sound, Heed, Dispatch, LineTrip, Ordered, PhaseOf, BodyTrip;
    var o := Dispatch(p, ch, skip);
    if IsLineState(p.state) {
      LineTrips(p, ch, skip);
      OpenLine(p, open);
      FirstPhase(p.state);
      OrderLine(c, p, open, o, ch);
    } else if p.state.HeadersAlmostDone? {
      OpenIn(p, open);
      AlmostDispatch(p, ch, skip);
      OrderAlmostDone(c, p, open, ch);
    } else if NearBody(p.state) {
      BodyOrder(c, p, open, ch, skip);
    } else if o.p.errno.OK? {
      OrderHeader(c, p, open, ch, skip);
    } else {
      OrderFailed(c, p, open, ch, skip);
    }
  }

  lemma AlmostDispatch(p: Parser, ch: char, skip: bool)
    requires p.state.HeadersAlmostDone?
    ensures Dispatch(p, ch, skip) == DispatchHeadersDone(p, ch)
  {
    hide Descends, DispatchHeadersDone;
  }

  lemma BodyOrder(c: Course, p: Parser, open: Mark, ch: char, skip: bool)
    requires Looking(p, open) && c.good && Ordered(c, p) && NearBody(p.state) && !p.state.HeadersAlmostDone?
    ensures OrderKept(Heed(c, open, Dispatch(p, ch, skip), ch), Dispatch(p, ch, skip).p)
  {
    hide Sound, Heed, Dispatch, PhaseOf;
    var o := Dispatch(p, ch, skip);
    OpenNearBody(p, open);
    BodyTrips(p, ch, skip);
    HeedBodyLines(c, open, o, ch);
    if o.p.errno.OK? { SameOrder(c, p, Heed(c, open, o, ch), o.p); }
  }

  /** Every trip keeps the course fitting: a value for each name in every message, and for the
      first message the length. */
  lemma TripFits(c: Course, p: Parser, open: Mark, ch: char, skip: bool)
    requires Looking(p, open) && Fits(c, p)
    ensures Fits(Heed(c, open, Dispatch(p, ch, skip), ch), Dispatch(p, ch, skip).p)
  {
    TripOrdered(c, p, open, ch, skip);
    TripCounted(c, p, open, ch, skip);
    hide Heed, Dispatch, Ordered, Counted, Sound;
  }
}
