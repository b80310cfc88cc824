/** The course of every run: what the callbacks of the parser promise to HttpResponse, whatever the
    bytes and however they are cut. */
module HttpHeard {
  import opened HttpTypes
  import opened HttpAutomaton
  import opened HttpScan
  import opened HttpRuns
  import opened HttpInvariant
  import opened HttpPieces
  import opened HttpFragments
  import opened HttpLength
  import opened HttpReads
  import opened HttpResponses
  import opened HttpLimit
  import opened HttpEndToEnd
  import opened HttpCourse
  import opened HttpHeed
  import opened HttpOrder

  /** The course of a scan, with the data of the open mark. */
  function CourseOf(c: Course, sc: Scan): Course {
    var d := FollowAll(c, sc.out);
    if sc.pend.Since? then FollowData(d, sc.pend.kind, sc.pend.bytes) else d
  }

  lemma FollowDataEvent(c: Course, k: DataKind, s: string)
    ensures Follow(c, Data(k, s)) == FollowData(c, k, s)
  {
  }

  lemma MarkFollows(c: Course, sc: Scan, mark: Mark)
    requires mark.MarkOf? ==> OpenOf(sc.pend).NoMark? || OpenOf(sc.pend).kind == mark.kind
    ensures CourseOf(c, SetMark(sc, mark)) ==
            if sc.pend.Nothing? && mark.MarkOf? then FollowData(CourseOf(c, sc), mark.kind, "") else CourseOf(c, sc)
  {
    hide FollowAll, FollowData;
  }

  lemma FlushFollows(c: Course, sc: Scan, flush: Flush, ch: char)
    ensures CourseOf(c, CallbackData(sc, flush, ch)) ==
            if flush.Through? && OpenOf(sc.pend) == MarkOf(flush.kind)
               then FollowData(CourseOf(c, sc), flush.kind, [ch])
            else CourseOf(c, sc)
  {
    hide FollowAll, FollowData, Follow;
    if !flush.NoFlush? && sc.pend.Since? && sc.pend.kind == flush.kind {
      var bytes := if flush.Through? then sc.pend.bytes + [ch] else sc.pend.bytes;
      FollowSnoc(c, sc.out, Data(sc.pend.kind, bytes));
      FollowDataEvent(FollowAll(c, sc.out), sc.pend.kind, bytes);
      FollowTwice(FollowAll(c, sc.out), sc.pend.kind, sc.pend.bytes, [ch]);
    }
  }

  lemma EventsFollow(c: Course, sc: Scan, events: seq<Event>)
    requires events != [] ==> sc.pend.Nothing?
    ensures CourseOf(c, sc.(out := sc.out + events)) == FollowAll(CourseOf(c, sc), events)
  {
    FollowConcat(c, sc.out, events);
    if events == [] {
      assert sc.out + events == sc.out;
      FollowOne(CourseOf(c, sc), MessageBegin);
    }
    hide FollowAll, FollowData;
  }

  lemma AdvanceFollows(c: Course, sc: Scan, ch: char)
    ensures CourseOf(c, Advance(sc, ch)) ==
            if sc.pend.Since? then FollowData(CourseOf(c, sc), sc.pend.kind, [ch]) else CourseOf(c, sc)
  {
    if sc.pend.Since? { FollowTwice(FollowAll(c, sc.out), sc.pend.kind, sc.pend.bytes, [ch]); }
    hide FollowAll, FollowData;
  }

  lemma CourseFrame(c: Course, a: Scan, b: Scan)
    requires a.out == b.out && a.pend == b.pend
    ensures CourseOf(c, a) == CourseOf(c, b)
  {
    hide FollowAll, FollowData;
  }

  /** One trip changes the course of the scan as Heed says. */
  lemma ApplyFollows(c: Course, sc: Scan, o: Outcome, ch: char)
    requires o.mark.MarkOf? ==> OpenOf(sc.pend).NoMark? || OpenOf(sc.pend).kind == o.mark.kind
    requires o.events != [] ==> OpenAfter(OpenOf(sc.pend), o).NoMark?
    ensures var (r, h) := (Apply(sc, o, ch), Heed(CourseOf(c, sc), OpenOf(sc.pend), o, ch));
            if o.ctl.Again? || !o.p.errno.OK? then CourseOf(c, r) == h else CourseOf(c, Advance(r, ch)) == h
  {
    var s0 := sc.(p := o.p);
    var s1 := SetMark(s0, o.mark);
    var s2 := CallbackData(s1, o.flush, ch);
    var s3 := s2.(out := s2.out + o.events);
    ApplyOpens(sc, o, ch);
    ApplyOut(sc, o, ch);
    CourseFrame(c, s0, sc);
    MarkFollows(c, s0, o.mark);
    FlushFollows(c, s1, o.flush, ch);
    EventsFollow(c, s2, o.events);
    CourseFrame(c, Apply(sc, o, ch), s3);
    AdvanceFollows(c, Apply(sc, o, ch), ch);
    hide FollowAll, FollowData, Advance, Apply, CourseOf;
  }

  lemma TripsFit(c: Course, sc: Scan, ch: char)
    requires ScanSound(sc, 1) && sc.p.errno.OK? && Fits(CourseOf(c, sc), sc.p)
    ensures Fits(CourseOf(c, Trips(sc, ch)), Trips(sc, ch).p)
    decreases Rank(sc.p.state)
  {
    hide Dispatch, Apply, Advance, CourseOf, Heed, StateFits, Widths, Fits, Rank;
    var o := Dispatch(sc.p, ch, sc.skip);
    var sc' := Apply(sc, o, ch);
    TripKeepsSound(sc.p, OpenOf(sc.pend), ch, sc.skip);
    EventsUnmarked(sc.p, OpenOf(sc.pend), ch, sc.skip);
    TripFits(CourseOf(c, sc), sc.p, OpenOf(sc.pend), ch, sc.skip);
    ApplyOpens(sc, o, ch);
    ApplyFollows(c, sc, o, ch);
    AdvanceFrame(sc', ch);
    CourseFrame(c, Advance(sc', ch).(halted := true), Advance(sc', ch));
    if o.p.errno.OK? && o.ctl.Again? { TripsFit(c, sc', ch); }
  }

  /** The fits do not look at nread. */
  lemma NreadFits(c: Course, p: Parser, n: nat)
    requires Fits(c, p)
    ensures Fits(c, p.(nread := n))
  {
    NreadLined(c, p, n);
    hide PhaseOf, Lined, NearBody, Lengths;
  }

  lemma NreadLined(c: Course, p: Parser, n: nat)
    ensures Lined(c, p.(nread := n)) <==> Lined(c, p)
  {
    hide PhaseOf, Naming, Paired, FindName, IsLength, Last, SameName;
  }

  lemma CountFits(c: Course, p: Parser)
    requires Fits(c, p)
    ensures Fits(c, Count(p))
  {
    CountNread(p);
    NreadFits(c, p, Count(p).nread);
    hide Fits, Count;
  }

  lemma CountNread(p: Parser)
    ensures Count(p) == p.(nread := Count(p).nread)
  {
  }

  lemma {:induction false} ScanFits(c: Course, sc: Scan, s: string)
    requires ScanSound(sc, 0) && Fits(CourseOf(c, sc), sc.p)
    ensures ScanSound(ScanAll(sc, s), 0) && Fits(CourseOf(c, ScanAll(sc, s)), ScanAll(sc, s).p)
  {
    ScanAllSound(sc, s);
    if s != "" {
      ScanFits(c, sc, s[..|s| - 1]);
      var sc' := ScanAll(sc, s[..|s| - 1]);
      if Live(sc') {
        CountSound(sc'.p, OpenOf(sc'.pend));
        CountFits(CourseOf(c, sc'), sc'.p);
        CourseFrame(c, sc'.(p := Count(sc'.p)), sc');
        CountFrame(sc'.p);
        TripsFit(c, sc'.(p := Count(sc'.p)), s[|s| - 1]);
      }
    }
    hide Trips, Count, Sound, Fits, CourseOf;
  }

  lemma FlushCourse(c: Course, sc: Scan)
    ensures FollowAll(c, FlushPending(sc)) == CourseOf(c, sc)
  {
    hide FollowAll, Follow, FollowData;
    if sc.pend.Since? {
      FollowSnoc(c, sc.out, Data(sc.pend.kind, sc.pend.bytes));
      FollowDataEvent(FollowAll(c, sc.out), sc.pend.kind, sc.pend.bytes);
    }
  }

  lemma StopCourse(c: Course, sc: Scan)
    requires Fits(CourseOf(c, sc), sc.p) && (sc.pend.Nothing? || !sc.p.errno.OK?)
    ensures Fits(FollowAll(c, sc.out), sc.p)
  {
    if sc.pend.Since? { DropFits(FollowAll(c, sc.out), sc.p, sc.pend.kind, sc.pend.bytes); }
    hide FollowAll, FollowData, Fits;
  }

  lemma CloseFits(c: Course, sc: Scan)
    requires Fits(CourseOf(c, sc), sc.p) && (!Live(sc) ==> sc.pend.Nothing? || !sc.p.errno.OK?)
    ensures Fits(FollowAll(c, Close(sc).out), Close(sc).p)
  {
    hide FollowAll, Fits, CourseOf, FlushPending;
    if Live(sc) {
      NreadFits(CourseOf(c, sc), sc.p, sc.p.nread + 1);
      FlushCourse(c, sc);
    } else {
      StopCourse(c, sc);
    }
  }

  /** Data that is not delivered, because of an error, was not needed. */
  lemma DropFits(c: Course, p: Parser, k: DataKind, s: string)
    requires Fits(FollowData(c, k, s), p) && !p.errno.OK?
    ensures Fits(c, p)
  {
    hide Lined, IsLength, Glue, Ordered;
  }

  lemma EndFits(c: Course, p: Parser)
    requires Fits(c, p) && p.errno.OK?
    ensures Fits(FollowAll(c, EndOfStream(p).out), EndOfStream(p).p)
  {
    FollowOne(c, MessageComplete);
    hide FollowAll, Lined, Bodied, Lengths, InHead, PhaseOf;
  }

  /** A new buffer opens the mark again. */
  lemma OpenFollows(c: Course, p: Parser)
    requires Fits(c, p) && p.errno.OK?
    ensures CourseOf(c, Open(p)) == c
  {
    OpenIs(p);
    FollowOne(c, MessageBegin);
    if InitialMark(p).MarkOf? { MarkAgain(c, p); }
    hide FollowAll, FollowData, Ordered, Counted;
  }

  lemma GlueNothing(texts: seq<string>)
    requires texts != []
    ensures Glue(texts, true, "") == texts
  {
    assert texts[|texts| - 1] + "" == texts[|texts| - 1];
  }

  lemma MarkAgain(c: Course, p: Parser)
    requires c.good && Ordered(c, p) && InitialMark(p).MarkOf?
    ensures FollowData(c, InitialMark(p).kind, "") == c
  {
    Phases(p.state);
    if c.fields != [] { GlueNothing(c.fields); }
    if c.values != [] { GlueNothing(c.values); }
    hide PhaseOf, Glue;
  }

  lemma FeedFits(c: Course, p: Parser, data: string)
    requires Valid(p) && Fits(c, p)
    ensures Fits(FollowAll(c, Feed(p, data).out), Feed(p, data).p)
  {
    if !p.errno.OK? {
      FollowOne(c, MessageBegin);
    } else if data == "" {
      EndIsFeed(p);
      EndFits(c, p);
    } else {
      OpenFits(p);
      OpenIs(p);
      OpenFollows(c, p);
      ScanFits(c, Open(p), data);
      PrefixSound(p, data, |data|);
      FeedIsClose(p, data);
      assert data[..|data|] == data;
      CloseFits(c, Prefix(p, data, |data|));
    }
    hide Open, ScanAll, Close, Fits, FollowAll, Sound, EndOfStream, CourseOf, SkipsGeneral;
  }

  lemma {:induction false} FeedAllFits(p: Parser, c: Course, pieces: seq<string>)
    requires Valid(p) && Fits(c, p)
    ensures var r := FeedAll(p, pieces); Valid(r.p) && Fits(FollowAll(c, r.out), r.p)
  {
    FeedAllKeepsValid(p, pieces);
    if pieces == [] {
      FollowOne(c, MessageBegin);
    } else {
      var front, last := pieces[..|pieces| - 1], pieces[|pieces| - 1];
      FeedAllFits(p, c, front);
      var r := FeedAll(p, front);
      FeedFits(FollowAll(c, r.out), r.p, last);
      FollowConcat(c, r.out, Feed(r.p, last).out);
    }
    hide Feed, Valid, Fits, FollowAll;
  }

  lemma StartFits(kind: MessageKind)
    ensures Valid(Init(kind)) && Fits(SILENCE, Init(kind))
  {
    hide IsLength;
  }

  // ---------------------------------------------------------------- no empty body

  /** A mark for a body set in a trip takes at least the byte of the trip. */
  predicate Fills(o: Outcome) {
    (o.mark == MarkOf(Body) ==> o.flush == Through(Body) || (o.flush.NoFlush? && (o.ctl.Again? ==> !o.p.errno.OK?))) &&
    forall i | 0 <= i < |o.events| :: !o.events[i].Data?
  }

  lemma ChunkFills(p: Parser, ch: char)
    requires IsChunkState(p.state)
    ensures Fills(DispatchChunk(p, ch))
  {
    ChunkDigitFrame(p, ch);
    hide Descends, Unhex, ChunkDigit;
  }

  lemma BodyFills(p: Parser, ch: char)
    requires p.state.BodyIdentity? || p.state.BodyIdentityEof? || p.state.MessageDone?
    ensures Fills(DispatchBody(p, ch))
  {
    hide Descends, ShouldKeepAlive;
  }

  lemma DoneFills(p: Parser, ch: char)
    requires p.state.HeadersAlmostDone? || p.state.HeadersDone?
    ensures Fills(DispatchHeadersDone(p, ch))
  {
    hide Descends, MessageNeedsEof, ShouldKeepAlive;
  }

  lemma PlainFills(p: Parser, o: Outcome)
    requires Plain(p, o)
    ensures Fills(o)
  {
  }

  lemma TripFills(p: Parser, ch: char, skip: bool)
    ensures Fills(Dispatch(p, ch, skip))
  {
    hide Descends, Fills, DispatchHeadersDone, DispatchChunk, DispatchBody, DispatchStart, DispatchMethod,
      DispatchUrl, DispatchRequestVersion, DispatchResponseLine, DispatchFieldStart, DispatchField, DispatchValue,
      DispatchValueEdges, Plain;
    if !NearBody(p.state) {
      PlainTrip(p, ch, skip);
      PlainFills(p, Dispatch(p, ch, skip));
    } else if p.state.HeadersAlmostDone? || p.state.HeadersDone? {
      DoneFills(p, ch);
    } else if IsChunkState(p.state) {
      ChunkFills(p, ch);
    } else {
      BodyFills(p, ch);
    }
  }

  predicate Held(sc: Scan) {
    NoEmptyBody(sc.out) && (sc.p.errno.OK? && sc.pend.Since? && sc.pend.kind.Body? ==> sc.pend.bytes != "")
  }

  lemma AddHeld(out: seq<Event>, more: seq<Event>)
    requires NoEmptyBody(out) && NoEmptyBody(more)
    ensures NoEmptyBody(out + more)
  {
  }

  lemma ApplyHeld(sc: Scan, o: Outcome, ch: char)
    requires Held(sc) && sc.p.errno.OK? && Fills(o)
    ensures var r := Apply(sc, o, ch);
            NoEmptyBody(r.out) && (r.p.errno.OK? ==> o.p.errno.OK?) && if o.ctl.Again? then Held(r)
            else Held(Advance(r, ch))
  {
    var s1 := SetMark(sc.(p := o.p), o.mark);
    var s2 := CallbackData(s1, o.flush, ch);
    assert NoEmptyBody(s2.out);
    AddHeld(s2.out, o.events);
  }

  lemma TripsHeld(sc: Scan, ch: char)
    requires Held(sc) && sc.p.errno.OK?
    ensures Held(Trips(sc, ch))
    decreases Rank(sc.p.state)
  {
    hide Dispatch, Apply, Advance, Held, Fills, IsBulk, MayHoldMark, Rank;
    var o := Dispatch(sc.p, ch, sc.skip);
    assert Descends(sc.p, o);
    TripFills(sc.p, ch, sc.skip);
    ApplyHeld(sc, o, ch);
    ApplyFrame(sc, o, ch);
    FailedHeld(Apply(sc, o, ch));
    HaltHeld(Advance(Apply(sc, o, ch), ch));
    if Apply(sc, o, ch).p.errno.OK? && o.ctl.Again? { TripsHeld(Apply(sc, o, ch), ch); }
  }

  lemma FailedHeld(sc: Scan)
    ensures NoEmptyBody(sc.out) && !sc.p.errno.OK? ==> Held(sc)
  {
  }

  lemma HaltHeld(sc: Scan)
    ensures Held(sc.(halted := true)) == Held(sc)
    ensures Held(sc.(p := Count(sc.p))) == Held(sc)
  {
  }

  lemma {:induction false} ScanHeld(sc: Scan, s: string)
    requires Held(sc)
    ensures Held(ScanAll(sc, s))
  {
    if s != "" {
      ScanHeld(sc, s[..|s| - 1]);
      var sc' := ScanAll(sc, s[..|s| - 1]);
      HaltHeld(sc');
      CountFrame(sc'.p);
      if Live(sc') { TripsHeld(sc'.(p := Count(sc'.p)), s[|s| - 1]); }
    }
    hide Trips, Count, Held;
  }

  lemma CloseHeld(sc: Scan)
    requires Held(sc)
    ensures NoEmptyBody(Close(sc).out)
  {
    if sc.pend.Since? && Live(sc) { AddHeld(sc.out, [Data(sc.pend.kind, sc.pend.bytes)]); }
  }

  lemma OpenHeld(p: Parser)
    ensures Held(Open(p))
  {
    OpenIs(p);
  }

  lemma FeedHeld(p: Parser, data: string)
    ensures NoEmptyBody(Feed(p, data).out)
  {
    OpenHeld(p);
    ScanHeld(Open(p), data);
    CloseHeld(ScanAll(Open(p), data));
    hide Open, ScanAll, Close, Held;
  }

  /** No body callback of any run, from any parser, gets an empty fragment. */
  lemma {:induction false} FeedAllHeld(p: Parser, pieces: seq<string>)
    ensures NoEmptyBody(FeedAll(p, pieces).out)
  {
    if pieces != [] {
      var front, last := pieces[..|pieces| - 1], pieces[|pieces| - 1];
      FeedAllHeld(p, front);
      FeedHeld(FeedAll(p, front).p, last);
      AddHeld(FeedAll(p, front).out, Feed(FeedAll(p, front).p, last).out);
    }
    hide Feed, NoEmptyBody;
  }
}
