/** Fragmentation independence: http_parser_execute gives the same parser and the same data
    however the stream is cut into buffers. */
module HttpFragments {
  import opened HttpTypes
  import opened HttpAutomaton
  import opened HttpScan
  import opened HttpRuns
  import opened HttpInvariant
  import opened HttpTrace
  import opened HttpNread
  import opened HttpPieces

  /** The joined trace, with the data of the open mark. */
  function SeenOf(t: seq<Event>, out: seq<Event>, pend: Pending): seq<Event> {
    var j := JoinOnto(t, out);
    if pend.Nothing? then j else Emit(j, Data(pend.kind, pend.bytes))
  }

  function Seen(t: seq<Event>, sc: Scan): seq<Event> { SeenOf(t, sc.out, sc.pend) }

  predicate InBodyState(s: State) { s.BodyIdentity? || s.BodyIdentityEof? || s.ChunkData? || s.ChunkDataAlmostDone? }

  /** The open marks of a scan and of one whose buffer started later: the same, but a body
      mark is not set again at the start of a buffer. */
  predicate MarksAgree(s: State, a: Pending, b: Pending) {
    OpenOf(a) == OpenOf(b) || (InBodyState(s) && b.Nothing? && OpenOf(a) == MarkOf(Body))
  }

  /** Two scans that have read the same bytes since the traces t and u. */
  predicate Agree(t: seq<Event>, a: Scan, u: seq<Event>, b: Scan) {
    Alike(a.p, b.p) && a.halted == b.halted && MarksAgree(a.p.state, a.pend, b.pend) && Seen(t, a) == Seen(u, b)
  }

  lemma SetMarkAgrees(t: seq<Event>, a: Scan, u: seq<Event>, b: Scan, mark: Mark)
    requires OpenOf(a.pend) == OpenOf(b.pend) || (b.pend.Nothing? && OpenOf(a.pend) == mark)
    requires mark.MarkOf? ==> OpenOf(a.pend).NoMark? || OpenOf(a.pend).kind == mark.kind
    requires Seen(t, a) == Seen(u, b)
    ensures var (a', b') := (SetMark(a, mark), SetMark(b, mark));
            OpenOf(a'.pend) == OpenOf(b'.pend) && Seen(t, a') == Seen(u, b')
  {
    hide Emit, JoinOnto;
    if a.pend.Since? && b.pend.Nothing? {
      EmitEmpty(JoinOnto(t, a.out), a.pend.kind, a.pend.bytes);
    }
  }

  lemma FlushSeen(t: seq<Event>, sc: Scan, flush: Flush, ch: char)
    requires sc.pend.Since? && !flush.NoFlush? && flush.kind == sc.pend.kind
    ensures var r := CallbackData(sc, flush, ch);
            r.pend.Nothing? &&
            Seen(t, r) == if flush.Through? then Emit(Seen(t, sc), Data(sc.pend.kind, [ch])) else Seen(t, sc)
  {
    hide Emit, JoinOnto;
    JoinSnoc(t, sc.out, Data(sc.pend.kind, if flush.Through? then sc.pend.bytes + [ch] else sc.pend.bytes));
    EmitSplit(JoinOnto(t, sc.out), sc.pend.kind, sc.pend.bytes, [ch]);
  }

  lemma FlushAgrees(t: seq<Event>, a: Scan, u: seq<Event>, b: Scan, flush: Flush, ch: char)
    requires OpenOf(a.pend) == OpenOf(b.pend) ||
             (b.pend.Nothing? && flush.UpTo? && OpenOf(a.pend) == MarkOf(flush.kind))
    requires Seen(t, a) == Seen(u, b)
    ensures var (a', b') := (CallbackData(a, flush, ch), CallbackData(b, flush, ch));
            OpenOf(a'.pend) == OpenOf(b'.pend) && Seen(t, a') == Seen(u, b')
  {
    hide Seen;
    if !flush.NoFlush? && a.pend.Since? && a.pend.kind == flush.kind {
      FlushSeen(t, a, flush, ch);
      if b.pend.Since? { FlushSeen(u, b, flush, ch); }
    }
  }

  lemma EventsAgree(t: seq<Event>, a: Scan, u: seq<Event>, b: Scan, events: seq<Event>)
    requires OpenOf(a.pend) == OpenOf(b.pend) && Seen(t, a) == Seen(u, b)
    requires events != [] ==> a.pend.Nothing?
    ensures Seen(t, a.(out := a.out + events)) == Seen(u, b.(out := b.out + events))
  {
    hide Emit, JoinOnto;
    if events == [] {
      assert a.out + events == a.out && b.out + events == b.out;
    } else {
      JoinConcat(t, a.out, events);
      JoinConcat(u, b.out, events);
    }
  }

  lemma AdvanceSeen(t: seq<Event>, sc: Scan, ch: char)
    ensures Seen(t, Advance(sc, ch)) == if sc.pend.Nothing? then Seen(t, sc)
            else Emit(Seen(t, sc), Data(sc.pend.kind, [ch]))
  {
    hide Emit, JoinOnto;
    if sc.pend.Since? {
      EmitSplit(JoinOnto(t, sc.out), sc.pend.kind, sc.pend.bytes, [ch]);
    }
  }

  /** In the body states a trip either sets the body mark or makes its callback. */
  lemma BodyTripMarks(p: Parser, ch: char, skip: bool)
    requires p.errno.OK? && InBodyState(p.state)
    ensures var o := Dispatch(p, ch, skip);
            o.p.errno.OK? ==> o.mark == MarkOf(Body) || (o.mark.NoMark? && o.flush == UpTo(Body) && !o.flush.Through?)
  {
    hide Descends;
  }

  lemma EventsUnmarked(p: Parser, open: Mark, ch: char, skip: bool)
    requires Looking(p, open)
    ensures var o := Dispatch(p, ch, skip);
            o.events != [] ==> OpenAfter(open, o).NoMark?
  {
    hide Dispatch, Widths, FieldIndex, ValueIndex;
    assert Descends(p, Dispatch(p, ch, skip));
  }

  lemma ApplyAgrees(t: seq<Event>, a: Scan, u: seq<Event>, b: Scan, oa: Outcome, ob: Outcome, ch: char)
    requires AlikeTrips(oa, ob) && Seen(t, a) == Seen(u, b) && a.halted == b.halted
    requires OpenOf(a.pend) == OpenOf(b.pend) ||
             (b.pend.Nothing? && OpenOf(a.pend) == MarkOf(Body) &&
              (oa.mark == MarkOf(Body) || (oa.mark.NoMark? && oa.flush == UpTo(Body))))
    requires oa.mark.MarkOf? ==> OpenOf(a.pend).NoMark? || OpenOf(a.pend).kind == oa.mark.kind
    requires oa.events != [] ==> OpenAfter(OpenOf(a.pend), oa).NoMark?
    ensures var (a', b') := (Apply(a, oa, ch), Apply(b, ob, ch));
            a'.p == oa.p && b'.p == ob.p && a'.halted == b'.halted &&
            OpenOf(a'.pend) == OpenOf(b'.pend) && Seen(t, a') == Seen(u, b')
  {
    var a0, b0 := a.(p := oa.p), b.(p := ob.p);
    var a1, b1 := SetMark(a0, oa.mark), SetMark(b0, ob.mark);
    var a2, b2 := CallbackData(a1, oa.flush, ch), CallbackData(b1, ob.flush, ch);
    ApplyOpens(a, oa, ch);
    ApplyOpens(b, ob, ch);
    if OpenOf(a.pend) == OpenOf(b.pend) || oa.mark.MarkOf? {
      SetMarkAgrees(t, a0, u, b0, oa.mark);
    }
    FlushAgrees(t, a1, u, b1, oa.flush, ch);
    EventsAgree(t, a2, u, b2, oa.events);
    hide SeenOf;
  }

  /** Sound scans about to look at the byte `ch`, of which only one may have been cut. */
  predicate SameView(t: seq<Event>, a: Scan, u: seq<Event>, b: Scan, ch: char) {
    Agree(t, a, u, b) && ScanSound(a, 1) && ScanSound(b, 1) && a.p.errno.OK? &&
    (a.p.state.HeaderValue? ==> a.skip == b.skip || IsHeaderChar(ch))
  }

  lemma LooksAlike(a: Parser, b: Parser, openA: Mark, openB: Mark)
    requires Alike(a, b) && Looking(a, openA) && Looking(b, openB)
    ensures a.state.ChunkSizeStart? ==> a.nread == b.nread
  {
    hide Widths, FieldIndex, ValueIndex;
  }

  /** One trip of both scans. */
  lemma TripAgrees(t: seq<Event>, a: Scan, u: seq<Event>, b: Scan, ch: char)
    requires SameView(t, a, u, b, ch)
    ensures var (oa, ob) := (Dispatch(a.p, ch, a.skip), Dispatch(b.p, ch, b.skip));
            var (a', b') := (Apply(a, oa, ch), Apply(b, ob, ch));
            AlikeTrips(oa, ob) && a'.p == oa.p && b'.p == ob.p &&
            (oa.p.errno.OK? ==>
               Agree(t, a', u, b') && OpenOf(a'.pend) == OpenOf(b'.pend) &&
               ScanSound(a', if oa.ctl.Again? then 1 else 0) &&
               (oa.ctl.Again? ==> SameView(t, a', u, b', ch) && Rank(oa.p.state) < Rank(a.p.state)))
  {
    hide Dispatch, Apply, Seen, StateFits, Widths, AlikeTrips;
    var oa, ob := Dispatch(a.p, ch, a.skip), Dispatch(b.p, ch, b.skip);
    assert b.p == a.p.(nread := b.p.nread);
    LooksAlike(a.p, b.p, OpenOf(a.pend), OpenOf(b.pend));
    LikeTrip(a.p, ch, a.skip, b.skip, b.p.nread);
    AlikeFacts(oa, ob);
    TripKeepsSound(a.p, OpenOf(a.pend), ch, a.skip);
    TripKeepsSound(b.p, OpenOf(b.pend), ch, b.skip);
    ApplyOpens(a, oa, ch);
    ApplyOpens(b, ob, ch);
    EventsUnmarked(a.p, OpenOf(a.pend), ch, a.skip);
    if oa.p.errno.OK? {
      if InBodyState(a.p.state) { BodyTripMarks(a.p, ch, a.skip); }
      ApplyAgrees(t, a, u, b, oa, ob, ch);
      assert Descends(a.p, oa);
    }
  }

  lemma AlikeFacts(a: Outcome, b: Outcome)
    requires AlikeTrips(a, b)
    ensures Alike(a.p, b.p) && a.mark == b.mark && a.flush == b.flush && a.events == b.events && a.ctl == b.ctl
  {
  }

  lemma AdvanceAgrees(t: seq<Event>, a: Scan, u: seq<Event>, b: Scan, ch: char)
    requires Agree(t, a, u, b) && OpenOf(a.pend) == OpenOf(b.pend)
    ensures Agree(t, Advance(a, ch), u, Advance(b, ch))
  {
    AdvanceSeen(t, a, ch);
    AdvanceSeen(u, b, ch);
    hide Seen;
  }

  lemma TripsAgree(t: seq<Event>, a: Scan, u: seq<Event>, b: Scan, ch: char)
    requires SameView(t, a, u, b, ch)
    ensures Trips(a, ch).p.errno.OK? ==> Agree(t, Trips(a, ch), u, Trips(b, ch))
    decreases Rank(a.p.state)
  {
    hide Dispatch, Apply, Seen, Sound, AlikeTrips, Advance, Rank, Agree, SameView;
    var oa, ob := Dispatch(a.p, ch, a.skip), Dispatch(b.p, ch, b.skip);
    var a', b' := Apply(a, oa, ch), Apply(b, ob, ch);
    TripAgrees(t, a, u, b, ch);
    AlikeFacts(oa, ob);
    if oa.p.errno.OK? {
      if oa.ctl.Again? {
        TripsAgree(t, a', u, b', ch);
      } else {
        AdvanceAgrees(t, a', u, b', ch);
        HaltAgrees(t, Advance(a', ch), u, Advance(b', ch));
      }
    }
  }

  lemma HaltAgrees(t: seq<Event>, a: Scan, u: seq<Event>, b: Scan)
    requires Agree(t, a, u, b)
    ensures Agree(t, a.(halted := true), u, b.(halted := true))
  {
    hide SeenOf;
  }

  /** memchr skips only in state h_general. */
  predicate SkipsGeneral(sc: Scan) { sc.skip ==> sc.p.state.HeaderValue? && sc.p.headerState.General? }

  lemma ApplySkips(sc: Scan, ch: char)
    ensures var o := Dispatch(sc.p, ch, sc.skip);
            !o.ctl.Again? && Apply(sc, o, ch).p.errno.OK? ==> SkipsGeneral(Apply(sc, o, ch))
  {
    hide Descends, SetConnectionFlag;
  }

  // ---------------------------------------------------------------- whole buffers

  /** The whole buffer is read without an error, to its last byte. */
  predicate Clean(p: Parser, s: string) { Feed(p, s).p.errno.OK? && Feed(p, s).used == |s| }

  /** Every byte of a header value read in state h_general is a header character, also those
      that memchr would skip. */
  ghost predicate HeaderCharsOnly(p: Parser, s: string) {
    forall k: nat | k < |s| :: UncheckedAt(Prefix(p, s, k)) ==> IsHeaderChar(s[k])
  }

  predicate UncheckedAt(sc: Scan) { sc.p.state.HeaderValue? && sc.p.headerState.General? }

  lemma ByteUsed(sc: Scan, ch: char)
    ensures var r := ByteStep(sc, ch); sc.used <= r.used <= sc.used + 1
    ensures var r := ByteStep(sc, ch); Live(sc) ==> r.used == sc.used + if r.p.errno.OK? then 1 else 0
  {
    if Live(sc) {
      TripsUsed(sc.(p := Count(sc.p)), ch);
    }
    hide Trips;
  }

  lemma TripsUsed(sc: Scan, ch: char)
    requires !sc.halted
    ensures var r := Trips(sc, ch); r.used == sc.used + if r.p.errno.OK? then 1 else 0
    ensures var r := Trips(sc, ch); r.p.errno.OK? ==> SkipsGeneral(r)
    decreases Rank(sc.p.state)
  {
    hide Dispatch, Apply;
    var o := Dispatch(sc.p, ch, sc.skip);
    var sc' := Apply(sc, o, ch);
    ApplySkips(sc, ch);
    ApplyFrame(sc, o, ch);
    if sc'.p.errno.OK? && o.ctl.Again? { TripsUsed(sc', ch); }
  }

  lemma ApplyFrame(sc: Scan, o: Outcome, ch: char)
    ensures var r := Apply(sc, o, ch);
            r.used == sc.used && r.halted == sc.halted && r.p.state == o.p.state
  {
  }

  lemma ExitCompletes(p: Parser, ch: char, skip: bool)
    ensures Dispatch(p, ch, skip).ctl.Exit? ==> Dispatch(p, ch, skip).events != []
  {
    hide Dispatch, MayHoldMark, Rank, IsBulk;
    assert Descends(p, Dispatch(p, ch, skip));
  }

  /** An early exit leaves no mark open. */
  lemma TripsHalt(sc: Scan, ch: char)
    requires ScanSound(sc, 1) && sc.p.errno.OK? && !sc.halted
    ensures Trips(sc, ch).halted ==> Trips(sc, ch).pend.Nothing?
    decreases Rank(sc.p.state)
  {
    hide Dispatch, Apply, StateFits, Widths;
    var o := Dispatch(sc.p, ch, sc.skip);
    var sc' := Apply(sc, o, ch);
    TripKeepsSound(sc.p, OpenOf(sc.pend), ch, sc.skip);
    EventsUnmarked(sc.p, OpenOf(sc.pend), ch, sc.skip);
    ExitCompletes(sc.p, ch, sc.skip);
    ApplyOpens(sc, o, ch);
    ApplyFrame(sc, o, ch);
    if o.p.errno.OK? && o.ctl.Again? { TripsHalt(sc', ch); }
  }

  /** What holds after the first k bytes of a buffer. */
  predicate PrefixFits(sc: Scan, k: nat) {
    ScanSound(sc, 0) && sc.used <= k && (Live(sc) ==> sc.used == k) && (sc.p.errno.OK? ==> SkipsGeneral(sc)) &&
    (sc.halted ==> sc.pend.Nothing?)
  }

  lemma ByteFits(sc: Scan, ch: char, k: nat)
    requires PrefixFits(sc, k)
    ensures PrefixFits(ByteStep(sc, ch), k + 1)
  {
    hide Trips, Sound, Count;
    ByteUsed(sc, ch);
    if Live(sc) {
      var sc' := sc.(p := Count(sc.p));
      CountFrame(sc.p);
      CountSound(sc.p, OpenOf(sc.pend));
      TripsSound(sc', ch);
      TripsUsed(sc', ch);
      TripsHalt(sc', ch);
    }
  }

  lemma {:induction false} PrefixSound(p: Parser, s: string, k: nat)
    requires Valid(p) && k <= |s|
    ensures PrefixFits(Prefix(p, s, k), k)
  {
    hide ByteStep, PrefixFits;
    if k == 0 {
      assert s[..0] == "";
      OpenFits(p);
    } else {
      PrefixSound(p, s, k - 1);
      PrefixStep(p, s, k - 1);
      ByteFits(Prefix(p, s, k - 1), s[k - 1], k - 1);
    }
  }

  lemma OpenFits(p: Parser)
    requires Valid(p)
    ensures PrefixFits(Open(p), 0)
  {
    hide StateFits, Widths;
  }

  /** The byte with an error is not counted as read. */
  lemma {:induction false} ErrorUsed(p: Parser, s: string, k: nat)
    requires p.errno.OK? && k <= |s|
    ensures var sc := Prefix(p, s, k); sc.used <= k && (!sc.p.errno.OK? ==> sc.used < k)
  {
    hide ByteStep, ScanAll;
    if k == 0 {
      StartOfPrefix(p, s);
    } else {
      ErrorUsed(p, s, k - 1);
      PrefixStep(p, s, k - 1);
      ByteUsed(Prefix(p, s, k - 1), s[k - 1]);
      if !Live(Prefix(p, s, k - 1)) { DeadStep(Prefix(p, s, k - 1), s[k - 1]); }
    }
  }

  lemma DeadStep(sc: Scan, ch: char)
    requires !Live(sc)
    ensures ByteStep(sc, ch) == sc
  {
  }

  /** A call that reads its whole buffer has met no error. */
  lemma AllUsed(p: Parser, s: string)
    requires p.errno.OK? && s != "" && Feed(p, s).used == |s|
    ensures Clean(p, s)
  {
    hide ScanAll, FlushPending;
    ErrorUsed(p, s, |s|);
    FeedIsClose(p, s);
  }

  /** In a clean run nothing stops before the last byte. */
  lemma CleanPrefix(p: Parser, s: string, k: nat)
    requires Valid(p) && p.errno.OK? && s != "" && Clean(p, s) && k <= |s|
    ensures PrefixFits(Prefix(p, s, k), k)
    ensures Prefix(p, s, k).p.errno.OK? && (k < |s| ==> Live(Prefix(p, s, k)))
  {
    PrefixSound(p, s, k);
    PrefixSound(p, s, |s|);
    assert s[..|s|] == s;
    hide ScanAll, Open, ScanSound, SkipsGeneral, FlushPending;
    if !Live(Prefix(p, s, k)) { Stopped(p, s, k, |s|); }
  }

  // ---------------------------------------------------------------- the next buffer

  /** The same byte read by both scans. */
  lemma ByteAgrees(t: seq<Event>, a: Scan, u: seq<Event>, b: Scan, ch: char, i: nat, j: nat)
    requires Agree(t, a, u, b) && PrefixFits(a, i) && PrefixFits(b, j) && Live(a)
    requires UncheckedAt(a) ==> IsHeaderChar(ch)
    ensures ByteStep(a, ch).p.errno.OK? ==> Agree(t, ByteStep(a, ch), u, ByteStep(b, ch))
  {
    hide Trips, Seen, Sound, IsHeaderChar;
    var a', b' := a.(p := Count(a.p)), b.(p := Count(b.p));
    CountFrame(a.p);
    CountFrame(b.p);
    CountSound(a.p, OpenOf(a.pend));
    CountSound(b.p, OpenOf(b.pend));
    assert Alike(a'.p, b'.p);
    assert Seen(t, a') == Seen(t, a) && Seen(u, b') == Seen(u, b) by { SeenFrame(t, a, a'.p); SeenFrame(u, b, b'.p); }
    TripsAgree(t, a', u, b', ch);
  }

  lemma SeenFrame(t: seq<Event>, sc: Scan, p: Parser)
    ensures Seen(t, sc.(p := p)) == Seen(t, sc)
  {
  }

  /** A buffer cut at i is read on by a second call from a parser like the one at the cut. */
  lemma {:induction false} RunAgrees(t: seq<Event>, p: Parser, u: seq<Event>, q: Parser, s: string, i: nat, k: nat)
    requires Valid(p) && p.errno.OK? && s != "" && Clean(p, s) && HeaderCharsOnly(p, s)
    requires i <= k <= |s| && Valid(q) && Agree(t, Prefix(p, s, i), u, Open(q))
    ensures Agree(t, Prefix(p, s, k), u, Prefix(q, s[i..], k - i))
    decreases k
  {
    hide Clean, ByteStep, Open, Agree, IsHeaderChar, PrefixFits, Live, ScanAll;
    if k == i {
      StartOfPrefix(q, s[i..]);
    } else {
      RunAgrees(t, p, u, q, s, i, k - 1);
      var a, b := Prefix(p, s, k - 1), Prefix(q, s[i..], k - 1 - i);
      CleanPrefix(p, s, k - 1);
      CleanPrefix(p, s, k);
      PrefixSound(q, s[i..], k - 1 - i);
      ByteAgrees(t, a, u, b, s[k - 1], k - 1, k - 1 - i);
      PrefixStep(p, s, k - 1);
      PrefixStep(q, s[i..], k - 1 - i);
    }
  }

  lemma StartOfPrefix(p: Parser, s: string)
    ensures Prefix(p, s, 0) == Open(p)
  {
    assert s[..0] == "";
    hide Open;
  }

  lemma CloseAgrees(t: seq<Event>, a: Scan, u: seq<Event>, b: Scan)
    requires Agree(t, a, u, b) && a.p.errno.OK? && (a.halted ==> a.pend.Nothing?) && (b.halted ==> b.pend.Nothing?)
    ensures Alike(Close(a).p, Close(b).p) && JoinOnto(t, Close(a).out) == JoinOnto(u, Close(b).out)
  {
    CloseSeen(t, a);
    CloseSeen(u, b);
    hide Seen, FlushPending;
  }

  lemma CloseSeen(t: seq<Event>, sc: Scan)
    requires sc.p.errno.OK? && (sc.halted ==> sc.pend.Nothing?)
    ensures JoinOnto(t, Close(sc).out) == Seen(t, sc)
  {
    hide Emit, JoinOnto;
    if sc.pend.Since? { JoinSnoc(t, sc.out, Data(sc.pend.kind, sc.pend.bytes)); }
  }

  lemma FeedIsClose(p: Parser, s: string)
    requires p.errno.OK? && s != ""
    ensures Feed(p, s) == Close(Prefix(p, s, |s|))
  {
    assert s[..|s|] == s;
    hide ScanAll, Close, Open;
  }

  /** A call sets again every mark that was open, except a body mark. */
  lemma MarkSetAgain(p: Parser, open: Mark)
    requires Sound(p, open, 0) && p.errno.OK?
    ensures InitialMark(p) == open || (InitialMark(p).NoMark? && InBodyState(p.state) && open == MarkOf(Body))
  {
    hide Widths, FieldIndex, ValueIndex, MethodString, BodyLengthOk;
  }

  /** The parser after the first i bytes, closed and opened again. */
  lemma ReopenAgrees(sc: Scan, u: seq<Event>, q: Parser, i: nat)
    requires PrefixFits(sc, i) && Live(sc) && Alike(Close(sc).p, q) && u == JoinOnto([], Close(sc).out)
    ensures Agree([], sc, u, Open(q))
  {
    MarkSetAgain(sc.p, OpenOf(sc.pend));
    hide Sound, InitialMark, SkipsGeneral, Emit, FlushPending, InBodyState;
    CloseSeen([], sc);
    assert JoinOnto(u, []) == u;
    hide JoinOnto;
    if sc.pend.Since? { EmitEmpty(JoinOnto([], sc.out), sc.pend.kind, sc.pend.bytes); }
  }

  // ---------------------------------------------------------------- any number of buffers

  /** The same data, the same callbacks up to fragmentation, the same parser except nread. */
  ghost predicate SameRun(r: Result, w: Result) { Alike(r.p, w.p) && Join(r.out) == Join(w.out) && r.used == w.used }

  lemma CleanStart(p: Parser, a: string, b: string)
    requires Valid(p) && p.errno.OK? && a != "" && b != "" && Clean(p, a + b) && HeaderCharsOnly(p, a + b)
    ensures Clean(p, a) && HeaderCharsOnly(p, a) && Live(Prefix(p, a, |a|)) &&
            Prefix(p, a, |a|) == Prefix(p, a + b, |a|)
  {
    hide Feed, UncheckedAt, IsHeaderChar, Open, ScanAll;
    CleanPrefix(p, a + b, |a|);
    assert (a + b)[..|a|] == a == a[..|a|];
    FeedIsClose(p, a);
    forall k: nat | k < |a| ensures UncheckedAt(Prefix(p, a, k)) ==> IsHeaderChar(a[k]) {
      assert (a + b)[..k] == a[..k] && (a + b)[k] == a[k];
    }
  }

  lemma AgreeOk(t: seq<Event>, a: Scan, u: seq<Event>, b: Scan)
    requires Agree(t, a, u, b)
    ensures a.p.errno == b.p.errno && a.halted == b.halted
  {
  }

  lemma LastUsed(p: Parser, s: string)
    requires Valid(p) && s != "" && Live(Prefix(p, s, |s| - 1)) && Prefix(p, s, |s|).p.errno.OK?
    ensures Prefix(p, s, |s|).used == |s|
  {
    PrefixSound(p, s, |s| - 1);
    PrefixStep(p, s, |s| - 1);
    ByteUsed(Prefix(p, s, |s| - 1), s[|s| - 1]);
    hide ByteStep, ScanAll, Open, ScanSound, SkipsGeneral;
  }

  /** One more buffer. */
  lemma CutAgrees(p: Parser, a: string, b: string, q: Parser, u: seq<Event>)
    requires Valid(p) && p.errno.OK? && a != "" && b != "" && Clean(p, a + b) && HeaderCharsOnly(p, a + b)
    requires Valid(q) && Alike(Feed(p, a).p, q) && Join(Feed(p, a).out) == u
    ensures var (r, w) := (Feed(q, b), Feed(p, a + b));
            Alike(w.p, r.p) && JoinOnto(u, r.out) == Join(w.out) && r.used == |b|
  {
    hide Open, ScanAll, Agree, HeaderCharsOnly, Feed, ScanSound, SkipsGeneral, FlushPending;
    var s, i := a + b, |a|;
    CleanStart(p, a, b);
    CleanPrefix(p, s, i);
    FeedIsClose(p, a);
    ReopenAgrees(Prefix(p, s, i), u, q, i);
    RunAgrees([], p, u, q, s, i, |s|);
    assert s[i..] == b;
    CleanPrefix(p, s, |s|);
    PrefixSound(q, b, |b|);
    FeedIsClose(p, s);
    AgreeOk([], Prefix(p, s, |s|), u, Prefix(q, b, |b|));
    RunAgrees([], p, u, q, s, i, |s| - 1);
    CleanPrefix(p, s, |s| - 1);
    AgreeOk([], Prefix(p, s, |s| - 1), u, Prefix(q, b, |b| - 1));
    LastUsed(q, b);
    CloseAgrees([], Prefix(p, s, |s|), u, Prefix(q, b, |b|));
    FeedIsClose(q, b);
  }

  lemma Snoc(p: Parser, front: seq<string>, last: string)
    ensures Flat(front + [last]) == Flat(front) + last
    ensures var (r, w) := (FeedAll(p, front), FeedAll(p, front + [last]));
            var q := Feed(r.p, last);
            w == Result(q.p, r.out + q.out, r.used + q.used)
  {
    assert (front + [last])[..|front|] == front;
    hide Feed;
  }

  lemma FeedNothing(p: Parser)
    ensures FeedAll(p, []) == Result(p, [], 0) && Flat([]) == ""
  {
    hide Feed;
  }

  /** A parser that reports an error reads nothing more. */
  lemma StaysFailed(q: Parser, s: string)
    ensures !q.errno.OK? ==> Feed(q, s) == Result(q, [], 0)
  {
    hide ScanAll, Close;
  }

  lemma OnePiece(p: Parser, s: string)
    ensures Flat([s]) == s && FeedAll(p, [s]) == Feed(p, s)
  {
    Snoc(p, [], s);
    var w := Feed(p, s);
    assert [] + [s] == [s] && "" + s == s && [] + w.out == w.out;
    hide Feed;
  }

  lemma {:induction false} PiecesAgree(p: Parser, pieces: seq<string>)
    requires Valid(p) && p.errno.OK? && NonEmpty(pieces) && pieces != []
    requires Clean(p, Flat(pieces)) && HeaderCharsOnly(p, Flat(pieces))
    ensures SameRun(FeedAll(p, pieces), Feed(p, Flat(pieces)))
  {
    hide Feed, FeedAll, Flat, Clean, HeaderCharsOnly, Join, Valid;
    var front, last := pieces[..|pieces| - 1], pieces[|pieces| - 1];
    assert pieces == front + [last];
    if front == [] {
      OnePiece(p, last);
    } else {
      Snoc(p, front, last);
      FlatNonEmpty(front);
      CleanStart(p, Flat(front), last);
      PiecesAgree(p, front);
      FeedAllKeepsValid(p, front);
      var r := FeedAll(p, front);
      CutAgrees(p, Flat(front), last, r.p, Join(r.out));
      JoinSplit(r.out, Feed(r.p, last).out);
      CleanUsed(p, Flat(front));
      CleanUsed(p, Flat(pieces));
    }
  }

  lemma JoinSplit(a: seq<Event>, b: seq<Event>)
    ensures Join(a + b) == JoinOnto(Join(a), b)
  {
    JoinConcat([], a, b);
  }

  lemma CleanUsed(p: Parser, s: string)
    requires Clean(p, s)
    ensures Feed(p, s).used == |s|
  {
    hide Feed;
  }

  /** A byte that only memchr accepts: the run stops when a buffer begins with it. */
  lemma CutAtUnchecked(p: Parser, s: string, k: nat)
    requires Valid(p) && p.errno.OK? && s != "" && Clean(p, s) && k < |s|
    requires UncheckedAt(Prefix(p, s, k)) && !IsHeaderChar(s[k])
    ensures 0 < k && Cuts([s[..k], s[k..]], s) && FeedAll(p, [s[..k], s[k..]]).p.errno.InvalidHeaderToken?
  {
    hide Feed, ScanAll, ByteStep, Clean, IsHeaderChar;
    if k == 0 {
      StartOfPrefix(p, s);
      UncheckedFails(p, s);
      CleanOk(p, s);
      assert false;
    }
    var a, b := s[..k], s[k..];
    CleanPrefix(p, s, k);
    FeedIsClose(p, a);
    assert a == s[..k] == a[..k];
    var q := Feed(p, a).p;
    FeedKeepsValid(p, a);
    UncheckedFails(q, b);
    TwoPieces(p, a, b);
    assert a + b == s;
  }

  lemma TwoPieces(p: Parser, a: string, b: string)
    ensures Flat([a, b]) == a + b
    ensures FeedAll(p, [a, b]).p == Feed(Feed(p, a).p, b).p
  {
    hide Feed, FeedAll, Flat;
    OnePiece(p, a);
    Snoc(p, [a], b);
    assert [a] + [b] == [a, b];
  }

  lemma UncheckedByte(sc: Scan, ch: char)
    requires Live(sc) && UncheckedAt(sc) && !sc.skip && !IsHeaderChar(ch)
    ensures ByteStep(sc, ch).p.errno.InvalidHeaderToken?
  {
    hide Descends, ValueByte;
    assert Dispatch(Count(sc.p), ch, false) == Fail(Count(sc.p), InvalidHeaderToken);
    hide Dispatch;
  }

  lemma UncheckedFails(p: Parser, s: string)
    requires p.errno.OK? && UncheckedAt(Open(p)) && s != "" && !IsHeaderChar(s[0])
    ensures Feed(p, s).p.errno.InvalidHeaderToken?
  {
    hide ScanAll, FlushPending, ByteStep;
    UncheckedByte(Open(p), s[0]);
    StartOfPrefix(p, s);
    PrefixStep(p, s, 0);
    Stopped(p, s, 1, |s|);
    FeedIsClose(p, s);
  }

  /** The main result. A stream that is read without an error gives the same joined callbacks
      and the same parser, except nread, in every fragmentation exactly when its header values
      hold header characters only: memchr skips the check in the middle of a buffer. */
  lemma FragmentationIndependence(p: Parser, s: string)
    requires Valid(p) && p.errno.OK? && s != "" && Clean(p, s)
    ensures HeaderCharsOnly(p, s) <==>
            forall pieces | Cuts(pieces, s) :: SameRun(FeedAll(p, pieces), Feed(p, s))
  {
    hide Feed, FeedAll, UncheckedAt, IsHeaderChar, Clean, Prefix, Valid;
    if HeaderCharsOnly(p, s) {
      forall pieces | Cuts(pieces, s) ensures SameRun(FeedAll(p, pieces), Feed(p, s)) {
        PiecesAgree(p, pieces);
      }
    } else {
      var k: nat :| k < |s| && UncheckedAt(Prefix(p, s, k)) && !IsHeaderChar(s[k]);
      CutAtUnchecked(p, s, k);
      CleanOk(p, s);
      assert !SameRun(FeedAll(p, [s[..k], s[k..]]), Feed(p, s));
    }
  }

  lemma CleanOk(p: Parser, s: string)
    requires Clean(p, s)
    ensures Feed(p, s).p.errno.OK?
  {
    hide Feed;
  }
}
