/** Reading text: what the automaton has done after a byte or a stretch of bytes whose trips
    are known. The header counter and the position inside inner loops are left out. */
module HttpReads {
  import opened HttpTypes
  import opened HttpAutomaton
  import opened HttpScan
  import opened HttpRuns
  import opened HttpInvariant
  import opened HttpNread

  /** The scan is live and, up to nread, at this parser, with this open data and these callbacks. */
  predicate At(sc: Scan, q: Parser, pend: Pending, out: seq<Event>) {
    Live(sc) && Alike(q, sc.p) && sc.pend == pend && sc.out == out
  }

  function Marked1(pend: Pending, mark: Mark): Pending {
    if mark.NoMark? || pend.Since? then pend else Since(mark.kind, "")
  }

  predicate Flushes(pend: Pending, flush: Flush) { !flush.NoFlush? && pend.Since? && pend.kind == flush.kind }

  /** The open data after a trip, before the pointer moves. */
  function PendOf(pend: Pending, o: Outcome): Pending {
    if Flushes(Marked1(pend, o.mark), o.flush) then Nothing else Marked1(pend, o.mark)
  }

  /** The callbacks after a trip. */
  function OutOf(out: seq<Event>, pend: Pending, o: Outcome, ch: char): seq<Event> {
    var m := Marked1(pend, o.mark);
    (if Flushes(m, o.flush) then out + [Data(m.kind, if o.flush.Through? then m.bytes + [ch] else m.bytes)] else out) +
    o.events
  }

  function Longer(pend: Pending, ch: char): Pending {
    if pend.Nothing? then Nothing else pend.(bytes := pend.bytes + [ch])
  }

  /** A parser whose next trip on `ch` is `o`, whatever nread is. */
  predicate Turns(q: Parser, ch: char, o: Outcome) {
    q.errno.OK? && !q.state.ChunkSizeStart? && (q.state.HeaderValue? ==> IsHeaderChar(ch)) &&
    o == Dispatch(q, ch, false) &&
    o.p.errno.OK?
  }

  predicate Marks(pend: Pending, o: Outcome) { o.mark.MarkOf? ==> pend.Nothing? || pend.kind == o.mark.kind }

  lemma ApplyAt(sc: Scan, q: Parser, pend: Pending, out: seq<Event>, o: Outcome, o': Outcome, ch: char)
    requires sc.pend == pend && sc.out == out && AlikeTrips(o, o') && Marks(pend, o) && Live(sc) && o.p.errno.OK?
    ensures At(Apply(sc, o', ch), o.p, PendOf(pend, o), OutOf(out, pend, o, ch))
  {
  }

  lemma TripAt(sc: Scan, q: Parser, pend: Pending, out: seq<Event>, ch: char, o: Outcome)
    requires At(sc, q, pend, out) && Turns(q, ch, o) && Marks(pend, o)
    ensures var o' := Dispatch(sc.p, ch, sc.skip);
            o'.ctl == o.ctl && At(Apply(sc, o', ch), o.p, PendOf(pend, o), OutOf(out, pend, o, ch))
  {
    hide Dispatch, Apply;
    LikeTrip(q, ch, false, sc.skip, sc.p.nread);
    ApplyAt(sc, q, pend, out, o, Dispatch(sc.p, ch, sc.skip), ch);
  }

  lemma AdvanceAt(sc: Scan, q: Parser, pend: Pending, out: seq<Event>, ch: char)
    requires At(sc, q, pend, out)
    ensures At(Advance(sc, ch), q, Longer(pend, ch), out)
  {
  }

  lemma CountAt(sc: Scan, q: Parser, pend: Pending, out: seq<Event>)
    requires At(sc, q, pend, out)
    ensures At(sc.(p := Count(sc.p)), q, pend, out)
  {
  }

  /** A byte that takes one trip. */
  lemma ReadByte(sc: Scan, q: Parser, pend: Pending, out: seq<Event>, ch: char, o: Outcome)
    requires At(sc, q, pend, out) && Turns(q, ch, o) && o.ctl.Next? && Marks(pend, o)
    ensures At(ByteStep(sc, ch), o.p, Longer(PendOf(pend, o), ch), OutOf(out, pend, o, ch))
  {
    hide Dispatch, Apply, Count, PendOf, OutOf, Advance, Turns;
    var sc0 := sc.(p := Count(sc.p));
    CountAt(sc, q, pend, out);
    TripAt(sc0, q, pend, out, ch, o);
    AdvanceAt(Apply(sc0, Dispatch(sc0.p, ch, sc.skip), ch), o.p, PendOf(pend, o), OutOf(out, pend, o, ch), ch);
  }

  /** A byte that takes two trips. */
  lemma ReadByteTwice(sc: Scan, q: Parser, pend: Pending, out: seq<Event>, ch: char, o1: Outcome, o2: Outcome)
    requires At(sc, q, pend, out) && Turns(q, ch, o1) && o1.ctl.Again? && Marks(pend, o1)
    requires Turns(o1.p, ch, o2) && o2.ctl.Next? && Marks(PendOf(pend, o1), o2)
    ensures At(ByteStep(sc, ch), o2.p, Longer(PendOf(PendOf(pend, o1), o2), ch),
               OutOf(OutOf(out, pend, o1, ch), PendOf(pend, o1), o2, ch))
  {
    hide Dispatch, Apply, Count, PendOf, OutOf, Advance, Turns;
    var sc0 := sc.(p := Count(sc.p));
    CountAt(sc, q, pend, out);
    TripAt(sc0, q, pend, out, ch, o1);
    var sc1 := Apply(sc0, Dispatch(sc0.p, ch, sc.skip), ch);
    TripAt(sc1, o1.p, PendOf(pend, o1), OutOf(out, pend, o1, ch), ch, o2);
    var sc2 := Apply(sc1, Dispatch(sc1.p, ch, sc1.skip), ch);
    AdvanceAt(sc2, o2.p, PendOf(PendOf(pend, o1), o2), OutOf(OutOf(out, pend, o1, ch), PendOf(pend, o1), o2, ch), ch);
    TripsTwice(sc0, ch);
  }

  lemma TripsTwice(sc: Scan, ch: char)
    ensures var sc1 := Apply(sc, Dispatch(sc.p, ch, sc.skip), ch);
            var o2 := Dispatch(sc1.p, ch, sc1.skip);
            var sc2 := Apply(sc1, o2, ch);
            Dispatch(sc.p, ch, sc.skip).ctl.Again? && sc1.p.errno.OK? && sc2.p.errno.OK? && o2.ctl.Next? ==>
              Trips(sc, ch) == Advance(sc2, ch)
  {
    hide Dispatch, Apply, Advance;
  }

  /** A byte whose first trip reports an error. */
  lemma ReadFail(sc: Scan, q: Parser, pend: Pending, out: seq<Event>, ch: char, o: Outcome)
    requires At(sc, q, pend, out) && q.errno.OK? && !q.state.ChunkSizeStart? &&
             (q.state.HeaderValue? ==> IsHeaderChar(ch))
    requires o == Dispatch(q, ch, false) && !o.p.errno.OK? && Marks(pend, o)
    ensures ByteStep(sc, ch).p.errno == o.p.errno && !Live(ByteStep(sc, ch))
  {
    hide Dispatch, Count, CallbackData;
    var sc0 := sc.(p := Count(sc.p));
    CountAt(sc, q, pend, out);
    LikeTrip(q, ch, false, sc0.skip, sc0.p.nread);
    FailApply(sc0, Dispatch(sc0.p, ch, sc.skip), ch);
    hide Apply;
  }

  lemma FailApply(sc: Scan, o: Outcome, ch: char)
    requires Marks(sc.pend, o)
    ensures Apply(sc, o, ch).p == o.p
  {
  }

  /** After an error nothing more is read. */
  lemma {:induction false} ReadDead(sc: Scan, s: string)
    requires !Live(sc)
    ensures ScanAll(sc, s) == sc
  {
    hide Trips, Count;
    if s != "" { ReadDead(sc, s[..|s| - 1]); }
  }

  // ---------------------------------------------------------------- common shapes

  lemma ReadPlain(sc: Scan, q: Parser, out: seq<Event>, ch: char, r: Parser)
    requires At(sc, q, Nothing, out) && Turns(q, ch, Go(r))
    ensures At(ByteStep(sc, ch), r, Nothing, out)
  {
    hide Turns;
    ReadByte(sc, q, Nothing, out, ch, Go(r));
    assert out + [] == out;
  }

  lemma ReadOn(sc: Scan, q: Parser, k: DataKind, b: string, out: seq<Event>, ch: char, r: Parser)
    requires At(sc, q, Since(k, b), out) && Turns(q, ch, Go(r))
    ensures At(ByteStep(sc, ch), r, Since(k, b + [ch]), out)
  {
    hide Turns;
    ReadByte(sc, q, Since(k, b), out, ch, Go(r));
    assert out + [] == out;
  }

  lemma ReadMark(sc: Scan, q: Parser, k: DataKind, out: seq<Event>, ch: char, r: Parser)
    requires At(sc, q, Nothing, out) && Turns(q, ch, Outcome(r, MarkOf(k), NoFlush, [], Next))
    ensures At(ByteStep(sc, ch), r, Since(k, [ch]), out)
  {
    hide Turns;
    ReadByte(sc, q, Nothing, out, ch, Outcome(r, MarkOf(k), NoFlush, [], Next));
    assert out + [] == out && "" + [ch] == [ch];
  }

  lemma ReadFlush(sc: Scan, q: Parser, k: DataKind, b: string, out: seq<Event>, ch: char, r: Parser)
    requires At(sc, q, Since(k, b), out) && Turns(q, ch, Outcome(r, NoMark, UpTo(k), [], Next))
    ensures At(ByteStep(sc, ch), r, Nothing, out + [Data(k, b)])
  {
    hide Turns;
    ReadByte(sc, q, Since(k, b), out, ch, Outcome(r, NoMark, UpTo(k), [], Next));
    assert out + [Data(k, b)] + [] == out + [Data(k, b)];
  }

  lemma ReadEvents(sc: Scan, q: Parser, out: seq<Event>, ch: char, r: Parser, events: seq<Event>)
    requires At(sc, q, Nothing, out) && Turns(q, ch, Outcome(r, NoMark, NoFlush, events, Next))
    ensures At(ByteStep(sc, ch), r, Nothing, out + events)
  {
    hide Turns;
    ReadByte(sc, q, Nothing, out, ch, Outcome(r, NoMark, NoFlush, events, Next));
  }

  // ---------------------------------------------------------------- stretches of text

  /** The parser after the first trip for each byte. */
  function WalkTo(q: Parser, s: string): Parser {
    if s == "" then q else Dispatch(WalkTo(q, s[..|s| - 1]), s[|s| - 1], false).p
  }

  /** Every byte takes one trip, without a mark or a callback. */
  predicate Plods(q: Parser, s: string) {
    s == "" || (Plods(q, s[..|s| - 1]) && Turns(WalkTo(q, s[..|s| - 1]), s[|s| - 1], Go(WalkTo(q, s))))
  }

  function Stretch(pend: Pending, s: string): Pending {
    if pend.Nothing? then Nothing else pend.(bytes := pend.bytes + s)
  }

  lemma WalkStep(q: Parser, s: string, ch: char, r: Parser)
    requires Plods(q, s) && Turns(WalkTo(q, s), ch, Go(r))
    ensures Plods(q, s + [ch]) && WalkTo(q, s + [ch]) == r
  {
    hide Dispatch;
    assert (s + [ch])[..|s|] == s;
  }

  lemma {:induction false} WalkOn(q: Parser, a: string, b: string)
    requires Plods(q, a) && Plods(WalkTo(q, a), b)
    ensures Plods(q, a + b) && WalkTo(q, a + b) == WalkTo(WalkTo(q, a), b)
    decreases |b|
  {
    hide Dispatch, Turns;
    if b == "" {
      assert a + b == a;
    } else {
      assert (a + b)[..|a + b| - 1] == a + b[..|b| - 1];
      WalkOn(q, a, b[..|b| - 1]);
    }
  }

  lemma WalkNothing(q: Parser)
    ensures Plods(q, "") && WalkTo(q, "") == q
  {
    hide Dispatch;
  }

  lemma {:induction false} ReadWalk(sc: Scan, q: Parser, pend: Pending, out: seq<Event>, s: string)
    requires At(sc, q, pend, out) && Plods(q, s)
    ensures At(ScanAll(sc, s), WalkTo(q, s), Stretch(pend, s), out)
  {
    hide Dispatch, Turns, ByteStep;
    if s == "" {
      assert Stretch(pend, s) == pend by { if pend.Since? { assert pend.bytes + s == pend.bytes; } }
    } else {
      var front, ch := s[..|s| - 1], s[|s| - 1];
      assert s == front + [ch];
      ReadWalk(sc, q, pend, out, front);
      var m := WalkTo(q, front);
      if pend.Nothing? {
        ReadPlain(ScanAll(sc, front), m, out, ch, WalkTo(q, s));
      } else {
        ReadOn(ScanAll(sc, front), m, pend.kind, pend.bytes + front, out, ch, WalkTo(q, s));
        assert pend.bytes + front + [ch] == pend.bytes + s;
      }
    }
  }
}
