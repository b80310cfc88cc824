/** Fragmentation and errors: a stream that http_parser_execute refuses is refused at the same
    byte, with the same error, however it is cut into buffers. */
module HttpErrors {
  import opened HttpTypes
  import opened HttpAutomaton
  import opened HttpScan
  import opened HttpRuns
  import opened HttpInvariant
  import opened HttpTrace
  import opened HttpNread
  import opened HttpPieces
  import opened HttpFragments

  // ---------------------------------------------------------------- one byte

  lemma ApplySkip(a: Scan, b: Scan, oa: Outcome, ob: Outcome, ch: char)
    requires Alike(a.p, b.p) && AlikeTrips(oa, ob)
    ensures Apply(a, oa, ch).skip == Apply(b, ob, ch).skip
  {
  }

  lemma ViewAlike(t: seq<Event>, a: Scan, u: seq<Event>, b: Scan, ch: char)
    requires SameView(t, a, u, b, ch)
    ensures Alike(a.p, b.p) && a.p.errno.OK?
  {
    hide Sound, Seen;
  }

  /** Both scans take the byte in the same way, or refuse it with the same error. */
  lemma TripsAlike(t: seq<Event>, a: Scan, u: seq<Event>, b: Scan, ch: char)
    requires SameView(t, a, u, b, ch)
    ensures Trips(a, ch).p.errno == Trips(b, ch).p.errno
    ensures Trips(a, ch).p.errno.OK? ==> Trips(a, ch).skip == Trips(b, ch).skip
    decreases Rank(a.p.state)
  {
    hide Dispatch, Apply, SameView, AlikeTrips, Agree, Rank;
    var oa, ob := Dispatch(a.p, ch, a.skip), Dispatch(b.p, ch, b.skip);
    var a', b' := Apply(a, oa, ch), Apply(b, ob, ch);
    TripAgrees(t, a, u, b, ch);
    ViewAlike(t, a, u, b, ch);
    AlikeFacts(oa, ob);
    ApplySkip(a, b, oa, ob, ch);
    if oa.p.errno.OK? && oa.ctl.Again? { TripsAlike(t, a', u, b', ch); }
  }

  lemma ByteView(t: seq<Event>, a: Scan, u: seq<Event>, b: Scan, ch: char, i: nat, j: nat)
    requires Agree(t, a, u, b) && PrefixFits(a, i) && PrefixFits(b, j) && Live(a)
    requires a.p.state.HeaderValue? ==> a.skip == b.skip || IsHeaderChar(ch)
    ensures Live(b) && SameView(t, a.(p := Count(a.p)), u, b.(p := Count(b.p)), ch)
  {
    hide Seen, Sound, IsHeaderChar;
    var a', b' := a.(p := Count(a.p)), b.(p := Count(b.p));
    CountFrame(a.p);
    CountFrame(b.p);
    CountSound(a.p, OpenOf(a.pend));
    CountSound(b.p, OpenOf(b.pend));
    SeenFrame(t, a, a'.p);
    SeenFrame(u, b, b'.p);
  }

  lemma ByteAlike(t: seq<Event>, a: Scan, u: seq<Event>, b: Scan, ch: char, i: nat, j: nat)
    requires Agree(t, a, u, b) && PrefixFits(a, i) && PrefixFits(b, j) && Live(a)
    requires a.p.state.HeaderValue? ==> a.skip == b.skip || IsHeaderChar(ch)
    ensures Live(b) && ByteStep(a, ch).p.errno == ByteStep(b, ch).p.errno
    ensures ByteStep(a, ch).p.errno.OK? ==> ByteStep(a, ch).skip == ByteStep(b, ch).skip
  {
    ByteView(t, a, u, b, ch, i, j);
    TripsAlike(t, a.(p := Count(a.p)), u, b.(p := Count(b.p)), ch);
    hide Trips, Seen, Sound, SameView, Agree, Count;
  }

  /** memchr refuses no byte. */
  lemma SkipTakes(sc: Scan, ch: char)
    requires Live(sc) && sc.skip && SkipsGeneral(sc) && !IsHeaderChar(ch)
    ensures ByteStep(sc, ch).p.errno.OK?
  {
    hide Descends;
    assert Dispatch(Count(sc.p), ch, true) == Go(Count(sc.p));
    hide Dispatch;
  }

  // ---------------------------------------------------------------- the byte that is refused

  /** The first e bytes are taken, the next one is refused. */
  predicate RefusedAt(p: Parser, s: string, e: nat) {
    e < |s| && Live(Prefix(p, s, e)) && !Prefix(p, s, e + 1).p.errno.OK?
  }

  lemma {:induction false} FirstError(p: Parser, s: string, k: nat) returns (e: nat)
    requires p.errno.OK? && k <= |s| && !Prefix(p, s, k).p.errno.OK?
    ensures e < k && RefusedAt(p, s, e) && Prefix(p, s, k) == Prefix(p, s, e + 1)
  {
    hide ScanAll, ByteStep, Open;
    if k == 0 {
      StartOfPrefix(p, s);
      OpenOk(p);
      assert false;
    }
    PrefixStep(p, s, k - 1);
    if Live(Prefix(p, s, k - 1)) {
      e := k - 1;
    } else {
      DeadStep(Prefix(p, s, k - 1), s[k - 1]);
      e := FirstError(p, s, k - 1);
    }
  }

  lemma OpenOk(p: Parser)
    ensures Open(p).p == p
  {
  }

  /** The call says which byte it refuses. */
  lemma RefusedUsed(p: Parser, s: string, e: nat)
    requires Valid(p) && p.errno.OK? && RefusedAt(p, s, e)
    ensures Feed(p, s).used == e && Feed(p, s).p.errno == Prefix(p, s, e + 1).p.errno
  {
    hide ByteStep, ScanAll, Open, FlushPending, ScanSound, SkipsGeneral;
    PrefixSound(p, s, e);
    PrefixStep(p, s, e);
    ByteUsed(Prefix(p, s, e), s[e]);
    Stopped(p, s, e + 1, |s|);
    FeedIsClose(p, s);
  }

  lemma RefusedWhere(p: Parser, s: string)
    requires Valid(p) && p.errno.OK? && s != "" && !Feed(p, s).p.errno.OK?
    ensures RefusedAt(p, s, Feed(p, s).used)
  {
    hide ByteStep, ScanAll, Open, FlushPending;
    FeedIsClose(p, s);
    var e := FirstError(p, s, |s|);
    RefusedUsed(p, s, e);
  }

  /** What comes before is clean. */
  lemma BeforeRefused(p: Parser, s: string, e: nat)
    requires Valid(p) && p.errno.OK? && RefusedAt(p, s, e) && 0 < e
    ensures Clean(p, s[..e]) && Prefix(p, s[..e], e) == Prefix(p, s, e)
  {
    hide ScanAll, Open, FlushPending, ScanSound, SkipsGeneral;
    var a := s[..e];
    assert a[..e] == a;
    PrefixSound(p, a, e);
    FeedIsClose(p, a);
  }

  /** The refused byte in a buffer that starts at i, after buffers that have been read. */
  lemma RefusedAgain(p: Parser, s: string, e: nat, q: Parser, u: seq<Event>, i: nat, x: string)
    requires Valid(p) && p.errno.OK? && RefusedAt(p, s, e) && 0 < i <= e && HeaderCharsOnly(p, s[..e])
    requires Valid(q) && Alike(Feed(p, s[..i]).p, q) && Join(Feed(p, s[..i]).out) == u
    requires e - i < |x| && x[..e - i + 1] == s[i..e + 1]
    ensures q.errno.OK? && RefusedAt(q, x, e - i) && Prefix(q, x, e - i + 1).p.errno == Prefix(p, s, e + 1).p.errno
  {
    hide Open, ScanAll, Agree, HeaderCharsOnly, Feed, ScanSound, SkipsGeneral, FlushPending, ByteStep, IsHeaderChar,
      Clean;
    var a, b := s[..e], x[..e - i];
    assert a[i..] == b by { assert x[..e - i + 1][..e - i] == b && s[i..e + 1][..e - i] == a[i..]; }
    assert a[..i] == s[..i] && x[e - i] == s[e] by { assert x[..e - i + 1][e - i] == s[i..e + 1][e - i]; }
    BeforeRefused(p, s, e);
    CleanStartAt(p, a, i);
    FeedIsClose(p, a[..i]);
    ReopenAgrees(Prefix(p, a, i), u, q, i);
    RunAgrees([], p, u, q, a, i, e);
    var (sa, sb) := (Prefix(p, s, e), Prefix(q, x, e - i));
    assert Prefix(q, b, e - i) == sb by { assert b[..e - i] == b; }
    PrefixSound(p, s, e);
    PrefixSound(q, x, e - i);
    SkipSame(p, s, e, q, u, i, x);
    ByteAlike([], sa, u, sb, s[e], e, e - i);
    PrefixStep(p, s, e);
    PrefixStep(q, x, e - i);
    AgreeOk([], sa, u, sb);
  }

  lemma CleanStartAt(p: Parser, a: string, i: nat)
    requires Valid(p) && p.errno.OK? && 0 < i <= |a| && Clean(p, a) && Live(Prefix(p, a, |a|))
    ensures PrefixFits(Prefix(p, a, i), i) && Live(Prefix(p, a, i)) && Prefix(p, a[..i], i) == Prefix(p, a, i)
  {
    hide Clean, ScanAll, Open, PrefixFits;
    CleanPrefix(p, a, i);
    assert a[..i][..i] == a[..i];
  }

  /** memchr is at work in both scans or in none, or the byte is a header character. */
  lemma SkipSame(p: Parser, s: string, e: nat, q: Parser, u: seq<Event>, i: nat, x: string)
    requires Valid(p) && p.errno.OK? && RefusedAt(p, s, e) && 0 < i <= e && HeaderCharsOnly(p, s[..e])
    requires Valid(q) && e - i < |x| && x[..e - i] == s[i..e]
    requires Agree([], Prefix(p, s[..e], i), u, Open(q))
    ensures var (a, b) := (Prefix(p, s, e), Prefix(q, x, e - i)); a.skip == b.skip || IsHeaderChar(s[e])
  {
    hide Open, ScanAll, Agree, Feed, ScanSound, ByteStep, IsHeaderChar, Clean;
    var a := s[..e];
    BeforeRefused(p, s, e);
    PrefixSound(p, s, e);
    PrefixStep(p, s, e);
    if i == e {
      StartOfPrefix(q, x);
      OpenSkips(q);
      if Prefix(p, s, e).skip && !IsHeaderChar(s[e]) {
        SkipTakes(Prefix(p, s, e), s[e]);
      }
    } else {
      var k := e - 1;
      assert a[i..] == s[i..e];
      RunAgrees([], p, u, q, a, i, k);
      assert a[..k] == s[..k] && a[i..][..k - i] == x[..k - i] by { assert x[..e - i][..k - i] == x[..k - i]; }
      CleanPrefix(p, a, k);
      PrefixSound(q, x, k - i);
      assert UncheckedAt(Prefix(p, a, k)) ==> IsHeaderChar(a[k]);
      LastSkip(Prefix(p, s, k), u, Prefix(q, x, k - i), s[k], k, k - i);
      PrefixStep(p, s, k);
      PrefixStep(q, x, k - i);
      assert x[k - i] == s[k] by { assert x[..e - i][k - i] == s[i..e][k - i]; }
    }
  }

  lemma OpenSkips(q: Parser)
    ensures !Open(q).skip
  {
  }

  /** After a byte that both scans have taken. */
  lemma LastSkip(a: Scan, u: seq<Event>, b: Scan, ch: char, i: nat, j: nat)
    requires Agree([], a, u, b) && PrefixFits(a, i) && PrefixFits(b, j) && Live(a)
    requires UncheckedAt(a) ==> IsHeaderChar(ch)
    ensures ByteStep(a, ch).p.errno.OK? ==> ByteStep(a, ch).skip == ByteStep(b, ch).skip
  {
    hide ByteStep, Sound, Seen, IsHeaderChar;
    AgreeSkips([], a, u, b);
    ByteAlike([], a, u, b, ch, i, j);
  }

  lemma AgreeSkips(t: seq<Event>, a: Scan, u: seq<Event>, b: Scan)
    requires Agree(t, a, u, b) && SkipsGeneral(a) && SkipsGeneral(b) && a.p.errno.OK?
    ensures a.p.state.HeaderValue? && !UncheckedAt(a) ==> a.skip == b.skip
  {
    hide Seen;
  }

  // ---------------------------------------------------------------- any number of buffers

  lemma {:induction false} StaysRefused(p: Parser, front: seq<string>, rest: seq<string>)
    requires !FeedAll(p, front).p.errno.OK?
    ensures FeedAll(p, front + rest).p == FeedAll(p, front).p && FeedAll(p, front + rest).used == FeedAll(p, front).used
    decreases |rest|
  {
    hide FeedAll, Flat;
    if rest == [] {
      assert front + rest == front;
    } else {
      var more, last := rest[..|rest| - 1], rest[|rest| - 1];
      StaysRefused(p, front, more);
      Snoc(p, front + more, last);
      assert front + more + [last] == front + rest;
      StaysFailed(FeedAll(p, front).p, last);
    }
  }

  /** A stream that is refused at e is refused at e in every fragmentation. */
  lemma CutRefused(p: Parser, s: string, e: nat, pieces: seq<string>)
    requires Valid(p) && p.errno.OK? && RefusedAt(p, s, e) && HeaderCharsOnly(p, s[..e]) && Cuts(pieces, s)
    ensures var r := FeedAll(p, pieces); r.p.errno == Prefix(p, s, e + 1).p.errno && r.used == e
  {
    hide Feed, FeedAll, Flat, Clean, HeaderCharsOnly, Join, Valid, ScanAll, Open, RefusedAt;
    assert e < |s| by { RefusedBounds(p, s, e); }
    var j, _ := PieceAt(pieces, e);
    var front, x, rest := pieces[..j], pieces[j], pieces[j + 1..];
    assert pieces == front + [x] + rest;
    FlatConcat(front + [x], rest);
    Snoc(p, front, x);
    var i := |Flat(front)|;
    assert s == Flat(front) + x + Flat(rest);
    assert s[..i] == Flat(front);
    if j == 0 {
      assert front == [] && Flat([]) == "" by { FeedNothing(p); }
      FeedNothing(p);
      SamePrefix(p, s, x, e);
      RefusedUsed(p, x, e);
    } else {
      FlatNonEmpty(front);
      FrontRefused(p, s, e, front);
      FeedAllKeepsValid(p, front);
      assert x[..e - i + 1] == s[i..e + 1];
      var q := FeedAll(p, front).p;
      RefusedAgain(p, s, e, q, Join(FeedAll(p, front).out), i, x);
      RefusedUsed(q, x, e - i);
    }
    RefusedNotOk(p, s, e);
    StaysRefused(p, front + [x], rest);
  }

  lemma RefusedBounds(p: Parser, s: string, e: nat)
    requires RefusedAt(p, s, e)
    ensures e < |s|
  {
    hide ScanAll, Open;
  }

  lemma RefusedNotOk(p: Parser, s: string, e: nat)
    requires RefusedAt(p, s, e)
    ensures !Prefix(p, s, e + 1).p.errno.OK?
  {
    hide ScanAll, Open;
  }

  lemma SamePrefix(p: Parser, s: string, x: string, e: nat)
    requires RefusedAt(p, s, e) && e < |x| <= |s| && s[..|x|] == x
    ensures RefusedAt(p, x, e) && Prefix(p, x, e + 1) == Prefix(p, s, e + 1)
  {
    hide ScanAll, Open;
    assert x[..e] == s[..e] && x[..e + 1] == s[..e + 1];
  }

  /** The buffers before it are clean. */
  lemma FrontRefused(p: Parser, s: string, e: nat, front: seq<string>)
    requires Valid(p) && p.errno.OK? && RefusedAt(p, s, e) && HeaderCharsOnly(p, s[..e]) && NonEmpty(front) &&
             front != []
    requires 0 < |Flat(front)| <= e && s[..|Flat(front)|] == Flat(front)
    ensures SameRun(FeedAll(p, front), Feed(p, Flat(front))) && Feed(p, Flat(front)).used == |Flat(front)|
  {
    hide Feed, FeedAll, Flat, Clean, HeaderCharsOnly, Join, Valid, ScanAll, Open, SameRun;
    var f, a := Flat(front), s[..e];
    BeforeRefused(p, s, e);
    if |f| < e {
      assert a == f + a[|f|..];
      CleanStart(p, f, a[|f|..]);
    } else {
      assert a == f;
    }
    PiecesAgree(p, front);
    CleanUsed(p, f);
  }

  /** The other main result. A stream that is refused is refused at the same byte, with the same
      error, in every fragmentation exactly when the header values before that byte hold header
      characters only. */
  lemma ErrorsIndependent(p: Parser, s: string)
    requires Valid(p) && p.errno.OK? && s != "" && !Feed(p, s).p.errno.OK?
    ensures Feed(p, s).used < |s|
    ensures HeaderCharsOnly(p, s[..Feed(p, s).used]) <==>
            forall pieces | Cuts(pieces, s) ::
              FeedAll(p, pieces).p.errno == Feed(p, s).p.errno && FeedAll(p, pieces).used == Feed(p, s).used
  {
    hide Feed, FeedAll, UncheckedAt, IsHeaderChar, Prefix, Valid, RefusedAt;
    var e := Feed(p, s).used;
    RefusedWhere(p, s);
    RefusedUsed(p, s, e);
    RefusedBounds(p, s, e);
    if HeaderCharsOnly(p, s[..e]) {
      forall pieces | Cuts(pieces, s)
        ensures FeedAll(p, pieces).p.errno == Feed(p, s).p.errno && FeedAll(p, pieces).used == Feed(p, s).used
      {
        CutRefused(p, s, e, pieces);
      }
    } else {
      var k: nat :| k < |s[..e]| && UncheckedAt(Prefix(p, s[..e], k)) && !IsHeaderChar(s[..e][k]);
      CutEarlier(p, s, e, k);
      assert FeedAll(p, [s[..k], s[k..]]).used != e;
    }
  }

  /** A byte that only memchr accepts, before the byte that is refused. */
  lemma CutEarlier(p: Parser, s: string, e: nat, k: nat)
    requires Valid(p) && p.errno.OK? && RefusedAt(p, s, e) && k < e
    requires UncheckedAt(Prefix(p, s[..e], k)) && !IsHeaderChar(s[k])
    ensures 0 < k && Cuts([s[..k], s[k..]], s) && FeedAll(p, [s[..k], s[k..]]).used == k
  {
    hide Feed, ScanAll, ByteStep, Clean, IsHeaderChar, FeedAll, Flat;
    var a, b := s[..k], s[k..];
    BeforeRefused(p, s, e);
    assert s[..e][k] == s[k];
    CutAtUnchecked(p, s[..e], k);
    CleanPrefix(p, s[..e], k);
    CleanStartAt(p, s[..e], k);
    assert s[..e][..k] == a;
    FeedIsClose(p, a);
    var q := Feed(p, a).p;
    FeedKeepsValid(p, a);
    UncheckedFails(q, b);
    FirstRefused(q, b);
    TwoUsed(p, a, b);
    FrontUsed(p, s[..e], k);
    assert a + b == s;
  }

  lemma FirstRefused(q: Parser, b: string)
    requires Valid(q) && q.errno.OK? && UncheckedAt(Open(q)) && b != "" && !IsHeaderChar(b[0])
    ensures Feed(q, b).used == 0
  {
    hide ScanAll, FlushPending, ByteStep;
    UncheckedByte(Open(q), b[0]);
    StartOfPrefix(q, b);
    PrefixStep(q, b, 0);
    RefusedUsed(q, b, 0);
  }

  lemma FrontUsed(p: Parser, s: string, k: nat)
    requires Valid(p) && p.errno.OK? && s != "" && Clean(p, s) && 0 < k < |s|
    ensures Feed(p, s[..k]).used == k
  {
    hide ScanAll, Open, FlushPending, ScanSound, SkipsGeneral;
    CleanPrefix(p, s, k);
    assert s[..k][..k] == s[..k];
    FeedIsClose(p, s[..k]);
  }

  lemma TwoUsed(p: Parser, a: string, b: string)
    ensures Flat([a, b]) == a + b
    ensures FeedAll(p, [a, b]).used == Feed(p, a).used + Feed(Feed(p, a).p, b).used
  {
    hide Feed, FeedAll, Flat;
    OnePiece(p, a);
    Snoc(p, [a], b);
    assert [a] + [b] == [a, b];
  }
}
