/** The automaton that recognises header names agrees with a comparison that ignores case. */
module HttpNames {
  import opened HttpTypes
  import opened HttpAutomaton
  import opened HttpScan
  import opened HttpRuns
  import opened HttpInvariant
  import opened HttpReads

  /** A name as the token table spells it: lower case. */
  function Spelled(s: string): (r: string)
    ensures |r| == |s|
  {
    if s == "" then "" else Spelled(s[..|s| - 1]) + [Token(s[|s| - 1])]
  }

  predicate IsName(s: string) { s != "" && forall i | 0 <= i < |s| :: Token(s[i]) != '\0' }

  /** How far the bytes `t` spell a keyword. */
  datatype Progress = Missed | Partial | Full

  function Spells(t: string, key: string): Progress {
    if t == key then Full else if |t| < |key| && t == key[..|t|] then Partial else Missed
  }

  /** One more byte. */
  lemma SpellsStep(t: string, c: char, key: string)
    ensures Spells(t + [c], key) ==
            if !Spells(t, key).Partial? || c != key[|t|] then Missed else if |t| + 1 == |key| then Full else Partial
  {
    assert (t + [c])[..|t|] == t && (t + [c])[|t|] == c && key[..|key|] == key;
    if |t| < |key| {
      assert key[..|t| + 1][..|t|] == key[..|t|] && key[..|t| + 1][|t|] == key[|t|];
      if t == key[..|t|] && c == key[|t|] { assert t + [c] == key[..|t| + 1]; }
    }
  }

  /** Where the match of one keyword stands after the bytes `t`. */
  function Along(t: string, key: string, matching: HeaderState, hit: HeaderState, miss: HeaderState): (h: HeaderState)
    ensures h == matching || h == hit || h == miss
  {
    match Spells(t, key) case Full => hit case Partial => matching case Missed => miss
  }

  /** The header state after the bytes `t` of a name. */
  function Shape(t: string): HeaderState {
    if t == "" then General
    else if t[0] == 'c' then
      if |t| == 1 then HC
      else if t[1] != 'o' then General
      else if |t| == 2 then HCO
      else if t[2] != 'n' then General
      else if |t| == 3 then HCON
      else if t[3] == 'n' then Along(t, "connection", MatchingConnection, Connection, General)
      else if t[3] == 't' then Along(t, "content-length", MatchingContentLength, ContentLength, General)
      else General
    else if t[0] == 'p' then Along(t, "proxy-connection", MatchingProxyConnection, Connection, General)
    else if t[0] == 't' then Along(t, "transfer-encoding", MatchingTransferEncoding, TransferEncoding, General)
    else if t[0] == 'u' then Along(t, "upgrade", MatchingUpgrade, Upgrade, General)
    else General
  }

  /** The parser has read the bytes `t` of a name. */
  predicate Named(p: Parser, t: string) {
    t != "" && p.headerState == Shape(t) &&
    (p.headerState.HC? || p.headerState.HCO? || p.headerState.HCON? || IsMatching(p.headerState) ==> p.index == |t| - 1)
  }

  lemma {:induction false} KeyCharAt(key: string, i: nat)
    ensures i < |key| ==> KeyChar(key, i) == key[i]
    ensures i >= |key| ==> KeyChar(key, i) == '\0'
  {
    if key != "" && i > 0 { KeyCharAt(key[1..], i - 1); }
  }

  /** One more byte of a keyword. */
  lemma AlongStep(p: Parser, t: string, c: char, key: string, matching: HeaderState, hit: HeaderState,
                  miss: HeaderState)
    requires t != "" && c != '\0' && Spells(t, key).Partial? && p.headerState == matching && p.index == |t| - 1
    ensures var r := MatchKey(p, c, key, miss, hit);
            r.headerState == Along(t + [c], key, matching, hit, miss) && r.index == |t|
  {
    KeyCharAt(key, |t|);
    SpellsStep(t, c, key);
    assert |t| < |key|;
    hide KeyChar, Spells;
  }

  /** A finished or failed keyword does not come back. */
  lemma AlongStuck(t: string, c: char, key: string, matching: HeaderState, hit: HeaderState, miss: HeaderState)
    requires matching != miss
    ensures Along(t, key, matching, hit, miss) != matching ==> Along(t + [c], key, matching, hit, miss) == miss
  {
    SpellsStep(t, c, key);
    hide Spells;
  }

  lemma ShapeFirst(c: char)
    ensures Shape([c]) == FirstHeaderState(c)
  {
    assert "proxy-connection"[..1] == "p" && "transfer-encoding"[..1] == "t" && "upgrade"[..1] == "u";
  }

  /** The keyword being matched stays the same. */
  lemma ShapeMatching(t: string, c: char)
    requires IsMatching(Shape(t))
    ensures var (h, u) := (Shape(t), t + [c]);
            t != "" &&
            (h.MatchingConnection? ==>
               Spells(t, "connection").Partial? &&
               Shape(u) == Along(u, "connection", MatchingConnection, Connection, General)) &&
            (h.MatchingProxyConnection? ==>
               Spells(t, "proxy-connection").Partial? &&
               Shape(u) == Along(u, "proxy-connection", MatchingProxyConnection, Connection, General)) &&
            (h.MatchingContentLength? ==>
               Spells(t, "content-length").Partial? &&
               Shape(u) == Along(u, "content-length", MatchingContentLength, ContentLength, General)) &&
            (h.MatchingTransferEncoding? ==>
               Spells(t, "transfer-encoding").Partial? &&
               Shape(u) == Along(u, "transfer-encoding", MatchingTransferEncoding, TransferEncoding, General)) &&
            (h.MatchingUpgrade? ==>
               Spells(t, "upgrade").Partial? &&
               Shape(u) == Along(u, "upgrade", MatchingUpgrade, Upgrade, General))
  {
    hide Spells;
  }

  predicate IsFinal(h: HeaderState) {
    h.General? || h.Connection? || h.ContentLength? || h.TransferEncoding? || h.Upgrade?
  }

  /** A finished or failed match ends in h_general. */
  lemma ShapeStuck(t: string, c: char)
    requires t != "" && IsFinal(Shape(t))
    ensures Shape(t + [c]).General?
  {
    hide Along;
    if t[0] == 'c' && |t| > 3 {
      if t[3] == 'n' { AlongStuck(t, c, "connection", MatchingConnection, Connection, General); }
      else if t[3] == 't' { AlongStuck(t, c, "content-length", MatchingContentLength, ContentLength, General); }
    }
    else if t[0] == 'p' { AlongStuck(t, c, "proxy-connection", MatchingProxyConnection, Connection, General); }
    else if t[0] == 't' { AlongStuck(t, c, "transfer-encoding", MatchingTransferEncoding, TransferEncoding, General); }
    else if t[0] == 'u' { AlongStuck(t, c, "upgrade", MatchingUpgrade, Upgrade, General); }
  }

  lemma ShapeCon(t: string, c: char)
    requires t != ""
    ensures Shape(t).HC? ==> t == "c" && Shape(t + [c]) == if c == 'o' then HCO else General
    ensures Shape(t).HCO? ==> t == "co" && Shape(t + [c]) == if c == 'n' then HCON else General
    ensures Shape(t).HCON? ==> t == "con" && Shape(t + [c]) == if c == 'n' then MatchingConnection else if c == 't'
            then MatchingContentLength else General
  {
    assert Along("conn", "connection", MatchingConnection, Connection, General).MatchingConnection? by {
      assert "connection"[..4] == "conn";
    }
    assert Along("cont", "content-length", MatchingContentLength, ContentLength, General).MatchingContentLength? by {
      assert "content-length"[..4] == "cont";
    }
    if Shape(t).HCON? && c == 'n' { assert t + [c] == "conn"; }
    if Shape(t).HCON? && c == 't' { assert t + [c] == "cont"; }
    hide Along;
  }

  /** Shape goes along with the automaton. */
  lemma ShapeStep(p: Parser, t: string, ch: char)
    requires Named(p, t) && Token(ch) != '\0'
    ensures var r := FieldByte(p, ch, Token(ch));
            Named(r, t + [Token(ch)]) &&
            r == p.(headerState := r.headerState, index := r.index)
  {
    FieldByteFrame(p, ch, Token(ch));
    var h := p.headerState;
    var c := Token(ch);
    if IsFinal(h) { ShapeStuck(t, c); }
    else if IsMatching(h) { ShapeMatching(t, c); }
    else { ShapeCon(t, c); }
    if h.MatchingConnection? { AlongStep(p, t, c, "connection", MatchingConnection, Connection, General); }
    else if h.MatchingProxyConnection? {
      AlongStep(p, t, c, "proxy-connection", MatchingProxyConnection, Connection, General);
    }
    else if h.MatchingContentLength? {
      AlongStep(p, t, c, "content-length", MatchingContentLength, ContentLength, General);
    }
    else if h.MatchingTransferEncoding? {
      AlongStep(p, t, c, "transfer-encoding", MatchingTransferEncoding, TransferEncoding, General);
    }
    else if h.MatchingUpgrade? { AlongStep(p, t, c, "upgrade", MatchingUpgrade, Upgrade, General); }
    hide MatchKey, Along, Token, Shape;
  }

  /** A header state other than h_general is reached at the end of a name exactly when the
      name is the keyword. */
  lemma ShapeMeans(t: string)
    ensures Shape(t).ContentLength? <==> t == "content-length"
    ensures Shape(t).TransferEncoding? <==> t == "transfer-encoding"
    ensures Shape(t).Upgrade? <==> t == "upgrade"
    ensures Shape(t).Connection? <==> t == "connection" || t == "proxy-connection"
  {
    assert "content-length"[0] == 'c' && "content-length"[1] == 'o' && "content-length"[2] == 'n' &&
           "content-length"[3] == 't';
    assert "connection"[0] == 'c' && "connection"[1] == 'o' && "connection"[2] == 'n' && "connection"[3] == 'n';
  }

  lemma SpelledSnoc(s: string, ch: char)
    ensures Spelled(s + [ch]) == Spelled(s) + [Token(ch)]
  {
    assert (s + [ch])[..|s|] == s;
  }

  /** The parser after the first byte of a name. */
  function NameStarted(q: Parser, ch: char): Parser {
    q.(index := 0, state := HeaderField, headerState := FirstHeaderState(Token(ch)))
  }

  lemma {:induction false} SpelledRest(s: string)
    requires s != ""
    ensures Spelled(s) == [Token(s[0])] + Spelled(s[1..])
  {
    if |s| > 1 {
      SpelledRest(s[..|s| - 1]);
      assert s[..|s| - 1][1..] == s[1..][..|s| - 2];
    }
  }

  lemma FieldTurns(q: Parser, ch: char)
    requires q.state.HeaderField? && q.errno.OK? && Token(ch) != '\0' && FieldByte(q, ch, Token(ch)).errno.OK?
    ensures Turns(q, ch, Go(FieldByte(q, ch, Token(ch))))
  {
    hide Descends, FieldByte, Token;
  }

  /** The rest of a name. */
  lemma {:induction false} NameWalk(q: Parser, s: string)
    requires IsName(s) && q.errno.OK? && q == NameStarted(q, s[0])
    ensures Plods(q, s[1..])
    ensures var r := WalkTo(q, s[1..]);
            r == q.(headerState := Shape(Spelled(s)), index := r.index) && Named(r, Spelled(s))
    decreases |s|
  {
    hide Dispatch, Turns, Token, Shape, FieldByte;
    if |s| == 1 {
      WalkNothing(q);
      assert s == [s[0]] && Spelled(s) == [Token(s[0])] by { SpelledSnoc("", s[0]); }
      ShapeFirst(Token(s[0]));
    } else {
      var front, ch := s[..|s| - 1], s[|s| - 1];
      assert s == front + [ch] && s[1..] == front[1..] + [ch];
      NameWalk(q, front);
      SpelledSnoc(front, ch);
      var m := WalkTo(q, front[1..]);
      ShapeStep(m, Spelled(front), ch);
      FieldTurns(m, ch);
      WalkStep(q, front[1..], ch, FieldByte(m, ch, Token(ch)));
    }
  }

  // ---------------------------------------------------------------- the start of a line

  /** The scan stands at the first byte of a line, unless that byte is a blank: what is left
      of the line before is settled by that byte. `q` and `out` are what it then sees. */
  ghost predicate AtLine(sc: Scan, q: Parser, out: seq<Event>) {
    q.state.HeaderFieldStart? &&
    (At(sc, q, Nothing, out) ||
     exists q0 :: q == FinishHeader(q0).(state := HeaderFieldStart) && LineLeft(sc, q0, out))
  }

  /** The line before has a value, or an empty one whose callback is still to be made. */
  ghost predicate LineLeft(sc: Scan, q0: Parser, out: seq<Event>) {
    (q0.state.HeaderValueLws? && At(sc, q0, Nothing, out)) ||
    (q0.state.HeaderValueDiscardLws? && exists out0 :: out == out0 + [Data(Value, "")] && At(sc, q0, Nothing, out0))
  }

  lemma EdgeTurns(q: Parser, ch: char, o: Outcome)
    requires IsValueEdge(q.state) && q.errno.OK? && o == DispatchValueEdges(q, ch) && o.p.errno.OK?
    ensures Turns(q, ch, o)
  {
    hide Descends, DispatchValueEdges;
  }

  lemma LeaveLine(q0: Parser, ch: char)
    requires (q0.state.HeaderValueLws? || q0.state.HeaderValueDiscardLws?) && q0.errno.OK? && !IsBlank(ch)
    ensures var o := DispatchValueEdges(q0, ch);
            o.p == FinishHeader(q0).(state := HeaderFieldStart) && o.ctl.Again? && o.events == [] && o.p.errno.OK? &&
            (q0.state.HeaderValueLws? ==> o.mark.NoMark? && o.flush.NoFlush?) &&
            (q0.state.HeaderValueDiscardLws? ==> o.mark == MarkOf(Value) && o.flush == UpTo(Value))
  {
    hide Descends;
  }

  /** The first byte of a line does what it does in a fresh line. */
  lemma LineByte(sc: Scan, q: Parser, out: seq<Event>, ch: char, o: Outcome)
    requires AtLine(sc, q, out) && !IsBlank(ch) && Turns(q, ch, o) && o.ctl.Next?
    ensures At(ByteStep(sc, ch), o.p, Longer(PendOf(Nothing, o), ch), OutOf(out, Nothing, o, ch))
  {
    hide Turns, Dispatch, DispatchValueEdges, FinishHeader;
    if At(sc, q, Nothing, out) {
      ReadByte(sc, q, Nothing, out, ch, o);
    } else {
      var q0 :| q == FinishHeader(q0).(state := HeaderFieldStart) && LineLeft(sc, q0, out);
      LeaveLine(q0, ch);
      var o1 := DispatchValueEdges(q0, ch);
      EdgeTurns(q0, ch, o1);
      var out0 := if q0.state.HeaderValueLws? then out else out[..|out| - 1];
      assert At(sc, q0, Nothing, out0);
      assert PendOf(Nothing, o1) == Nothing && OutOf(out0, Nothing, o1, ch) == out;
      ReadByteTwice(sc, q0, Nothing, out0, ch, o1, o);
    }
  }
}
