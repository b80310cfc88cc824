/** The scanner of Connection headers against splitting the value at its commas and comparing
    each token with the keywords, ignoring case. */
module HttpConnection {
  import opened HttpTypes
  import opened HttpAutomaton
  import opened HttpScan
  import opened HttpReads
  import opened HttpNames
  import opened HttpValues

  // ---------------------------------------------------------------- lists

  /** One element of the list: a token with spaces before and after it. */
  datatype Item = Item(before: nat, token: string, after: nat)

  function Spaces(n: nat): string { if n == 0 then "" else Spaces(n - 1) + [' '] }

  function ItemText(it: Item): string { Spaces(it.before) + it.token + Spaces(it.after) }

  function ListText(items: seq<Item>): string {
    if items == [] then ""
    else if |items| == 1 then ItemText(items[0])
    else ListText(items[..|items| - 1]) + [','] + ItemText(items[|items| - 1])
  }

  /** The keyword an element may spell. */
  function KeywordFor(t: string): string
    requires t != ""
  {
    if t[0] == 'k' then "keep-alive" else if t[0] == 'c' then "close" else "upgrade"
  }

  /** A proper prefix of a keyword takes the comma right behind it for its own. */
  predicate Swallows(it: Item)
    requires it.token != ""
  {
    it.after == 0 && Spells(Spelled(it.token), KeywordFor(Spelled(it.token))).Partial?
  }

  predicate AreTokens(items: seq<Item>) { forall i | 0 <= i < |items| :: IsName(items[i].token) }

  /** How the last element is read: compared with the keywords; absorbed into the one before,
      whose comma was swallowed; or not looked at, because an underscore at the start of an
      element, which LOWER takes for DEL, has ended the scan. */
  datatype Mode = Compared | Absorbed | Ended

  function ModeOf(items: seq<Item>): Mode
    requires items != [] && AreTokens(items)
  {
    if |items| == 1 then Compared
    else
      var front := items[..|items| - 1];
      var m := ModeOf(front);
      if m.Ended? then Ended
      else if m.Compared? && Swallows(front[|front| - 1]) then Absorbed
      else if items[|items| - 1].token[0] == '_' then Ended
      else Compared
  }

  /** A keyword is an element that is compared. */
  predicate Mentions(items: seq<Item>, key: string)
    requires AreTokens(items)
  {
    items != [] &&
    (Mentions(items[..|items| - 1], key) || (ModeOf(items).Compared? && Spelled(items[|items| - 1].token) == key))
  }

  // ---------------------------------------------------------------- the scanner on a token

  /** The parser after the bytes `s` of a value. */
  function Folded(p: Parser, s: string): Parser {
    if s == "" then p else ValueByte(Folded(p, s[..|s| - 1]), s[|s| - 1])
  }

  lemma {:induction false} FoldedConcat(p: Parser, a: string, b: string)
    ensures Folded(p, a + b) == Folded(Folded(p, a), b)
    decreases |b|
  {
    hide ValueByte;
    if b == "" {
      assert a + b == a;
    } else {
      assert (a + b)[..|a + b| - 1] == a + b[..|b| - 1];
      FoldedConcat(p, a, b[..|b| - 1]);
    }
  }

  lemma FoldedOne(p: Parser, ch: char)
    ensures Folded(p, [ch]) == ValueByte(p, ch)
  {
    hide ValueByte;
    assert [ch][..0] == "";
  }

  /** The header state after the bytes `t`, in lower case, of an element that is compared. */
  function KeyShape(t: string): HeaderState
    requires t != ""
  {
    if t[0] == 'k' then Along(t, "keep-alive", MatchingConnectionKeepAlive, ConnectionKeepAlive,
                              MatchingConnectionToken)
    else if t[0] == 'c' then Along(t, "close", MatchingConnectionClose, ConnectionClose, MatchingConnectionToken)
    else if t[0] == 'u' then Along(t, "upgrade", MatchingConnectionUpgrade, ConnectionUpgrade, MatchingConnectionToken)
    else MatchingConnectionToken
  }

  predicate IsKeyMatching(h: HeaderState) {
    h.MatchingConnectionKeepAlive? || h.MatchingConnectionClose? || h.MatchingConnectionUpgrade?
  }

  predicate Keyed(p: Parser, t: string) {
    t != "" && p.headerState == KeyShape(t) && (IsKeyMatching(p.headerState) ==> p.index == |t| - 1)
  }

  predicate Same(p: Parser, r: Parser) { r == p.(headerState := r.headerState, index := r.index) }

  /** LOWER and the token table spell letters alike. */
  lemma LowerToken(ch: char)
    requires Token(ch) != '\0'
    ensures Lower(ch) == Token(ch) || (Lower(ch) > 'z' && (Token(ch) == '^' || Token(ch) == '_'))
    ensures ch != ' ' && ch != ',' && ch != '\t'
  {
  }

  predicate IsKey(key: string) { key == "keep-alive" || key == "close" || key == "upgrade" }

  lemma KeyLetter(key: string, i: nat)
    requires IsKey(key) && i < |key|
    ensures 'a' <= key[i] <= 'z' || key[i] == '-'
  {
  }

  /** Matching with LOWER is matching with the token table. */
  lemma MatchLower(p: Parser, ch: char, key: string, miss: HeaderState, hit: HeaderState)
    requires IsKey(key) && Token(ch) != '\0' && p.index + 1 < |key|
    ensures MatchKey(p, Lower(ch), key, miss, hit) == MatchKey(p, Token(ch), key, miss, hit)
  {
    LowerToken(ch);
    KeyCharAt(key, p.index + 1);
    KeyLetter(key, p.index + 1);
    hide KeyChar, Lower, Token, IsKey;
  }

  lemma KeyedOne(p: Parser, t: string, ch: char, key: string, matching: HeaderState, hit: HeaderState)
    requires Keyed(p, t) && p.headerState == matching && IsKeyMatching(matching) && IsKey(key) && Token(ch) != '\0'
    requires Spells(t, key).Partial?
    ensures var r := MatchKey(p, Lower(ch), key, MatchingConnectionToken, hit);
            r.headerState == Along(t + [Token(ch)], key, matching, hit, MatchingConnectionToken) && r.index == |t| &&
            Same(p, r)
  {
    assert |t| < |key| by { hide KeyShape; }
    MatchLower(p, ch, key, MatchingConnectionToken, hit);
    AlongStep(p, t, Token(ch), key, matching, hit, MatchingConnectionToken);
    hide Lower, Token, Along, Spells, KeyShape, IsKey;
  }

  /** What the keyword being matched is. */
  lemma KeyMatching(t: string)
    requires t != ""
    ensures KeyShape(t).MatchingConnectionKeepAlive? ==> t[0] == 'k' && Spells(t, "keep-alive").Partial?
    ensures KeyShape(t).MatchingConnectionClose? ==> t[0] == 'c' && Spells(t, "close").Partial?
    ensures KeyShape(t).MatchingConnectionUpgrade? ==> t[0] == 'u' && Spells(t, "upgrade").Partial?
  {
    hide Spells;
  }

  lemma KeyStuck(t: string, c: char)
    requires t != "" && !IsKeyMatching(KeyShape(t))
    ensures KeyShape(t + [c]).MatchingConnectionToken?
  {
    hide Along;
    if t[0] == 'k' {
      AlongStuck(t, c, "keep-alive", MatchingConnectionKeepAlive, ConnectionKeepAlive, MatchingConnectionToken);
    }
    else if t[0] == 'c' {
      AlongStuck(t, c, "close", MatchingConnectionClose, ConnectionClose, MatchingConnectionToken);
    }
    else if t[0] == 'u' {
      AlongStuck(t, c, "upgrade", MatchingConnectionUpgrade, ConnectionUpgrade, MatchingConnectionToken);
    }
  }

  /** One more byte of an element. */
  lemma KeyedStep(p: Parser, t: string, ch: char)
    requires Keyed(p, t) && Token(ch) != '\0'
    ensures Keyed(ConnectionByte(p, ch), t + [Token(ch)]) && Same(p, ConnectionByte(p, ch))
  {
    LowerToken(ch);
    KeyMatching(t);
    var h := p.headerState;
    if h.MatchingConnectionKeepAlive? { KeyedOne(p, t, ch, "keep-alive", h, ConnectionKeepAlive); }
    else if h.MatchingConnectionClose? { KeyedOne(p, t, ch, "close", h, ConnectionClose); }
    else if h.MatchingConnectionUpgrade? { KeyedOne(p, t, ch, "upgrade", h, ConnectionUpgrade); }
    else { KeyStuck(t, Token(ch)); }
    hide MatchKey, Along, Lower, Token, Spells, SetConnectionFlag;
  }

  /** The first byte of an element. */
  lemma KeyedFirst(p: Parser, ch: char)
    requires p.headerState.MatchingConnectionTokenStart? && p.index == 0 && Token(ch) != '\0'
    ensures ch != '_' ==> Keyed(ConnectionByte(p, ch), [Token(ch)]) && Same(p, ConnectionByte(p, ch))
    ensures ch == '_' ==> ConnectionByte(p, ch) == p.(headerState := General)
  {
    LowerToken(ch);
    LowerIsToken(ch);
    assert Token('_') == '_' && Lower('_') == '\U{7F}';
    assert "keep-alive"[..1] == "k" && "close"[..1] == "c" && "upgrade"[..1] == "u";
    hide Lower, MatchKey, SetConnectionFlag;
  }

  lemma LowerIsToken(ch: char)
    requires Token(ch) != '\0'
    ensures Token(Lower(ch)) == '\0' <==> ch == '_'
    ensures Lower(ch) != ' ' && Lower(ch) != '\t'
  {
  }

  // ---------------------------------------------------------------- an element

  lemma ScanByte(p: Parser, ch: char)
    requires IsConnectionScan(p.headerState)
    ensures ValueByte(p, ch) == ConnectionByte(p, ch)
  {
    hide ConnectionByte;
  }

  lemma SpaceByte(p: Parser)
    requires IsConnectionScan(p.headerState)
    ensures var r := ConnectionByte(p, ' ');
            if IsKeyMatching(p.headerState) && p.index <= 10
            then r == p.(headerState := MatchingConnectionToken, index := p.index + 1)
            else !IsKeyMatching(p.headerState) ==> r == p
  {
    hide KeyChar, SetConnectionFlag;
    KeyCharAt("keep-alive", p.index + 1);
    KeyCharAt("close", p.index + 1);
    KeyCharAt("upgrade", p.index + 1);
    assert Lower(' ') == ' ' && Token(' ') == '\0';
  }

  lemma {:induction false} SpacesStay(p: Parser, n: nat)
    requires (IsConnectionScan(p.headerState) && !IsKeyMatching(p.headerState)) || p.headerState.General?
    ensures Folded(p, Spaces(n)) == p
  {
    hide ConnectionByte;
    if n > 0 {
      SpacesStay(p, n - 1);
      var s := Spaces(n - 1);
      assert (s + [' '])[..|s|] == s;
      if !p.headerState.General? { ScanByte(p, ' '); SpaceByte(p); }
    }
  }

  /** Text without a comma inside an absorbed element. */
  lemma {:induction false} TokenStays(p: Parser, s: string)
    requires p.headerState.MatchingConnectionToken? || p.headerState.General?
    requires forall i | 0 <= i < |s| :: s[i] != ','
    ensures Folded(p, s) == p
  {
    if s != "" { TokenStays(p, s[..|s| - 1]); }
    hide Lower, Token, MatchKey, ContentLengthDigit;
  }

  lemma {:induction false} KeyedRest(p: Parser, t: string, s: string)
    requires Keyed(p, t) && forall i | 0 <= i < |s| :: Token(s[i]) != '\0'
    ensures Keyed(Folded(p, s), t + Spelled(s)) && Same(p, Folded(p, s))
  {
    hide ConnectionByte, Token, KeyShape, ValueByte;
    if s == "" {
      assert t + Spelled(s) == t;
    } else {
      var front, ch := s[..|s| - 1], s[|s| - 1];
      KeyedRest(p, t, front);
      KeyedScans(Folded(p, front), t + Spelled(front));
      ScanByte(Folded(p, front), ch);
      KeyedStep(Folded(p, front), t + Spelled(front), ch);
      assert t + Spelled(front) + [Token(ch)] == t + Spelled(s);
    }
  }

  lemma KeyedToken(p: Parser, t: string)
    requires p.headerState.MatchingConnectionTokenStart? && p.index == 0 && IsName(t) && t[0] != '_'
    ensures Keyed(Folded(p, t), Spelled(t)) && Same(p, Folded(p, t))
  {
    hide ConnectionByte, Token, KeyShape, Spelled, ValueByte, Folded;
    FoldedOne(p, t[0]);
    ScanByte(p, t[0]);
    KeyedFirst(p, t[0]);
    KeyedRest(ConnectionByte(p, t[0]), [Token(t[0])], t[1..]);
    SpelledRest(t);
    FoldedConcat(p, [t[0]], t[1..]);
    assert [t[0]] + t[1..] == t;
  }

  lemma KeyedScans(p: Parser, t: string)
    requires Keyed(p, t)
    ensures IsConnectionScan(p.headerState)
  {
    hide Along;
  }

  /** The header state at the end of an element that is compared. */
  function ItemEnd(it: Item): HeaderState
    requires it.token != ""
  {
    var h := KeyShape(Spelled(it.token));
    if IsKeyMatching(h) && it.after > 0 then MatchingConnectionToken else h
  }

  /** The parser stands at the end of an element. */
  predicate AtEnd(p: Parser, items: seq<Item>)
    requires items != [] && AreTokens(items)
  {
    var it := items[|items| - 1];
    match ModeOf(items)
    case Compared => p.headerState == ItemEnd(it) && (IsKeyMatching(p.headerState) ==> p.index == |it.token| - 1)
    case Absorbed => p.headerState.MatchingConnectionToken?
    case Ended => p.headerState.General?
  }

  lemma MatchingShort(t: string)
    requires t != "" && IsKeyMatching(KeyShape(t))
    ensures |t| <= 9
  {
    KeyMatching(t);
    hide KeyShape;
  }

  /** A space within a keyword ends the match. */
  lemma SpacesBreak(p: Parser, t: string, n: nat)
    requires Keyed(p, t) && IsKeyMatching(p.headerState) && n > 0
    ensures var r := Folded(p, Spaces(n)); Same(p, r) && r.headerState.MatchingConnectionToken?
  {
    hide Folded, ValueByte, ConnectionByte, KeyShape, Spaces;
    KeyedScans(p, t);
    MatchingShort(t);
    FoldedOne(p, ' ');
    ScanByte(p, ' ');
    SpaceByte(p);
    SpacesFirst(n);
    SpacesStay(ConnectionByte(p, ' '), n - 1);
    hide Keyed;
    FoldedConcat(p, [' '], Spaces(n - 1));
  }

  /** The spaces behind a token. */
  lemma SpacesAfter(p: Parser, it: Item)
    requires it.token != "" && Keyed(p, Spelled(it.token))
    ensures var r := Folded(p, Spaces(it.after));
            Same(p, r) && r.headerState == ItemEnd(it) &&
            (IsKeyMatching(r.headerState) ==> r.index == |it.token| - 1)
  {
    hide Folded, Spelled, ValueByte, ConnectionByte, KeyShape, IsConnectionScan, Spaces;
    if it.after == 0 {
      NoSpaces(p);
    } else if IsKeyMatching(p.headerState) {
      SpacesBreak(p, Spelled(it.token), it.after);
    } else {
      KeyedScans(p, Spelled(it.token));
      SpacesStay(p, it.after);
    }
  }

  lemma NoSpaces(p: Parser)
    ensures Folded(p, Spaces(0)) == p
  {
    hide ValueByte;
  }

  lemma {:induction false} SpacesFirst(n: nat)
    requires n > 0
    ensures Spaces(n) == [' '] + Spaces(n - 1)
  {
    if n > 1 { SpacesFirst(n - 1); }
  }

  lemma {:induction false} SpacesOnly(n: nat)
    ensures forall i | 0 <= i < |Spaces(n)| :: Spaces(n)[i] == ' '
  {
    if n > 0 { SpacesOnly(n - 1); }
  }

  lemma ItemHasNoComma(it: Item)
    requires IsName(it.token)
    ensures forall i | 0 <= i < |ItemText(it)| :: ItemText(it)[i] != ','
  {
    SpacesOnly(it.before);
    SpacesOnly(it.after);
    forall i | 0 <= i < |it.token| ensures it.token[i] != ',' { LowerToken(it.token[i]); }
  }

  /** A whole element from the place behind a comma that was seen. */
  lemma ItemCompared(p: Parser, it: Item)
    requires p.headerState.MatchingConnectionTokenStart? && p.index == 0 && IsName(it.token) && it.token[0] != '_'
    ensures var r := Folded(p, ItemText(it));
            Same(p, r) && r.headerState == ItemEnd(it) &&
            (IsKeyMatching(r.headerState) ==> r.index == |it.token| - 1)
  {
    hide Folded, Spelled, Keyed, ItemEnd;
    SpacesStay(p, it.before);
    KeyedToken(p, it.token);
    SpacesAfter(Folded(p, it.token), it);
    FoldedConcat(p, Spaces(it.before), it.token);
    FoldedConcat(p, Spaces(it.before) + it.token, Spaces(it.after));
  }

  /** An element that begins with an underscore, behind a comma that was seen. */
  lemma ItemEnds(p: Parser, it: Item)
    requires p.headerState.MatchingConnectionTokenStart? && p.index == 0 && IsName(it.token) && it.token[0] == '_'
    ensures Folded(p, ItemText(it)) == p.(headerState := General)
  {
    hide Folded, Token, ConnectionByte, ValueByte;
    var g, rest := p.(headerState := General), it.token[1..] + Spaces(it.after);
    SpacesStay(p, it.before);
    FoldedOne(p, '_');
    ScanByte(p, '_');
    KeyedFirst(p, '_');
    ItemHasNoComma(it);
    assert ItemText(it) == Spaces(it.before) + ['_'] + rest;
    forall i | 0 <= i < |rest| ensures rest[i] != ',' { assert rest[i] == ItemText(it)[|Spaces(it.before)| + 1 + i]; }
    TokenStays(g, rest);
    FoldedConcat(p, Spaces(it.before), ['_']);
    FoldedConcat(p, Spaces(it.before) + ['_'], rest);
  }

  // ---------------------------------------------------------------- the whole list

  /** The flag of a keyword. */
  function KeywordFlag(f: Flags, t: string): Flags {
    if t == "keep-alive" then f.(keepAlive := true)
    else if t == "close" then f.(close := true)
    else if t == "upgrade" then f.(connectionUpgrade := true)
    else f
  }

  lemma KeyShapeMeans(t: string)
    requires t != ""
    ensures KeyShape(t).ConnectionKeepAlive? <==> t == "keep-alive"
    ensures KeyShape(t).ConnectionClose? <==> t == "close"
    ensures KeyShape(t).ConnectionUpgrade? <==> t == "upgrade"
  {
    assert "keep-alive"[0] == 'k' && "close"[0] == 'c' && "upgrade"[0] == 'u';
  }

  lemma ItemFlag(f: Flags, it: Item)
    requires it.token != ""
    ensures ConnectionFlags(f, ItemEnd(it)) == KeywordFlag(f, Spelled(it.token))
  {
    KeyShapeMeans(Spelled(it.token));
    hide KeyShape, Spelled;
  }

  /** The flags set by the elements of a list. */
  function FlagsOf(f: Flags, items: seq<Item>): Flags
    requires AreTokens(items)
  {
    if items == [] then f
    else
      var g := FlagsOf(f, items[..|items| - 1]);
      if ModeOf(items).Compared? then KeywordFlag(g, Spelled(items[|items| - 1].token)) else g
  }

  /** What the scanner has done up to the end of the last element. */
  predicate Scanned(p: Parser, r: Parser, items: seq<Item>)
    requires items != [] && AreTokens(items)
  {
    AtEnd(r, items) && r.flags == FlagsOf(p.flags, items[..|items| - 1]) &&
    r == p.(headerState := r.headerState, index := r.index, flags := r.flags)
  }

  /** The comma behind an element that is compared. */
  lemma CommaCompared(r: Parser, it: Item)
    requires IsName(it.token) && r.headerState == ItemEnd(it) &&
             (IsKeyMatching(r.headerState) ==> r.index == |it.token| - 1)
    ensures var c := ValueByte(r, ',');
            if Swallows(it) then c == r.(headerState := MatchingConnectionToken, index := c.index) &&
               ItemEnd(it) == r.headerState && KeywordFlag(r.flags, Spelled(it.token)) == r.flags
            else c == r.(headerState := MatchingConnectionTokenStart, index := 0,
                         flags := KeywordFlag(r.flags, Spelled(it.token)))
  {
    hide Spelled, ItemEnd, Swallows, ValueByte, KeywordFlag;
    ItemFlag(r.flags, it);
    SwallowsMeans(it);
    CommaByte(r);
  }

  /** The comma behind a list. */
  lemma Comma(p: Parser, r: Parser, items: seq<Item>)
    requires items != [] && AreTokens(items) && Scanned(p, r, items)
    ensures var c := ValueByte(r, ',');
            var it := items[|items| - 1];
            c == p.(headerState := c.headerState, index := c.index, flags := FlagsOf(p.flags, items)) &&
            if ModeOf(items).Ended? then c.headerState.General?
            else if ModeOf(items).Compared? && Swallows(it) then c.headerState.MatchingConnectionToken?
            else c.headerState.MatchingConnectionTokenStart? && c.index == 0
  {
    hide Spelled, FlagsOf, ModeOf, KeywordFlag, Swallows, ItemEnd, ConnectionByte;
    var it := items[|items| - 1];
    assert IsName(it.token);
    FlagsLast(p.flags, items);
    if ModeOf(items).Compared? {
      hide ValueByte;
      CommaCompared(r, it);
    } else if ModeOf(items).Absorbed? {
      hide ValueByte;
      CommaByte(r);
      assert ConnectionFlags(r.flags, r.headerState) == r.flags;
    }
  }

  lemma FlagsLast(f: Flags, items: seq<Item>)
    requires items != [] && AreTokens(items)
    ensures FlagsOf(f, items) == if ModeOf(items).Compared?
            then KeywordFlag(FlagsOf(f, items[..|items| - 1]), Spelled(items[|items| - 1].token))
                                 else FlagsOf(f, items[..|items| - 1])
  {
  }

  lemma SwallowsMeans(it: Item)
    requires IsName(it.token)
    ensures Swallows(it) <==> IsKeyMatching(ItemEnd(it))
    ensures IsConnectionScan(ItemEnd(it)) && !ItemEnd(it).MatchingConnectionTokenStart?
    ensures Swallows(it) ==> |it.token| <= 9
  {
    var t := Spelled(it.token);
    SpellsFirst(t, KeywordFor(t));
    hide Spells, Spelled;
  }

  lemma SpellsFirst(t: string, key: string)
    requires t != ""
    ensures Spells(t, key).Partial? ==> t[0] == key[0] && |t| < |key|
  {
  }

  lemma CommaByte(p: Parser)
    requires IsConnectionScan(p.headerState) && !p.headerState.MatchingConnectionTokenStart? &&
             (IsKeyMatching(p.headerState) ==> p.index <= 8)
    ensures var c := ValueByte(p, ',');
            if IsKeyMatching(p.headerState) then c == p.(headerState := MatchingConnectionToken, index := p.index + 1)
            else c == p.(headerState := MatchingConnectionTokenStart, index := 0,
                         flags := ConnectionFlags(p.flags, p.headerState))
  {
    ScanByte(p, ',');
    KeyCharAt("keep-alive", p.index + 1);
    KeyCharAt("close", p.index + 1);
    KeyCharAt("upgrade", p.index + 1);
    assert Lower(',') == ',';
    hide KeyChar, Lower;
  }

  /** One more element. */
  lemma NextItem(p: Parser, r: Parser, front: seq<Item>, it: Item)
    requires front != [] && AreTokens(front + [it]) && AreTokens(front) && Scanned(p, r, front)
    ensures Scanned(p, Folded(r, [','] + ItemText(it)), front + [it])
  {
    hide Folded, ItemText, ItemEnd, Swallows, FlagsOf, ConnectionByte, ValueByte;
    var items := front + [it];
    assert items[..|items| - 1] == front && items[|items| - 1] == it && IsName(items[|front|].token);
    Comma(p, r, front);
    var c := ValueByte(r, ',');
    FoldedOne(r, ',');
    FoldedConcat(r, [','], ItemText(it));
    var m := ModeOf(front);
    if m.Ended? || (m.Compared? && Swallows(front[|front| - 1])) {
      ItemHasNoComma(it);
      TokenStays(c, ItemText(it));
    } else if it.token[0] == '_' {
      ItemEnds(c, it);
    } else {
      ItemCompared(c, it);
    }
  }

  /** The first element, whose first byte is read by s_header_value_start. */
  lemma FirstByteKeyed(q: Parser, ch: char)
    requires q.headerState.Connection? && Token(ch) != '\0'
    ensures var p := ValueStart(q, ch).p;
            Keyed(p, [Token(ch)]) && p == q.(state := HeaderValue, index := p.index, headerState := p.headerState)
  {
    LowerToken(ch);
    assert "keep-alive"[..1] == "k" && "close"[..1] == "c" && "upgrade"[..1] == "u";
    hide Lower, Token;
  }

  lemma FirstItem(q: Parser, it: Item)
    requires q.headerState.Connection? && it.before == 0 && IsName(it.token)
    ensures ItemText(it) != "" && ItemText(it)[0] == it.token[0]
    ensures Scanned(q.(state := HeaderValue), Folded(ValueStart(q, it.token[0]).p, ItemText(it)[1..]), [it])
  {
    hide Folded, ItemEnd, ValueStart, Keyed, Token, Spelled;
    var t, p := it.token, ValueStart(q, it.token[0]).p;
    FirstByteKeyed(q, t[0]);
    KeyedRest(p, [Token(t[0])], t[1..]);
    SpelledRest(t);
    SpacesAfter(Folded(p, t[1..]), it);
    FoldedConcat(p, t[1..], Spaces(it.after));
    assert ItemText(it) == t + Spaces(it.after) && ItemText(it)[1..] == t[1..] + Spaces(it.after);
    assert [it][..0] == [] && AreTokens([it]) && AreTokens([]);
  }

  lemma {:induction false} ListScanned(q: Parser, items: seq<Item>)
    requires q.headerState.Connection? && items != [] && AreTokens(items) && items[0].before == 0
    ensures var v := ListText(items);
            v != "" && v[0] == items[0].token[0] && IsName(items[0].token) &&
            Scanned(q.(state := HeaderValue), Folded(ValueStart(q, v[0]).p, v[1..]), items)
  {
    hide Folded, ItemText, ValueStart, Scanned;
    assert IsName(items[0].token);
    if |items| == 1 {
      FirstItem(q, items[0]);
      assert items == [items[0]];
    } else {
      var front, it := items[..|items| - 1], items[|items| - 1];
      assert items == front + [it];
      assert AreTokens(front);
      ListScanned(q, front);
      var p, u := ValueStart(q, items[0].token[0]).p, ListText(front);
      NextItem(q.(state := HeaderValue), Folded(p, u[1..]), front, it);
      FoldedConcat(p, u[1..], [','] + ItemText(it));
      assert ListText(items)[1..] == u[1..] + ([','] + ItemText(it));
    }
  }

  // ---------------------------------------------------------------- the header

  lemma NameIsHeaderText(t: string, i: nat)
    requires IsName(t) && i < |t|
    ensures IsHeaderChar(t[i]) && !IsCrLf(t[i]) && !IsBlank(t[i])
  {
    LowerToken(t[i]);
  }

  predicate IsPlainText(s: string) { forall i | 0 <= i < |s| :: IsHeaderChar(s[i]) && !IsCrLf(s[i]) }

  lemma ItemIsPlain(it: Item)
    requires IsName(it.token)
    ensures IsPlainText(ItemText(it))
  {
    SpacesOnly(it.before);
    SpacesOnly(it.after);
    forall i | 0 <= i < |it.token|
      ensures IsHeaderChar(it.token[i]) && !IsCrLf(it.token[i])
    {
      NameIsHeaderText(it.token, i);
    }
  }

  lemma {:induction false} ListIsPlain(items: seq<Item>)
    requires AreTokens(items)
    ensures IsPlainText(ListText(items))
  {
    hide ItemText, IsName, IsHeaderChar;
    assert IsHeaderChar(',') by { CommaIsHeaderChar(); }
    if |items| == 1 {
      ItemIsPlain(items[0]);
    } else if items != [] {
      ListIsPlain(items[..|items| - 1]);
      ItemIsPlain(items[|items| - 1]);
    }
  }

  lemma CommaIsHeaderChar()
    ensures IsHeaderChar(',')
  {
  }

  /** The walk over a value is the fold of the scanner. */
  lemma {:induction false} FoldedWalk(q: Parser, s: string)
    requires QuietState(q.headerState) && q.state.HeaderValue? && q.errno.OK? && IsPlainText(s)
    ensures WalkTo(q, s) == Folded(q, s) && Plods(q, s)
  {
    hide Dispatch, Turns, ValueByte, IsHeaderChar;
    QuietWalk(q, s);
    if s != "" {
      var front, ch := s[..|s| - 1], s[|s| - 1];
      assert s == front + [ch];
      FoldedWalk(q, front);
      QuietWalk(q, front);
      var m := WalkTo(q, front);
      assert m.errno.OK? && m.state.HeaderValue?;
      QuietByte(m, ch);
      assert DispatchValue(m, ch, false) == Go(ValueByte(m, ch));
      ValueTurns(m, ch, Go(ValueByte(m, ch)));
      WalkStep(q, front, ch, ValueByte(m, ch));
    }
  }

  /** At the end of a Connection header the connection flags are set by exactly those elements
      of the list that are compared and spell a keyword, in whatever case. */
  lemma ConnectionList(q: Parser, items: seq<Item>)
    requires q.headerState.Connection? && q.errno.OK? && items != [] && AreTokens(items) && items[0].before == 0
    ensures var v := ListText(items);
            IsValueText(v) && ValuePlods(q, v) &&
            var f := LineEnd(ValueRead(q, v)).flags;
            f == q.flags.(keepAlive := q.flags.keepAlive || Mentions(items, "keep-alive"),
                          close := q.flags.close || Mentions(items, "close"),
                          connectionUpgrade := q.flags.connectionUpgrade || Mentions(items, "upgrade"))
  {
    hide ListText, Folded, WalkTo, Plods, ValueStart, Mentions, FlagsOf, IsHeaderChar, AtEnd;
    var v := ListText(items);
    ListScanned(q, items);
    ListIsPlain(items);
    NameIsHeaderText(items[0].token, 0);
    QuietStart(q, v[0]);
    assert IsPlainText(v[1..]) by {
      forall i | 0 <= i < |v[1..]|
        ensures IsHeaderChar(v[1..][i]) && !IsCrLf(v[1..][i])
      {
        assert v[1..][i] == v[i + 1];
      }
    }
    FoldedWalk(ValueStart(q, v[0]).p, v[1..]);
    EndFlags(q.flags, ValueRead(q, v), items);
    FlagsMention(q.flags, items);
  }

  /** The end of the line does for the last element what a comma does. */
  lemma EndFlags(f: Flags, r: Parser, items: seq<Item>)
    requires items != [] && AreTokens(items) && AtEnd(r, items) && r.flags == FlagsOf(f, items[..|items| - 1])
    ensures LineEnd(r).flags == FlagsOf(f, items)
  {
    hide FlagsOf, ModeOf, ItemEnd, KeywordFlag;
    var it := items[|items| - 1];
    assert IsName(it.token);
    FlagsLast(f, items);
    if ModeOf(items).Compared? {
      ItemFlag(r.flags, it);
      SwallowsMeans(it);
    }
    hide Swallows;
  }

  function Flagged(f: Flags, keepAlive: bool, close: bool, upgrade: bool): Flags {
    f.(keepAlive := f.keepAlive || keepAlive, close := f.close || close,
       connectionUpgrade := f.connectionUpgrade || upgrade)
  }

  lemma FlaggedMore(f: Flags, a: bool, b: bool, c: bool, t: string)
    ensures KeywordFlag(Flagged(f, a, b, c), t) ==
            Flagged(f, a || t == "keep-alive", b || t == "close", c || t == "upgrade")
  {
  }

  lemma {:induction false} FlagsMention(f: Flags, items: seq<Item>)
    requires AreTokens(items)
    ensures FlagsOf(f, items) ==
            Flagged(f, Mentions(items, "keep-alive"), Mentions(items, "close"), Mentions(items, "upgrade"))
  {
    hide ModeOf, Spelled, KeywordFlag;
    if items != [] {
      var front := items[..|items| - 1];
      FlagsMention(f, front);
      FlaggedMore(f, Mentions(front, "keep-alive"), Mentions(front, "close"), Mentions(front, "upgrade"),
                  Spelled(items[|items| - 1].token));
      hide Flagged;
    }
  }

  /** When no element but the last is swallowing and none but the first begins with an
      underscore, the scanner is split-and-compare. */
  lemma {:induction false} PlainList(items: seq<Item>, key: string)
    requires AreTokens(items)
    requires forall i | 0 <= i < |items| - 1 :: IsName(items[i].token) && !Swallows(items[i])
    requires forall i | 0 < i < |items| :: IsName(items[i].token) && items[i].token[0] != '_'
    ensures items != [] ==> ModeOf(items).Compared?
    ensures Mentions(items, key) <==> exists i :: 0 <= i < |items| && Spelled(items[i].token) == key
  {
    hide Spelled, Swallows;
    if items != [] {
      var front, it := items[..|items| - 1], items[|items| - 1];
      assert items == front + [it];
      PlainList(front, key);
      if Spelled(it.token) == key { assert Spelled(items[|items| - 1].token) == key; }
      if i :| 0 <= i < |front| && Spelled(front[i].token) == key { assert Spelled(items[i].token) == key; }
    }
  }
}
