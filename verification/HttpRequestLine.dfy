/** Reading a printed request line: the method table, the URL and the version. */
module HttpRequestLine {
  import opened HttpTypes
  import opened HttpAutomaton
  import opened HttpScan
  import opened HttpRuns
  import opened HttpInvariant
  import opened HttpReads
  import opened HttpNames
  import opened HttpValues
  import opened HttpHeaders

  // ---------------------------------------------------------------- the method

  datatype Branch = Root | From(parent: Method, at: nat)

  /** The method that this one is taken for until the byte at `at` is read. */
  function BranchOf(m: Method): Branch {
    match m
    case PUT | PATCH | PROPFIND => From(POST, 1)
    case CHECKOUT => From(CONNECT, 1)
    case COPY => From(CONNECT, 2)
    case MOVE | MERGE | MSEARCH => From(MKCOL, 1)
    case MKACTIVITY => From(MKCOL, 2)
    case MKCALENDAR => From(MKCOL, 3)
    case SEARCH => From(SUBSCRIBE, 1)
    case REBIND => From(REPORT, 2)
    case PROPPATCH => From(PROPFIND, 4)
    case PURGE => From(PUT, 2)
    case LINK => From(LOCK, 1)
    case UNSUBSCRIBE | UNBIND => From(UNLOCK, 2)
    case UNLINK => From(UNLOCK, 3)
    case _ => Root
  }

  /** The method assumed after i bytes of the name of `m`. */
  function Assumed(m: Method, i: nat): Method {
    var b := BranchOf(m);
    if b.Root? || i > b.at then m
    else
      var c := BranchOf(b.parent);
      if c.Root? || i > c.at then b.parent else c.parent
  }

  lemma BranchFacts(m: Method)
    requires BranchOf(m).From?
    ensures var (par, k) := (BranchOf(m).parent, BranchOf(m).at);
            1 <= k < |MethodString(m)| && k < |MethodString(par)| && MethodString(m)[k] != MethodString(par)[k] &&
            MethodString(m)[k] != ' ' && MethodString(m)[k] != '\0'
  {
  }

  /** Up to there the names are the same. */
  lemma BranchPrefix(m: Method, i: nat)
    requires BranchOf(m).From? && i < BranchOf(m).at
    ensures var par := BranchOf(m).parent;
            i < |MethodString(m)| && i < |MethodString(par)| && MethodString(m)[i] == MethodString(par)[i]
  {
  }

  lemma BranchSwitch(m: Method)
    requires BranchOf(m).From?
    ensures var (par, k) := (BranchOf(m).parent, BranchOf(m).at);
            k < |MethodString(m)| &&
            var ch := MethodString(m)[k];
            if m.MSEARCH? then ch == '-' && k == 1 && par.MKCOL?
            else IsAlpha(ch) && SwitchMethod(par, k, ch) == Some(m)
  {
  }

  lemma BranchTwice(m: Method)
    requires BranchOf(m).From? && BranchOf(BranchOf(m).parent).From?
    ensures BranchOf(BranchOf(BranchOf(m).parent).parent).Root? && BranchOf(BranchOf(m).parent).at < BranchOf(m).at
  {
  }

  predicate EarlyMethod(m: Method) {
    m.DELETE? || m.GET? || m.HEAD? || m.POST? || m.PUT? || m.CONNECT? || m.OPTIONS? || m.TRACE? || m.COPY? || m.LOCK? ||
    m.MKCOL? || m.MOVE? || m.PROPFIND? || m.PROPPATCH? || m.SEARCH? || m.UNLOCK?
  }

  lemma FirstEarly(m: Method)
    requires EarlyMethod(m)
    ensures 3 <= |MethodString(m)| && IsAlpha(MethodString(m)[0]) &&
            FirstMethod(MethodString(m)[0]) == Some(Assumed(m, 1))
    ensures !IsCrLf(MethodString(m)[0])
  {
  }

  lemma FirstLate(m: Method)
    requires !EarlyMethod(m)
    ensures 3 <= |MethodString(m)| && IsAlpha(MethodString(m)[0]) &&
            FirstMethod(MethodString(m)[0]) == Some(Assumed(m, 1))
    ensures !IsCrLf(MethodString(m)[0])
  {
  }

  lemma FirstAssumed(m: Method)
    ensures 3 <= |MethodString(m)| && IsAlpha(MethodString(m)[0]) &&
            FirstMethod(MethodString(m)[0]) == Some(Assumed(m, 1))
    ensures !IsCrLf(MethodString(m)[0])
  {
    if EarlyMethod(m) { FirstEarly(m); } else { FirstLate(m); }
    hide MethodString, EarlyMethod, IsAlpha, FirstMethod, Assumed;
  }

  lemma EarlyLetters(m: Method, i: nat)
    requires EarlyMethod(m) && i < |MethodString(m)|
    ensures MethodString(m)[i] != '\0' && MethodString(m)[i] != ' '
  {
  }

  lemma LateLetters(m: Method, i: nat)
    requires !EarlyMethod(m) && i < |MethodString(m)|
    ensures MethodString(m)[i] != '\0' && MethodString(m)[i] != ' '
  {
  }

  lemma LetterFacts(m: Method, i: nat)
    requires i < |MethodString(m)|
    ensures MethodString(m)[i] != '\0' && MethodString(m)[i] != ' '
  {
    if EarlyMethod(m) { EarlyLetters(m, i); } else { LateLetters(m, i); }
    hide MethodString, EarlyMethod;
  }

  function MethodAt(q: Parser, m: Method, i: nat): Parser { q.(state := ReqMethod, httpMethod := m, index := i) }

  /** The letter of the method assumed. */
  lemma SameLetter(q: Parser, m: Method, i: nat, ch: char)
    requires i < |MethodString(m)| && ch == MethodString(m)[i] && ch != '\0' && ch != ' '
    ensures DispatchMethod(MethodAt(q, m, i), ch) == Go(MethodAt(q, m, i + 1))
  {
    KeyCharAt(MethodString(m), i);
    hide Descends, KeyChar, SwitchMethod, MethodString;
  }

  /** The letter at which another method takes over. */
  lemma OtherLetter(q: Parser, par: Method, m: Method, i: nat, ch: char)
    requires 1 <= i < |MethodString(par)| && ch != MethodString(par)[i] && ch != '\0' && ch != ' '
    requires if m.MSEARCH? then ch == '-' && i == 1 && par.MKCOL?
             else IsAlpha(ch) && SwitchMethod(par, i, ch) == Some(m)
    ensures DispatchMethod(MethodAt(q, par, i), ch) == Go(MethodAt(q, m, i + 1))
  {
    KeyCharAt(MethodString(par), i);
    hide Descends, KeyChar, SwitchMethod, MethodString;
  }

  lemma MethodStep(q: Parser, m: Method, i: nat)
    requires 1 <= i < |MethodString(m)|
    ensures DispatchMethod(MethodAt(q, Assumed(m, i), i), MethodString(m)[i]) ==
            Go(MethodAt(q, Assumed(m, i + 1), i + 1))
  {
    hide MethodString, SwitchMethod, DispatchMethod, BranchOf, MethodAt;
    var b, ch := BranchOf(m), MethodString(m)[i];
    LetterFacts(m, i);
    if b.Root? || i > b.at {
      SameLetter(q, m, i, ch);
    } else {
      BranchFacts(m);
      BranchSwitch(m);
      var c := BranchOf(b.parent);
      if i < b.at { BranchPrefix(m, i); }
      if c.From? {
        BranchTwice(m);
        BranchFacts(b.parent);
        BranchSwitch(b.parent);
        if i < c.at { BranchPrefix(b.parent, i); }
      }
      if c.From? && i <= c.at {
        if i == c.at { OtherLetter(q, c.parent, b.parent, i, ch); } else { SameLetter(q, c.parent, i, ch); }
      } else {
        if i == b.at { OtherLetter(q, b.parent, m, i, ch); } else { SameLetter(q, b.parent, i, ch); }
      }
    }
  }

  lemma MethodTurns(q: Parser, ch: char, r: Parser)
    requires q.state.ReqMethod? && q.errno.OK? && r.errno.OK? && DispatchMethod(q, ch) == Go(r)
    ensures Turns(q, ch, Go(r))
  {
    hide Descends, DispatchMethod;
  }

  lemma {:induction false} MethodWalk(q: Parser, m: Method, n: nat)
    requires q.errno.OK? && 1 <= n <= |MethodString(m)|
    ensures var s := MethodString(m)[1..n]; var q1 := MethodAt(q, Assumed(m, 1), 1);
            Plods(q1, s) && WalkTo(q1, s) == MethodAt(q, Assumed(m, n), n)
  {
    hide MethodString, Dispatch, DispatchMethod, Turns, Assumed;
    var s, q1 := MethodString(m), MethodAt(q, Assumed(m, 1), 1);
    if n == 1 {
      WalkNothing(q1);
      assert s[1..1] == "";
    } else {
      MethodWalk(q, m, n - 1);
      MethodStep(q, m, n - 1);
      MethodTurns(MethodAt(q, Assumed(m, n - 1), n - 1), s[n - 1], MethodAt(q, Assumed(m, n), n));
      WalkStep(q1, s[1..n - 1], s[n - 1], MethodAt(q, Assumed(m, n), n));
      assert s[1..n] == s[1..n - 1] + [s[n - 1]];
    }
  }

  /** The parser after the method and a space. */
  function MethodRead(q: Parser, m: Method): Parser {
    Begin(q).(state := ReqSpacesBeforeUrl, httpMethod := m, index := |MethodString(m)| + 1)
  }

  lemma StartTurns(q: Parser, m: Method)
    requires q.state.StartReq? && q.errno.OK?
    ensures |MethodString(m)| > 0
    ensures Turns(q, MethodString(m)[0],
                  Outcome(MethodAt(Begin(q), Assumed(m, 1), 1), NoMark, NoFlush, [MessageBegin], Next))
  {
    FirstAssumed(m);
    hide Descends, MethodString, FirstMethod, Assumed, IsAlpha;
  }

  lemma SpaceEnds(q: Parser, m: Method)
    ensures var n := |MethodString(m)|;
            DispatchMethod(MethodAt(q, m, n), ' ') ==
            Go(q.(state := ReqSpacesBeforeUrl, httpMethod := m, index := n + 1))
  {
    KeyCharAt(MethodString(m), |MethodString(m)|);
    hide Descends, KeyChar, SwitchMethod, MethodString;
  }

  lemma SpaceTurns(q: Parser, m: Method)
    requires q.errno.OK?
    ensures Turns(MethodAt(q, m, |MethodString(m)|), ' ',
                  Go(q.(state := ReqSpacesBeforeUrl, httpMethod := m, index := |MethodString(m)| + 1)))
  {
    hide Turns, DispatchMethod, MethodString;
    SpaceEnds(q, m);
    var n := |MethodString(m)|;
    MethodTurns(MethodAt(q, m, n), ' ', q.(state := ReqSpacesBeforeUrl, httpMethod := m, index := n + 1));
  }

  lemma ReadMethod(sc: Scan, q: Parser, out: seq<Event>, m: Method)
    requires At(sc, q, Nothing, out) && q.state.StartReq?
    ensures At(ScanAll(sc, MethodString(m) + " "), MethodRead(q, m), Nothing, out + [MessageBegin])
  {
    hide Turns, ByteStep, ScanAll, MethodString, WalkTo, Plods;
    AtOk(sc, q, Nothing, out);
    StartTurns(q, m);
    var s, q1 := MethodString(m), MethodAt(Begin(q), Assumed(m, 1), 1);
    ReadEvents(sc, q, out, s[0], q1, [MessageBegin]);
    MethodWalk(Begin(q), m, |s|);
    assert s[1..|s|] == s[1..];
    ReadWalk(ByteStep(sc, s[0]), q1, Nothing, out + [MessageBegin], s[1..]);
    AssumedLast(m);
    SpaceTurns(Begin(q), m);
    ReadPlain(ScanAll(ByteStep(sc, s[0]), s[1..]), MethodAt(Begin(q), m, |s|), out + [MessageBegin], ' ',
              MethodRead(q, m));
    hide At, Assumed;
    ScanOne(sc, s[0]);
    ScanAllConcat(sc, [s[0]], s[1..]);
    assert [s[0]] + s[1..] == s;
    ScanAllSnoc(sc, s, ' ');
    assert s + [' '] == s + " ";
  }

  lemma AssumedLast(m: Method)
    ensures Assumed(m, |MethodString(m)|) == m
  {
    if BranchOf(m).From? { BranchFacts(m); }
    hide MethodString, BranchOf;
  }

  // ---------------------------------------------------------------- the URL

  predicate IsPath(path: string) {
    path != "" && (path[0] == '/' || path[0] == '*') && forall i | 0 <= i < |path| :: IsUrlChar(path[i])
  }

  predicate IsQuery(query: string) { forall i | 0 <= i < |query| :: IsUrlChar(query[i]) || query[i] == '?' }

  function UrlText(path: string, query: string): string { if query == "" then path else path + "?" + query }

  /** A request target that begins with a slash or a star: any visible bytes. */
  predicate IsTarget(s: string) {
    s != "" && (s[0] == '/' || s[0] == '*') && forall i | 0 <= i < |s| :: '!' <= s[i] <= '~'
  }

  lemma UrlIsTarget(path: string, query: string)
    requires IsPath(path) && IsQuery(query)
    ensures IsTarget(UrlText(path, query))
  {
  }

  predicate InUrl(q: Parser) {
    q.errno.OK? && (q.state.ReqPath? || q.state.ReqQueryStringStart? || q.state.ReqQueryString? ||
                    q.state.ReqFragmentStart? || q.state.ReqFragment?)
  }

  lemma UrlFirst(q: Parser, ch: char)
    requires q.state.ReqSpacesBeforeUrl? && q.errno.OK? && !q.httpMethod.CONNECT? && (ch == '/' || ch == '*')
    ensures Turns(q, ch, Outcome(q.(state := ReqPath), MarkOf(Url), NoFlush, [], Next))
  {
    hide Descends;
  }

  lemma UrlTurns(q: Parser, ch: char) returns (s: State)
    requires InUrl(q) && '!' <= ch <= '~'
    ensures Turns(q, ch, Go(q.(state := s))) && InUrl(q.(state := s))
  {
    s := ParseUrlChar(q.state, ch);
    hide Descends;
  }

  lemma UrlSpace(q: Parser)
    requires InUrl(q)
    ensures Turns(q, ' ', Outcome(q.(state := ReqHttpStart), NoMark, UpTo(Url), [], Next))
  {
    hide Descends, ParseUrlChar;
  }

  lemma {:induction false} UrlWalk(q: Parser, s: string)
    requires InUrl(q) && forall i | 0 <= i < |s| :: '!' <= s[i] <= '~'
    ensures Plods(q, s) && InUrl(WalkTo(q, s)) && WalkTo(q, s) == q.(state := WalkTo(q, s).state)
  {
    hide Turns, Dispatch;
    if s == "" {
      WalkNothing(q);
    } else {
      var front, ch := s[..|s| - 1], s[|s| - 1];
      assert s == front + [ch];
      UrlWalk(q, front);
      var t := UrlTurns(WalkTo(q, front), ch);
      WalkStep(q, front, ch, q.(state := t));
    }
  }

  lemma ReadTargetText(sc: Scan, q: Parser, out: seq<Event>, url: string) returns (m: Parser)
    requires At(sc, q, Nothing, out) && q.state.ReqSpacesBeforeUrl? && !q.httpMethod.CONNECT? && IsTarget(url)
    ensures At(ScanAll(sc, url), m, Since(Url, url), out) && InUrl(m) && m == q.(state := m.state)
  {
    hide Turns, ByteStep, ScanAll, WalkTo, Plods;
    AtOk(sc, q, Nothing, out);
    var q1 := q.(state := ReqPath);
    UrlFirst(q, url[0]);
    ReadMark(sc, q, Url, out, url[0], q1);
    assert forall i | 0 <= i < |url[1..]| :: url[1..][i] == url[i + 1];
    UrlWalk(q1, url[1..]);
    ReadWalk(ByteStep(sc, url[0]), q1, Since(Url, [url[0]]), out, url[1..]);
    assert [url[0]] + url[1..] == url;
    m := WalkTo(q1, url[1..]);
    hide At;
    ScanOne(sc, url[0]);
    ScanAllConcat(sc, [url[0]], url[1..]);
  }

  lemma ReadTarget(sc: Scan, q: Parser, out: seq<Event>, url: string)
    requires At(sc, q, Nothing, out) && q.state.ReqSpacesBeforeUrl? && !q.httpMethod.CONNECT? && IsTarget(url)
    ensures At(ScanAll(sc, url + " "), q.(state := ReqHttpStart), Nothing, out + [Data(Url, url)])
  {
    hide Turns, ByteStep, ScanAll, At;
    var m := ReadTargetText(sc, q, out, url);
    UrlSpace(m);
    ReadFlush(ScanAll(sc, url), m, Url, url, out, ' ', q.(state := ReqHttpStart));
    ScanAllSnoc(sc, url, ' ');
    assert url + [' '] == url + " ";
  }

  /** The target of a CONNECT request. */
  predicate IsAuthority(s: string) {
    s != "" && forall i | 0 <= i < |s| :: IsUserinfoChar(s[i]) || s[i] == '[' || s[i] == ']'
  }

  lemma AuthorityFirst(q: Parser, ch: char)
    requires q.errno.OK? && (IsUserinfoChar(ch) || ch == '[' || ch == ']')
    requires q.state.ReqSpacesBeforeUrl? && q.httpMethod.CONNECT?
    ensures Turns(q, ch, Outcome(q.(state := ReqServer), MarkOf(Url), NoFlush, [], Next))
  {
    hide Descends;
  }

  lemma AuthorityTurns(q: Parser, ch: char)
    requires q.errno.OK? && (IsUserinfoChar(ch) || ch == '[' || ch == ']') && q.state.ReqServer?
    ensures Turns(q, ch, Go(q))
  {
    hide Descends;
  }

  lemma AuthoritySpace(q: Parser)
    requires q.state.ReqServer? && q.errno.OK?
    ensures Turns(q, ' ', Outcome(q.(state := ReqHttpStart), NoMark, UpTo(Url), [], Next))
  {
    hide Descends, ParseUrlChar;
  }

  lemma {:induction false} AuthorityWalk(q: Parser, s: string)
    requires q.state.ReqServer? && q.errno.OK?
    requires forall i | 0 <= i < |s| :: IsUserinfoChar(s[i]) || s[i] == '[' || s[i] == ']'
    ensures Plods(q, s) && WalkTo(q, s) == q
  {
    hide Turns, Dispatch, IsUserinfoChar;
    if s == "" {
      WalkNothing(q);
    } else {
      var front, ch := s[..|s| - 1], s[|s| - 1];
      AuthorityWalk(q, front);
      assert s == front + [ch];
      AuthorityTurns(q, ch);
      WalkStep(q, front, ch, q);
    }
  }

  lemma ReadAuthority(sc: Scan, q: Parser, out: seq<Event>, url: string)
    requires At(sc, q, Nothing, out) && q.state.ReqSpacesBeforeUrl? && q.httpMethod.CONNECT? && IsAuthority(url)
    ensures At(ScanAll(sc, url + " "), q.(state := ReqHttpStart), Nothing, out + [Data(Url, url)])
  {
    hide Turns, ByteStep, ScanAll, WalkTo, Plods, IsUserinfoChar;
    AtOk(sc, q, Nothing, out);
    var q1 := q.(state := ReqServer);
    AuthorityFirst(q, url[0]);
    ReadMark(sc, q, Url, out, url[0], q1);
    assert forall i | 0 <= i < |url[1..]| :: url[1..][i] == url[i + 1];
    AuthorityWalk(q1, url[1..]);
    ReadWalk(ByteStep(sc, url[0]), q1, Since(Url, [url[0]]), out, url[1..]);
    assert [url[0]] + url[1..] == url;
    AuthoritySpace(q1);
    ReadFlush(ScanAll(ByteStep(sc, url[0]), url[1..]), q1, Url, url, out, ' ', q.(state := ReqHttpStart));
    hide At;
    ScanOne(sc, url[0]);
    ScanAllConcat(sc, [url[0]], url[1..]);
    ScanAllSnoc(sc, url, ' ');
    assert url + [' '] == url + " ";
  }

  // ---------------------------------------------------------------- the version

  const VERSION_LINE := "HTTP/1.1\r\n"

  /** The version with these digits, and the end of the line. */
  function VersionText(major: char, minor: char): string { "HTTP/" + [major, '.', minor, '\r', '\n'] }

  predicate IsVersion(major: char, minor: char) { '1' <= major <= '9' && IsNum(minor) }

  function VersionState(i: nat): State {
    if i == 0 then ReqHttpStart else if i == 1 then ReqHttpH else if i == 2 then ReqHttpHT else if i == 3
       then ReqHttpHTT
    else if i == 4 then ReqHttpHTTP else if i == 5 then ReqFirstHttpMajor else if i == 6 then ReqHttpMajor
    else if i == 7 then ReqFirstHttpMinor else if i == 8 then ReqHttpMinor else if i == 9 then ReqLineAlmostDone
    else HeaderFieldStart
  }

  /** The parser after i bytes of the version. */
  function VersionAt(q: Parser, major: char, minor: char, i: nat): Parser
    requires IsVersion(major, minor)
  {
    q.(state := VersionState(i), httpMajor := if i >= 6 then Digit(major) else q.httpMajor,
       httpMinor := if i >= 8 then Digit(minor) else q.httpMinor)
  }

  lemma VersionWord(q: Parser, major: char, minor: char, i: nat)
    requires i < 5 && IsVersion(major, minor)
    ensures DispatchRequestVersion(VersionAt(q, major, minor, i), VersionText(major, minor)[i]) ==
            Go(VersionAt(q, major, minor, i + 1))
  {
    hide Descends, MajorDigit, MinorDigit, Digit;
  }

  lemma VersionNumbers(q: Parser, major: char, minor: char, i: nat)
    requires 5 <= i < 10 && IsVersion(major, minor)
    ensures DispatchRequestVersion(VersionAt(q, major, minor, i), VersionText(major, minor)[i]) ==
            Go(VersionAt(q, major, minor, i + 1))
  {
    hide Descends, MinorDigit;
  }

  lemma VersionTurns(q: Parser, major: char, minor: char, i: nat)
    requires i < 10 && q.errno.OK? && IsVersion(major, minor)
    ensures Turns(VersionAt(q, major, minor, i), VersionText(major, minor)[i], Go(VersionAt(q, major, minor, i + 1)))
  {
    if i < 5 { VersionWord(q, major, minor, i); } else { VersionNumbers(q, major, minor, i); }
    assert IsRequestVersion(VersionAt(q, major, minor, i).state);
    hide Descends, DispatchRequestVersion, VersionState, VersionText;
  }

  lemma {:induction false} VersionWalk(q: Parser, major: char, minor: char, n: nat)
    requires n <= 10 && q.errno.OK? && IsVersion(major, minor)
    ensures var s := VersionText(major, minor)[..n];
            Plods(VersionAt(q, major, minor, 0), s) &&
            WalkTo(VersionAt(q, major, minor, 0), s) == VersionAt(q, major, minor, n)
  {
    hide Turns, Dispatch, VersionAt;
    var s, q0 := VersionText(major, minor), VersionAt(q, major, minor, 0);
    if n == 0 {
      WalkNothing(q0);
      assert s[..0] == "";
    } else {
      VersionWalk(q, major, minor, n - 1);
      VersionTurns(q, major, minor, n - 1);
      WalkStep(q0, s[..n - 1], s[n - 1], VersionAt(q, major, minor, n));
      assert s[..n] == s[..n - 1] + [s[n - 1]];
    }
  }

  /** The parser after the version of a request line. */
  function VersionRead(q: Parser, major: char, minor: char): Parser
    requires IsVersion(major, minor)
  {
    q.(state := HeaderFieldStart, httpMajor := Digit(major), httpMinor := Digit(minor))
  }

  lemma ReadVersion(sc: Scan, q: Parser, out: seq<Event>, major: char, minor: char)
    requires At(sc, q, Nothing, out) && q.state.ReqHttpStart? && IsVersion(major, minor)
    ensures At(ScanAll(sc, VersionText(major, minor)), VersionRead(q, major, minor), Nothing, out)
  {
    hide ScanAll, At, WalkTo, Plods;
    AtOk(sc, q, Nothing, out);
    assert VersionAt(q, major, minor, 0) == q && VersionAt(q, major, minor, 10) == VersionRead(q, major, minor);
    VersionWalk(q, major, minor, 10);
    assert VersionText(major, minor)[..10] == VersionText(major, minor);
    ReadWalk(sc, q, Nothing, out, VersionText(major, minor));
  }

  // ---------------------------------------------------------------- the whole line

  function PrintRequestLine(m: Method, path: string, query: string): string {
    MethodString(m) + " " + (UrlText(path, query) + " ") + VERSION_LINE
  }

  /** The parser after a request line. */
  function RequestLineRead(q: Parser, m: Method): Parser {
    MethodRead(q, m).(state := HeaderFieldStart, httpMajor := 1, httpMinor := 1)
  }

  lemma ReadRequestLine(sc: Scan, q: Parser, out: seq<Event>, m: Method, path: string, query: string)
    requires At(sc, q, Nothing, out) && q.state.StartReq? && !m.CONNECT? && IsPath(path) && IsQuery(query)
    ensures At(ScanAll(sc, PrintRequestLine(m, path, query)), RequestLineRead(q, m), Nothing,
               out + [MessageBegin, Data(Url, UrlText(path, query))])
  {
    hide ByteStep, ScanAll, WalkTo, Plods, IsPath, IsQuery, MethodString, UrlText, VERSION_LINE;
    hide VersionText, At;
    var url := UrlText(path, query);
    var a, b := MethodString(m) + " ", url + " ";
    ReadMethod(sc, q, out, m);
    UrlIsTarget(path, query);
    ReadTarget(ScanAll(sc, a), MethodRead(q, m), out + [MessageBegin], url);
    var q2 := MethodRead(q, m).(state := ReqHttpStart);
    VersionLength();
    ReadVersion(ScanAll(ScanAll(sc, a), b), q2, out + [MessageBegin] + [Data(Url, url)], '1', '1');
    assert out + [MessageBegin] + [Data(Url, url)] == out + [MessageBegin, Data(Url, url)];
    ScanAllConcat(sc, a, b);
    ScanAllConcat(sc, a + b, VERSION_LINE);
  }

  lemma VersionLength()
    ensures VersionText('1', '1') == VERSION_LINE && IsVersion('1', '1') && Digit('1') == 1
  {
  }
}
