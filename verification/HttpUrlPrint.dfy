/** The URL parser inverts the printing of URLs. */
module HttpUrlPrint {
  import opened HttpTypes
  import opened HttpAutomaton
  import opened HttpValues
  import opened HttpResponses
  import opened HttpUrl

  // ---------------------------------------------------------------- URLs

  /** A host name, or an IPv6 address with an optional zone (RFC 6874). */
  datatype Host = Name(text: string) | V6(address: string, zone: string)

  /** The components of a URL; an absent one is empty. */
  datatype Url = Url(scheme: string, userinfo: string, host: Host, port: string, path: string, query: string,
                     fragment: string)

  function Opt(before: string, s: string): string { if s == "" then "" else before + s }

  /** What is reported of a host: an address without its brackets. */
  function HostBody(h: Host): string { match h case Name(t) => t case V6(a, z) => a + Opt("%", z) }

  function PrintHost(h: Host): string { if h.Name? then h.text else "[" + HostBody(h) + "]" }

  function UserText(u: Url): string { if u.userinfo == "" then "" else u.userinfo + "@" }

  function Authority(u: Url): string { UserText(u) + PrintHost(u.host) + Opt(":", u.port) }

  function Print(u: Url): string {
    u.scheme + "://" + Authority(u) + u.path + Opt("?", u.query) + Opt("#", u.fragment)
  }

  predicate All(s: string, p: char -> bool) { forall i | 0 <= i < |s| :: p(s[i]) }

  predicate IsV6Char(c: char) { IsHex(c) || c == ':' || c == '.' }
  predicate IsQueryChar(c: char) { IsUrlChar(c) || c == '?' }
  predicate IsFragmentChar(c: char) { IsUrlChar(c) || c == '?' || c == '#' }

  predicate IsHost(h: Host) {
    match h
    case Name(t) => t != "" && All(t, IsHostChar)
    case V6(a, z) => a != "" && All(a, IsV6Char) && All(z, IsZoneChar)
  }

  /** The URLs that can be printed and read back: a fragment needs a path or a query before
      it, and does not begin with '#'. */
  predicate IsUrl(u: Url) {
    u.scheme != "" && All(u.scheme, IsAlpha) && All(u.userinfo, IsUserinfoChar) && IsHost(u.host) &&
    AllDigits(u.port) && Digits(u.port, 0) <= 0xffff &&
    (u.path != "" ==> u.path[0] == '/') && All(u.path, IsUrlChar) && All(u.query, IsQueryChar) &&
    All(u.fragment, IsFragmentChar) && (u.fragment != "" ==> u.fragment[0] != '#' && (u.path != "" || u.query != ""))
  }

  // ---------------------------------------------------------------- running over a component

  lemma {:induction false} UrlRunConcat(u: UrlScan, off: nat, a: string, b: string)
    ensures UrlRun(u, off, a + b) == UrlRun(UrlRun(u, off, a), off + |a|, b)
    decreases |b|
  {
    hide UrlByte;
    if b == "" {
      assert a + b == a;
    } else {
      assert (a + b)[..|a + b| - 1] == a + b[..|b| - 1];
      UrlRunConcat(u, off, a, b[..|b| - 1]);
    }
  }

  lemma UrlRunOne(u: UrlScan, off: nat, ch: char)
    ensures UrlRun(u, off, [ch]) == UrlByte(u, off, ch) && UrlRun(u, off, "") == u
  {
    assert [ch][..0] == "";
    hide UrlByte;
  }

  /** A field that ends where the next byte is. */
  predicate Ends(u: UrlScan, f: UrlField, off: nat) {
    u.last == Some(f) && f in u.fields && u.fields[f].off + u.fields[f].len == off
  }

  function Grown(u: UrlScan, f: UrlField, n: nat): UrlScan
    requires f in u.fields
  {
    u.(fields := u.fields[f := Span(u.fields[f].off, u.fields[f].len + n)])
  }

  lemma StayUrlByte(u: UrlScan, off: nat, c: char, f: UrlField)
    requires FieldOf(u.s) == Some(f) && !u.s.ReqServerWithAt? && u.last == Some(f) && f in u.fields &&
             ParseUrlChar(u.s, c) == u.s
    ensures UrlByte(u, off, c) == Grown(u, f, 1)
  {
    hide ParseUrlChar;
  }

  /** Bytes that keep the state make its field longer. */
  lemma {:induction false} StayRun(u: UrlScan, off: nat, t: string, f: UrlField)
    requires FieldOf(u.s) == Some(f) && !u.s.ReqServerWithAt? && u.last == Some(f) && f in u.fields
    requires forall i | 0 <= i < |t| :: ParseUrlChar(u.s, t[i]) == u.s
    ensures UrlRun(u, off, t) == Grown(u, f, |t|)
  {
    hide ParseUrlChar, UrlByte;
    if t == "" {
      assert u.fields[f := u.fields[f]] == u.fields;
    } else {
      StayRun(u, off, t[..|t| - 1], f);
      var v := Grown(u, f, |t| - 1);
      StayUrlByte(v, off + |t| - 1, t[|t| - 1], f);
      assert v.fields[f := Span(u.fields[f].off, u.fields[f].len + |t|)] == Grown(u, f, |t|).fields;
    }
  }

  lemma FirstOfField(u: UrlScan, off: nat, c: char, f: UrlField, s: State)
    requires !u.s.Dead? && ParseUrlChar(u.s, c) == s && FieldOf(s) == Some(f) && !s.ReqServerWithAt? &&
             u.last != Some(f)
    ensures UrlByte(u, off, c) == UrlScan(s, Some(f), u.foundAt, u.fields[f := Span(off, 1)])
  {
    hide ParseUrlChar;
  }

  /** A whole field: a first byte that opens it and bytes that keep its state. */
  lemma FieldRun(u: UrlScan, off: nat, t: string, f: UrlField, s: State)
    requires t != "" && !u.s.Dead? && ParseUrlChar(u.s, t[0]) == s && FieldOf(s) == Some(f) && !s.ReqServerWithAt? &&
             u.last != Some(f)
    requires forall i | 1 <= i < |t| :: ParseUrlChar(s, t[i]) == s
    ensures UrlRun(u, off, t) == UrlScan(s, Some(f), u.foundAt, u.fields[f := Span(off, |t|)])
  {
    hide ParseUrlChar, UrlByte, UrlRun;
    UrlRunOne(u, off, t[0]);
    var v := UrlByte(u, off, t[0]);
    FirstOfField(u, off, t[0], f, s);
    assert forall i | 0 <= i < |t[1..]| :: t[1..][i] == t[i + 1];
    StayRun(v, off + 1, t[1..], f);
    assert [t[0]] + t[1..] == t;
    UrlRunConcat(u, off, [t[0]], t[1..]);
    assert v.fields[f := Span(off, |t|)] == u.fields[f := Span(off, |t|)];
  }

  lemma SchemeRun(t: string)
    requires t != "" && All(t, IsAlpha)
    ensures UrlRun(URL_START, 0, t) == UrlScan(ReqSchema, Some(SchemaField), false, map[SchemaField := Span(0, |t|)])
  {
    forall i | 0 <= i < |t| ensures ParseUrlChar(ReqSchema, t[i]) == ReqSchema { assert IsAlpha(t[i]); }
    assert IsAlpha(t[0]);
    FieldRun(URL_START, 0, t, SchemaField, ReqSchema);
    hide IsAlpha;
  }

  lemma SlashesRun(u: UrlScan, off: nat)
    requires u.s.ReqSchema?
    ensures UrlRun(u, off, "://") == u.(s := ReqServerStart)
  {
    UrlRunOne(u, off, ':');
    UrlRunOne(u.(s := ReqSchemaSlash), off + 1, '/');
    UrlRunOne(u.(s := ReqSchemaSlashSlash), off + 2, '/');
    UrlRunConcat(u, off, [':'], ['/']);
    UrlRunConcat(u, off, [':'] + ['/'], ['/']);
    assert [':'] + ['/'] + ['/'] == "://";
    hide UrlRun;
  }

  // ---------------------------------------------------------------- the authority

  predicate IsServerChar(c: char) { IsUserinfoChar(c) || c == '[' || c == ']' }

  predicate IsServerState(s: State) { s.ReqServerStart? || s.ReqServer? || s.ReqServerWithAt? }

  lemma ServerStep(s: State, c: char)
    requires IsServerState(s)
    ensures IsServerChar(c) ==> ParseUrlChar(s, c).ReqServer?
    ensures c == '@' && !s.ReqServerWithAt? ==> ParseUrlChar(s, c).ReqServerWithAt?
  {
  }

  /** The host field with n more bytes. */
  function Served(u: UrlScan, off: nat, n: nat, at: bool): UrlScan {
    var from := if u.last == Some(HostField) && HostField in u.fields then u.fields[HostField] else Span(off, 0);
    UrlScan(if at then ReqServerWithAt else ReqServer, Some(HostField), u.foundAt || at,
            u.fields[HostField := Span(from.off, from.len + n)])
  }

  lemma ServedTwice(u: UrlScan, off: nat, m: nat, n: nat, a: bool, b: bool)
    ensures Served(Served(u, off, m, a), off + m, n, b) == Served(u, off, m + n, b).(foundAt := u.foundAt || a || b)
  {
    var from := if u.last == Some(HostField) && HostField in u.fields then u.fields[HostField] else Span(off, 0);
    assert u.fields[HostField := Span(from.off, from.len + m)][HostField := Span(from.off, from.len + m + n)] ==
           u.fields[HostField := Span(from.off, from.len + (m + n))];
  }

  lemma ServedByte(u: UrlScan, off: nat, c: char)
    requires IsServerState(u.s) && (IsServerChar(c) || (c == '@' && !u.s.ReqServerWithAt?))
    ensures UrlByte(u, off, c) == Served(u, off, 1, c == '@')
  {
    ServerStep(u.s, c);
    assert c == '@' ==> !IsServerChar(c);
    hide ParseUrlChar, IsServerChar;
  }

  lemma {:induction false} ServerRun(u: UrlScan, off: nat, t: string)
    requires IsServerState(u.s) && t != "" && All(t, IsServerChar)
    ensures UrlRun(u, off, t) == Served(u, off, |t|, false)
  {
    hide IsServerChar, UrlByte, Served;
    var front, c := t[..|t| - 1], t[|t| - 1];
    assert IsServerChar(c) && c != '@' by { ServerNotAt(c, t); }
    if front == "" {
      ServedByte(u, off, c);
      UrlRunOne(u, off, c);
      assert t == [c];
    } else {
      ServerRun(u, off, front);
      var v := Served(u, off, |front|, false);
      assert v.s.ReqServer? && v.foundAt == u.foundAt by { ServedState(u, off, |front|, false); }
      ServedByte(v, off + |front|, c);
      ServedTwice(u, off, |front|, 1, false, false);
      assert Served(u, off, |t|, false).foundAt == u.foundAt by { ServedState(u, off, |t|, false); }
    }
  }

  lemma ServerNotAt(c: char, t: string)
    requires t != "" && All(t, IsServerChar) && c == t[|t| - 1]
    ensures IsServerChar(c) && c != '@'
  {
    assert IsServerChar(t[|t| - 1]);
  }

  lemma ServedState(u: UrlScan, off: nat, n: nat, at: bool)
    ensures var v := Served(u, off, n, at);
            v.s == (if at then ReqServerWithAt else ReqServer) &&
            v.foundAt == (u.foundAt || at)
  {
  }

  /** The authority: one host field for now. */
  lemma AuthorityRun(u: UrlScan, off: nat, user: string, rest: string)
    requires u.s.ReqServerStart? && u.last != Some(HostField) && All(user, IsUserinfoChar) && rest != "" &&
             All(rest, IsServerChar)
    ensures var a := (if user == "" then "" else user + "@") + rest;
            UrlRun(u, off, a) ==
            UrlScan(ReqServer, Some(HostField), u.foundAt || user != "", u.fields[HostField := Span(off, |a|)])
  {
    hide ParseUrlChar, UrlByte, Served, IsUserinfoChar, IsServerChar;
    if user == "" {
      ServerRun(u, off, rest);
      assert "" + rest == rest;
      ServedFirst(u, off, |rest|, false);
    } else {
      assert All(user, IsServerChar) by { UserIsServer(user); }
      ServerRun(u, off, user);
      var v := Served(u, off, |user|, false);
      ServedState(u, off, |user|, false);
      ServedByte(v, off + |user|, '@');
      UrlRunOne(v, off + |user|, '@');
      var w := Served(v, off + |user|, 1, true);
      ServedState(v, off + |user|, 1, true);
      ServerRun(w, off + |user| + 1, rest);
      ServedTwice(u, off, |user|, 1, false, true);
      ServedTwice(u, off, |user| + 1, |rest|, true, false);
      ServedAt(u, off, |user| + 1, |rest|);
      ServedFirst(u, off, |user| + 1 + |rest|, false);
      UrlRunConcat(u, off, user, ['@']);
      UrlRunConcat(u, off, user + "@", rest);
    }
  }

  lemma UserIsServer(t: string)
    requires All(t, IsUserinfoChar)
    ensures All(t, IsServerChar)
  {
  }

  lemma ServedFirst(u: UrlScan, off: nat, n: nat, at: bool)
    requires u.last != Some(HostField)
    ensures Served(u, off, n, at).fields == u.fields[HostField := Span(off, n)]
    ensures Served(u, off, n, at) ==
            UrlScan(if at then ReqServerWithAt else ReqServer, Some(HostField), u.foundAt ||
                    at, u.fields[HostField := Span(off, n)])
  {
  }

  lemma ServedAt(u: UrlScan, off: nat, m: nat, n: nat)
    ensures Served(Served(u, off, m, true).(foundAt := u.foundAt || false || true), off + m, n, false) ==
            Served(u, off, m + n, false).(foundAt := u.foundAt || true)
  {
    ServedTwice(u, off, m, n, true, false);
  }

  // ---------------------------------------------------------------- behind the authority

  function With(fields: Fields, f: UrlField, off: nat, t: string): Fields {
    if t == "" then fields else fields[f := Span(off, |t|)]
  }

  lemma PathRun(u: UrlScan, off: nat, t: string)
    requires u.s.ReqServer? && u.last == Some(HostField) && All(t, IsUrlChar) && (t != "" ==> t[0] == '/')
    ensures var v := UrlRun(u, off, t);
            v.s == (if t == "" then ReqServer else ReqPath) && v.last.Some? && v.last.value in {HostField, PathField} &&
            v.fields == With(u.fields, PathField, off, t) && v.foundAt == u.foundAt
  {
    if t == "" {
      UrlRunOne(u, off, 'a');
    } else {
      forall i | 1 <= i < |t| ensures ParseUrlChar(ReqPath, t[i]) == ReqPath { assert IsUrlChar(t[i]); }
      FieldRun(u, off, t, PathField, ReqPath);
    }
    hide IsUrlChar, UrlRun;
  }

  lemma QueryRun(u: UrlScan, off: nat, t: string)
    requires (u.s.ReqServer? || u.s.ReqPath?) && u.last.Some? && u.last.value in {HostField, PathField} &&
             All(t, IsQueryChar)
    ensures var v := UrlRun(u, off, Opt("?", t));
            v.s == (if t == "" then u.s else ReqQueryString) && v.last.Some? &&
            v.last.value in {HostField, PathField, QueryField} &&
            v.fields == With(u.fields, QueryField, off + 1, t) && v.foundAt == u.foundAt
  {
    hide UrlRun, UrlByte;
    if t == "" {
      UrlRunOne(u, off, 'a');
    } else {
      UrlRunOne(u, off, '?');
      var v := u.(s := ReqQueryStringStart);
      assert UrlByte(u, off, '?') == v by { MarkByte(u, off); }
      forall i | 0 <= i < |t|
        ensures ParseUrlChar(ReqQueryString, t[i]) == ReqQueryString &&
                ParseUrlChar(ReqQueryStringStart, t[i]) == ReqQueryString
      {
        assert IsQueryChar(t[i]);
        QueryByte(t[i]);
      }
      FieldRun(v, off + 1, t, QueryField, ReqQueryString);
      UrlRunConcat(u, off, ['?'], t);
    }
  }

  lemma MarkByte(u: UrlScan, off: nat)
    ensures u.s.ReqServer? || u.s.ReqPath? ==> UrlByte(u, off, '?') == u.(s := ReqQueryStringStart)
    ensures u.s.ReqPath? || u.s.ReqQueryString? ==> UrlByte(u, off, '#') == u.(s := ReqFragmentStart)
  {
  }

  lemma QueryByte(c: char)
    requires IsQueryChar(c)
    ensures ParseUrlChar(ReqQueryString, c) == ReqQueryString && ParseUrlChar(ReqQueryStringStart, c) == ReqQueryString
  {
  }

  lemma FragmentByte(c: char)
    requires IsFragmentChar(c)
    ensures ParseUrlChar(ReqFragment, c) == ReqFragment &&
            (c != '#' ==> ParseUrlChar(ReqFragmentStart, c) == ReqFragment)
  {
  }

  lemma FragmentRun(u: UrlScan, off: nat, t: string)
    requires t != "" ==> u.s.ReqPath? || u.s.ReqQueryString?
    requires u.last.Some? && u.last.value in {HostField, PathField, QueryField} && All(t, IsFragmentChar) &&
             (t != "" ==> t[0] != '#')
    requires !u.s.Dead?
    ensures var v := UrlRun(u, off, Opt("#", t));
            !v.s.Dead? && v.fields == With(u.fields, FragmentField, off + 1, t) && v.foundAt == u.foundAt
  {
    hide UrlRun, UrlByte;
    if t == "" {
      UrlRunOne(u, off, 'a');
    } else {
      UrlRunOne(u, off, '#');
      var v := u.(s := ReqFragmentStart);
      MarkByte(u, off);
      forall i | 0 <= i < |t|
        ensures ParseUrlChar(ReqFragment, t[i]) == ReqFragment &&
                (t[i] != '#' ==> ParseUrlChar(ReqFragmentStart, t[i]) == ReqFragment)
      {
        assert IsFragmentChar(t[i]);
        FragmentByte(t[i]);
      }
      FieldRun(v, off + 1, t, FragmentField, ReqFragment);
      UrlRunConcat(u, off, ['#'], t);
    }
  }

  // ---------------------------------------------------------------- the host

  lemma {:induction false} HostRunConcat(h: HostScan, off: nat, a: string, b: string)
    ensures HostRun(h, off, a + b) == HostRun(HostRun(h, off, a), off + |a|, b)
    decreases |b|
  {
    hide HostByte;
    if b == "" {
      assert a + b == a;
    } else {
      assert (a + b)[..|a + b| - 1] == a + b[..|b| - 1];
      HostRunConcat(h, off, a, b[..|b| - 1]);
    }
  }

  lemma HostRunOne(h: HostScan, off: nat, ch: char)
    ensures HostRun(h, off, [ch]) == HostByte(h, off, ch) && HostRun(h, off, "") == h
  {
    assert [ch][..0] == "";
    hide HostByte;
  }

  /** The field whose length a state makes grow. */
  function Growing(s: HostState): Option<UrlField> {
    if s.HostName? || s.HostV6? || s.HostV6Zone? then Some(HostField)
    else if s.HostPort? then Some(PortField)
    else if s.Userinfo? then Some(UserinfoField)
    else None
  }

  function HostGrown(h: HostScan, f: UrlField, n: nat): HostScan
    requires f in h.fields
  {
    h.(fields := h.fields[f := Span(h.fields[f].off, h.fields[f].len + n)])
  }

  lemma StayByte(h: HostScan, off: nat, c: char, f: UrlField)
    requires Growing(h.s) == Some(f) && f in h.fields && ParseHostChar(h.s, c) == h.s
    ensures HostByte(h, off, c) == HostGrown(h, f, 1)
  {
    hide ParseHostChar;
  }

  lemma {:induction false} StayHost(h: HostScan, off: nat, t: string, f: UrlField)
    requires Growing(h.s) == Some(f) && f in h.fields && forall i | 0 <= i < |t| :: ParseHostChar(h.s, t[i]) == h.s
    ensures HostRun(h, off, t) == HostGrown(h, f, |t|)
  {
    hide HostByte, ParseHostChar, Growing;
    if t == "" {
      assert h.fields[f := h.fields[f]] == h.fields;
    } else {
      StayHost(h, off, t[..|t| - 1], f);
      var g := HostGrown(h, f, |t| - 1);
      StayByte(g, off + |t| - 1, t[|t| - 1], f);
      assert g.fields[f := Span(h.fields[f].off, h.fields[f].len + |t|)] == HostGrown(h, f, |t|).fields;
    }
  }

  /** A field of the host: a byte that opens it and bytes that keep its state. */
  lemma HostFieldRun(h: HostScan, off: nat, t: string, f: UrlField, s: HostState)
    requires t != "" && Growing(s) == Some(f) && HostByte(h, off, t[0]) == HostScan(s, h.fields[f := Span(off, 1)])
    requires forall i | 1 <= i < |t| :: ParseHostChar(s, t[i]) == s
    ensures HostRun(h, off, t) == HostScan(s, h.fields[f := Span(off, |t|)])
  {
    hide HostByte, ParseHostChar, Growing;
    HostRunOne(h, off, t[0]);
    var g := HostScan(s, h.fields[f := Span(off, 1)]);
    assert forall i | 0 <= i < |t[1..]| :: t[1..][i] == t[i + 1];
    StayHost(g, off + 1, t[1..], f);
    HostRunConcat(h, off, [t[0]], t[1..]);
    assert [t[0]] + t[1..] == t;
    assert g.fields[f := Span(off, |t|)] == h.fields[f := Span(off, |t|)];
  }

  lemma UserRun(h: HostScan, off: nat, t: string)
    requires h.s.UserinfoStart? && t != "" && All(t, IsUserinfoChar) && UserinfoField !in h.fields
    ensures HostRun(h, off, t + "@") == HostScan(HostStart, h.fields[UserinfoField := Span(off, |t|)])
  {
    hide IsUserinfoChar, HostRun;
    forall i | 0 <= i < |t| ensures ParseHostChar(Userinfo, t[i]) == Userinfo == ParseHostChar(UserinfoStart, t[i]) {
      assert IsUserinfoChar(t[i]);
      NotAt(t[i]);
    }
    HostFieldRun(h, off, t, UserinfoField, Userinfo);
    var g := HostScan(Userinfo, h.fields[UserinfoField := Span(off, |t|)]);
    HostRunOne(g, off + |t|, '@');
    HostRunConcat(h, off, t, ['@']);
  }

  lemma NotAt(c: char)
    requires IsUserinfoChar(c)
    ensures c != '@'
  {
  }

  predicate AtHost(h: HostScan) { h.s.HostStart? && HostField in h.fields && h.fields[HostField].len == 0 }

  lemma NameRun(h: HostScan, off: nat, t: string)
    requires AtHost(h) && t != "" && All(t, IsHostChar)
    ensures HostRun(h, off, t) == HostScan(HostName, h.fields[HostField := Span(off, |t|)])
  {
    hide IsHostChar, HostRun;
    forall i | 0 <= i < |t| ensures ParseHostChar(HostName, t[i]) == HostName == ParseHostChar(HostStart, t[i]) {
      assert IsHostChar(t[i]);
      NotBracket(t[i]);
    }
    HostFieldRun(h, off, t, HostField, HostName);
  }

  lemma NotBracket(c: char)
    ensures IsHostChar(c) ==> c != '['
    ensures IsV6Char(c) ==> c != ']' && (IsHex(c) || c == ':' || c == '.')
    ensures IsZoneChar(c) ==> c != ']'
  {
  }

  lemma ZoneRun(h: HostScan, off: nat, t: string)
    requires h.s.HostV6? && HostField in h.fields && All(t, IsZoneChar)
    ensures var n := |Opt("%", t)|;
            HostRun(h, off, Opt("%", t)) == HostGrown(h, HostField, n).(s := if t == "" then HostV6 else HostV6Zone)
  {
    hide IsZoneChar, HostRun, IsHex;
    if t == "" {
      HostRunOne(h, off, 'a');
      assert h.fields[HostField := h.fields[HostField]] == h.fields;
    } else {
      var span := h.fields[HostField];
      var g := HostScan(HostV6ZoneStart, h.fields[HostField := Span(span.off, span.len + 1)]);
      assert HostByte(h, off, '%') == g by { PercentByte(h, off); }
      HostRunOne(h, off, '%');
      forall i | 0 <= i < |t|
        ensures ParseHostChar(HostV6Zone, t[i]) == HostV6Zone == ParseHostChar(HostV6ZoneStart, t[i])
      {
        assert IsZoneChar(t[i]);
        NotBracket(t[i]);
      }
      var z := HostScan(HostV6Zone, g.fields[HostField := Span(span.off, span.len + 2)]);
      assert HostByte(g, off + 1, t[0]) == z;
      HostRunOne(g, off + 1, t[0]);
      assert forall i | 0 <= i < |t[1..]| :: t[1..][i] == t[i + 1];
      StayHost(z, off + 2, t[1..], HostField);
      HostRunConcat(g, off + 1, [t[0]], t[1..]);
      HostRunConcat(h, off, ['%'], t);
      assert [t[0]] + t[1..] == t;
      assert z.fields[HostField := Span(span.off, span.len + 1 + |t|)] ==
             h.fields[HostField := Span(span.off, span.len + 1 + |t|)];
    }
  }

  lemma PercentByte(h: HostScan, off: nat)
    requires h.s.HostV6? && HostField in h.fields
    ensures HostByte(h, off, '%') ==
            HostScan(HostV6ZoneStart, h.fields[HostField := Span(h.fields[HostField].off, h.fields[HostField].len + 1)])
  {
  }

  lemma V6Run(h: HostScan, off: nat, a: string, z: string)
    requires AtHost(h) && a != "" && All(a, IsV6Char) && All(z, IsZoneChar)
    ensures var body := a + Opt("%", z);
            HostRun(h, off, "[" + body + "]") == HostScan(HostV6End, h.fields[HostField := Span(off + 1, |body|)])
  {
    hide HostRun, IsHex, IsZoneChar, Opt;
    var body := a + Opt("%", z);
    HostRunOne(h, off, '[');
    var g := h.(s := HostV6Start);
    forall i | 0 <= i < |a| ensures ParseHostChar(HostV6, a[i]) == HostV6 == ParseHostChar(HostV6Start, a[i]) {
      assert IsV6Char(a[i]);
      NotBracket(a[i]);
    }
    HostFieldRun(g, off + 1, a, HostField, HostV6);
    var v := HostScan(HostV6, g.fields[HostField := Span(off + 1, |a|)]);
    ZoneRun(v, off + 1 + |a|, z);
    var w := HostRun(v, off + 1 + |a|, Opt("%", z));
    HostRunOne(w, off + 1 + |body|, ']');
    HostRunConcat(g, off + 1, a, Opt("%", z));
    HostRunConcat(h, off, ['['], body);
    HostRunConcat(h, off, "[" + body, [']']);
    assert v.fields[HostField := Span(off + 1, |body|)] == h.fields[HostField := Span(off + 1, |body|)];
  }

  lemma PortRun(h: HostScan, off: nat, t: string)
    requires (h.s.HostName? || h.s.HostV6End?) && AllDigits(t) && PortField !in h.fields
    ensures var g := HostRun(h, off, Opt(":", t));
            HostEnds(g.s) && g.fields == With(h.fields, PortField, off + 1, t)
  {
    hide HostRun;
    if t == "" {
      HostRunOne(h, off, 'a');
    } else {
      HostRunOne(h, off, ':');
      var g := h.(s := HostPortStart);
      assert HostByte(h, off, ':') == g;
      forall i | 0 <= i < |t| ensures ParseHostChar(HostPort, t[i]) == HostPort == ParseHostChar(HostPortStart, t[i]) {
        assert IsNum(t[i]);
      }
      HostFieldRun(g, off + 1, t, PortField, HostPort);
      HostRunConcat(h, off, [':'], t);
    }
  }

  // ---------------------------------------------------------------- the whole URL

  function AuthorityAt(u: Url): nat { |u.scheme| + 3 }
  function HostAt(u: Url): nat { AuthorityAt(u) + |UserText(u)| + if u.host.Name? then 0 else 1 }
  function PortAt(u: Url): nat { AuthorityAt(u) + |UserText(u)| + |PrintHost(u.host)| + 1 }
  function PathAt(u: Url): nat { AuthorityAt(u) + |Authority(u)| }
  function QueryAt(u: Url): nat { PathAt(u) + |u.path| + 1 }
  function FragmentAt(u: Url): nat { PathAt(u) + |u.path| + |Opt("?", u.query)| + 1 }

  /** The component of a field. */
  function TextOf(u: Url, f: UrlField): string {
    match f
    case SchemaField => u.scheme
    case HostField => HostBody(u.host)
    case PortField => u.port
    case PathField => u.path
    case QueryField => u.query
    case FragmentField => u.fragment
    case UserinfoField => u.userinfo
  }

  /** Where the component of a field is printed. */
  function OffsetOf(u: Url, f: UrlField): nat {
    match f
    case SchemaField => 0
    case HostField => HostAt(u)
    case PortField => PortAt(u)
    case PathField => PathAt(u)
    case QueryField => QueryAt(u)
    case FragmentField => FragmentAt(u)
    case UserinfoField => AuthorityAt(u)
  }

  /** The fields behind the authority. */
  function Tail(fields: Fields, u: Url): Fields {
    With(With(With(fields, PathField, PathAt(u), u.path), QueryField, QueryAt(u), u.query), FragmentField,
         FragmentAt(u), u.fragment)
  }

  function SchemeFields(u: Url): Fields {
    map[SchemaField := Span(0, |u.scheme|)][HostField := Span(AuthorityAt(u), |Authority(u)|)]
  }

  lemma AuthorityChars(u: Url)
    requires IsUrl(u)
    ensures var rest := PrintHost(u.host) + Opt(":", u.port); rest != "" && All(rest, IsServerChar)
    ensures Authority(u) == UserText(u) + (PrintHost(u.host) + Opt(":", u.port))
  {
    var rest := PrintHost(u.host) + Opt(":", u.port);
    HostChars(u.host);
    PortChars(u.port);
    hide IsServerChar, IsUrl;
  }

  lemma HostChars(h: Host)
    requires IsHost(h)
    ensures PrintHost(h) != "" && All(PrintHost(h), IsServerChar)
  {
    match h
    case Name(t) => forall i | 0 <= i < |t| ensures IsServerChar(t[i]) { assert IsHostChar(t[i]); }
    case V6(a, z) =>
      forall i | 0 <= i < |a| ensures IsServerChar(a[i]) { assert IsV6Char(a[i]); V6IsServer(a[i]); }
      forall i | 0 <= i < |z| ensures IsServerChar(z[i]) { assert IsZoneChar(z[i]); }
      hide IsServerChar;
      assert IsServerChar('[') && IsServerChar(']') && IsServerChar('%') by { BracketsAreServer(); }
  }

  lemma BracketsAreServer()
    ensures IsServerChar('[') && IsServerChar(']') && IsServerChar('%') && IsServerChar(':')
  {
  }

  lemma V6IsServer(c: char)
    requires IsV6Char(c)
    ensures IsServerChar(c)
  {
  }

  lemma PortChars(t: string)
    requires AllDigits(t)
    ensures All(Opt(":", t), IsServerChar)
  {
    forall i | 0 <= i < |t| ensures IsServerChar(t[i]) { assert IsNum(t[i]); }
    BracketsAreServer();
    hide IsServerChar;
  }

  /** The first loop over a printed URL. */
  lemma PrintedRun(u: Url)
    requires IsUrl(u)
    ensures var v := UrlRun(URL_START, 0, Print(u));
            !v.s.Dead? && v.fields == Tail(SchemeFields(u), u) && v.foundAt == (u.userinfo != "")
  {
    hide UrlRun, ParseUrlChar, Opt, IsAlpha, IsUrlChar, IsQueryChar, IsFragmentChar, IsUserinfoChar, IsServerChar,
      IsHost, With, Authority, UserText, PrintHost;
    var a, q, f := Authority(u), Opt("?", u.query), Opt("#", u.fragment);
    SchemeRun(u.scheme);
    var n1 := |u.scheme|;
    var v1 := UrlRun(URL_START, 0, u.scheme);
    SlashesRun(v1, n1);
    var v2 := v1.(s := ReqServerStart);
    AuthorityChars(u);
    assert a == (if u.userinfo == "" then "" else u.userinfo + "@") + (PrintHost(u.host) + Opt(":", u.port)) by {
      UserTextIs(u);
    }
    AuthorityRun(v2, n1 + 3, u.userinfo, PrintHost(u.host) + Opt(":", u.port));
    var v3 := UrlRun(v2, n1 + 3, a);
    PathRun(v3, n1 + 3 + |a|, u.path);
    var v4 := UrlRun(v3, n1 + 3 + |a|, u.path);
    QueryRun(v4, n1 + 3 + |a| + |u.path|, u.query);
    var v5 := UrlRun(v4, n1 + 3 + |a| + |u.path|, q);
    FragmentRun(v5, n1 + 3 + |a| + |u.path| + |q|, u.fragment);
    UrlRunConcat(URL_START, 0, u.scheme, "://");
    UrlRunConcat(URL_START, 0, u.scheme + "://", a);
    UrlRunConcat(URL_START, 0, u.scheme + "://" + a, u.path);
    UrlRunConcat(URL_START, 0, u.scheme + "://" + a + u.path, q);
    UrlRunConcat(URL_START, 0, u.scheme + "://" + a + u.path + q, f);
  }

  lemma UserTextIs(u: Url)
    ensures UserText(u) == (if u.userinfo == "" then "" else u.userinfo + "@")
  {
  }

  /** The fields of the host. */
  function Split(fields: Fields, u: Url): Fields {
    With(With(fields[HostField := Span(AuthorityAt(u), 0)], UserinfoField, AuthorityAt(u),
              u.userinfo)[HostField := Span(HostAt(u), |HostBody(u.host)|)],
         PortField, PortAt(u), u.port)
  }

  lemma UserRunOpt(h: HostScan, off: nat, u: Url)
    requires h.s == (if u.userinfo != "" then UserinfoStart else HostStart) && All(u.userinfo, IsUserinfoChar) &&
             UserinfoField !in h.fields
    ensures HostRun(h, off, UserText(u)) == HostScan(HostStart, With(h.fields, UserinfoField, off, u.userinfo))
  {
    hide HostRun, IsUserinfoChar;
    if u.userinfo == "" { HostRunOne(h, off, 'a'); } else { UserRun(h, off, u.userinfo); }
  }

  lemma PrintHostRun(h: HostScan, off: nat, host: Host)
    requires AtHost(h) && IsHost(host)
    ensures var g := HostRun(h, off, PrintHost(host));
            (g.s.HostName? || g.s.HostV6End?) &&
            g.fields == h.fields[HostField := Span(off + if host.Name? then 0 else 1, |HostBody(host)|)]
  {
    hide HostRun, Opt;
    match host
    case Name(t) => NameRun(h, off, t);
    case V6(a, z) => V6Run(h, off, a, z);
  }

  lemma PrintedHost(u: Url, fields: Fields)
    requires IsUrl(u) && NotSplit(fields) && HostField in fields &&
             fields[HostField] == Span(AuthorityAt(u), |Authority(u)|)
    ensures AuthorityAt(u) + |Authority(u)| <= |Print(u)|
    ensures ParseHost(Print(u), fields, u.userinfo != "") == Some(Split(fields, u))
  {
    hide HostRun, Opt, IsAlpha, IsUrlChar, IsQueryChar, IsFragmentChar, IsUserinfoChar, UserText, PrintHost, HostBody,
      IsHost;
    var off, a := AuthorityAt(u), Authority(u);
    assert Print(u)[off..off + |a|] == a;
    var h := HostScan(if u.userinfo != "" then UserinfoStart else HostStart, fields[HostField := Span(off, 0)]);
    UserRunOpt(h, off, u);
    var h1 := HostRun(h, off, UserText(u));
    PrintHostRun(h1, off + |UserText(u)|, u.host);
    var h2 := HostRun(h1, off + |UserText(u)|, PrintHost(u.host));
    PortRun(h2, off + |UserText(u)| + |PrintHost(u.host)|, u.port);
    HostRunConcat(h, off, UserText(u), PrintHost(u.host));
    HostRunConcat(h, off, UserText(u) + PrintHost(u.host), Opt(":", u.port));
  }

  lemma {:induction false} DigitsStop(a: string, b: string, n: nat)
    requires AllDigits(a) && (b != "" ==> !IsNum(b[0]))
    ensures Digits(a + b, n) == Digits(a, n)
  {
    hide IsNum, Digit;
    if a == "" {
      assert a + b == b;
    } else {
      assert (a + b)[1..] == a[1..] + b && IsNum(a[0]);
      DigitsStop(a[1..], b, n * 10 + Digit(a[0]));
    }
  }

  /** What is left of the text behind the port. */
  lemma PortText(u: Url)
    requires IsUrl(u) && u.port != ""
    ensures PortAt(u) <= |Print(u)| && Digits(Print(u)[PortAt(u)..], 0) == Digits(u.port, 0)
  {
    hide Digits, IsAlpha, IsUrlChar, IsQueryChar, IsFragmentChar, IsUserinfoChar, IsHost, UserText, PrintHost;
    var rest := u.path + Opt("?", u.query) + Opt("#", u.fragment);
    var before := u.scheme + "://" + UserText(u) + PrintHost(u.host) + ":";
    assert Print(u) == before + (u.port + rest);
    assert Print(u)[PortAt(u)..] == u.port + rest;
    DigitsStop(u.port, rest, 0);
  }

  /** The text around a component. */
  function Before(u: Url, f: UrlField): string {
    var head := u.scheme + "://";
    match f
    case SchemaField => ""
    case UserinfoField => head
    case HostField => head + UserText(u) + (if u.host.Name? then "" else "[")
    case PortField => head + UserText(u) + PrintHost(u.host) + ":"
    case PathField => head + Authority(u)
    case QueryField => head + Authority(u) + u.path + "?"
    case FragmentField => head + Authority(u) + u.path + Opt("?", u.query) + "#"
  }

  function After(u: Url, f: UrlField): string {
    var tail := u.path + Opt("?", u.query) + Opt("#", u.fragment);
    var port := Opt(":", u.port);
    match f
    case SchemaField => "://" + Authority(u) + tail
    case UserinfoField => "@" + PrintHost(u.host) + port + tail
    case HostField => (if u.host.Name? then "" else "]") + port + tail
    case PortField => tail
    case PathField => Opt("?", u.query) + Opt("#", u.fragment)
    case QueryField => Opt("#", u.fragment)
    case FragmentField => ""
  }

  lemma AroundScheme(u: Url)
    ensures Print(u) == Before(u, SchemaField) + u.scheme + After(u, SchemaField)
  {
    hide Authority, Opt;
    assert Print(u) == "" + u.scheme + After(u, SchemaField);
  }

  lemma AroundUser(u: Url)
    requires u.userinfo != ""
    ensures Print(u) == Before(u, UserinfoField) + u.userinfo + After(u, UserinfoField)
    ensures |Before(u, UserinfoField)| == AuthorityAt(u)
  {
    hide PrintHost, Opt;
    var tail := u.path + Opt("?", u.query) + Opt("#", u.fragment);
    Inside(u.scheme + "://", "", u.userinfo, "@" + PrintHost(u.host) + Opt(":", u.port), tail);
    assert Authority(u) == "" + u.userinfo + ("@" + PrintHost(u.host) + Opt(":", u.port));
    PrintIs(u, tail);
    assert u.scheme + "://" + "" == u.scheme + "://";
    hide Print;
  }

  lemma AroundHost(u: Url)
    ensures Print(u) == Before(u, HostField) + HostBody(u.host) + After(u, HostField)
    ensures |Before(u, HostField)| == HostAt(u)
  {
    hide UserText, HostBody, Opt;
    var pre, post := if u.host.Name? then "" else "[", if u.host.Name? then "" else "]";
    var tail := u.path + Opt("?", u.query) + Opt("#", u.fragment);
    assert PrintHost(u.host) == pre + HostBody(u.host) + post by { if u.host.Name? { NameText(u.host); } }
    hide PrintHost;
    Inside(u.scheme + "://", UserText(u) + pre, HostBody(u.host), post + Opt(":", u.port), tail);
    assert Authority(u) == UserText(u) + pre + HostBody(u.host) + (post + Opt(":", u.port));
    PrintIs(u, tail);
    hide Print, Authority;
    assert u.scheme + "://" + (UserText(u) + pre) == u.scheme + "://" + UserText(u) + pre;
  }

  lemma Inside(head: string, a: string, t: string, b: string, tail: string)
    ensures head + (a + t + b) + tail == head + a + t + (b + tail)
  {
  }

  lemma PrintIs(u: Url, tail: string)
    requires tail == u.path + Opt("?", u.query) + Opt("#", u.fragment)
    ensures Print(u) == u.scheme + "://" + Authority(u) + tail
  {
    hide Authority, Opt;
  }

  lemma NameText(h: Host)
    requires h.Name?
    ensures PrintHost(h) == HostBody(h)
  {
  }

  lemma AroundBack(u: Url, f: UrlField)
    requires TextOf(u, f) != "" && (f.PortField? || f.PathField? || f.QueryField? || f.FragmentField?)
    ensures Print(u) == Before(u, f) + TextOf(u, f) + After(u, f) && |Before(u, f)| == OffsetOf(u, f)
  {
    hide PrintHost, UserText;
    var t := TextOf(u, f);
    assert Print(u) == Before(u, f) + t + After(u, f);
  }

  /** Every component stands where it is reported. */
  lemma Located(u: Url, f: UrlField)
    requires TextOf(u, f) != ""
    ensures var (off, t) := (OffsetOf(u, f), TextOf(u, f)); off + |t| <= |Print(u)| && Print(u)[off..off + |t|] == t
  {
    if f.SchemaField? { AroundScheme(u); }
    else if f.UserinfoField? { AroundUser(u); }
    else if f.HostField? { AroundHost(u); }
    else { AroundBack(u, f); }
    FrontIs(u);
    hide Print, Before, After, OffsetOf, TextOf;
    var off, t := OffsetOf(u, f), TextOf(u, f);
    assert (Before(u, f) + t + After(u, f))[off..off + |t|] == t;
  }

  lemma FrontIs(u: Url)
    ensures TextOf(u, SchemaField) == u.scheme && TextOf(u, UserinfoField) == u.userinfo &&
            TextOf(u, HostField) == HostBody(u.host)
    ensures OffsetOf(u, SchemaField) == 0 == |Before(u, SchemaField)|
    ensures OffsetOf(u, UserinfoField) == AuthorityAt(u) && OffsetOf(u, HostField) == HostAt(u)
  {
  }

  /** A span for exactly each component that is there. */
  predicate Reports(fields: Fields, u: Url) {
    forall f: UrlField ::
      (f in fields <==> TextOf(u, f) != "") && (f in fields ==> fields[f] == Span(OffsetOf(u, f), |TextOf(u, f)|))
  }

  lemma SplitReports(u: Url)
    requires u.scheme != "" && HostBody(u.host) != ""
    ensures Reports(Split(Tail(SchemeFields(u), u), u), u)
  {
    hide Split, Tail, SchemeFields, TextOf, OffsetOf, HostBody;
    forall f: UrlField {
      SplitReport(u, f);
    }
  }

  lemma SplitReport(u: Url, f: UrlField)
    requires u.scheme != "" && HostBody(u.host) != ""
    ensures var fields := Split(Tail(SchemeFields(u), u), u);
            (f in fields <==> TextOf(u, f) != "") && (f in fields ==> fields[f] == Span(OffsetOf(u, f), |TextOf(u, f)|))
  {
    hide HostBody, Authority, UserText, PrintHost, Opt, Print, HostAt, PortAt, PathAt, QueryAt, FragmentAt,
      AuthorityAt;
  }

  lemma TailNotSplit(u: Url)
    ensures NotSplit(Tail(SchemeFields(u), u)) && HostField in Tail(SchemeFields(u), u) &&
            SchemaField in Tail(SchemeFields(u), u)
    ensures Tail(SchemeFields(u), u)[HostField] == Span(AuthorityAt(u), |Authority(u)|)
  {
    hide Authority, PathAt, QueryAt, FragmentAt, AuthorityAt;
  }

  /** The parser of URLs inverts the printer: the URL is accepted, exactly its components are
      reported, each with the span in which it is printed, and the port with its value. */
  lemma UrlReadBack(u: Url)
    requires IsUrl(u)
    ensures var r := ParseUrl(Print(u), false);
            r.Accepted? && Reports(r.fields, u) && r.port == Digits(u.port, 0) &&
            forall f | f in r.fields ::
              r.fields[f].off + r.fields[f].len <= |Print(u)| &&
              Print(u)[r.fields[f].off..r.fields[f].off + r.fields[f].len] == TextOf(u, f)
  {
    hide UrlRun, ParseHost, Digits, Tail, SchemeFields, Split, Print, TextOf, OffsetOf, PortAt, Authority;
    PrintedRun(u);
    TailNotSplit(u);
    var fields := Tail(SchemeFields(u), u);
    PrintedHost(u, fields);
    BodyThere(u);
    SplitReports(u);
    PortIs(u);
    if u.port != "" { PortText(u); } else { NoDigits(); }
    forall f | TextOf(u, f) != "" ensures
      var (off, t) := (OffsetOf(u, f), TextOf(u, f)); off + |t| <= |Print(u)| && Print(u)[off..off + |t|] == t
    {
      Located(u, f);
    }
  }

  lemma NoDigits()
    ensures Digits("", 0) == 0
  {
  }

  lemma PortIs(u: Url)
    requires IsUrl(u)
    ensures TextOf(u, PortField) == u.port && OffsetOf(u, PortField) == PortAt(u) && Digits(u.port, 0) <= 0xffff
  {
  }

  lemma BodyThere(u: Url)
    requires IsUrl(u)
    ensures u.scheme != "" && HostBody(u.host) != ""
  {
  }

  /** The spans reported for different components do not overlap. */
  lemma SpansDisjoint(u: Url, f: UrlField, g: UrlField)
    requires f != g && TextOf(u, f) != "" && TextOf(u, g) != ""
    ensures OffsetOf(u, f) + |TextOf(u, f)| <= OffsetOf(u, g) || OffsetOf(u, g) + |TextOf(u, g)| <= OffsetOf(u, f)
  {
    assert |Authority(u)| == |UserText(u)| + |PrintHost(u.host)| + |Opt(":", u.port)|;
    hide HostBody;
    assert u.host.Name? ==> |PrintHost(u.host)| == |HostBody(u.host)| by { if u.host.Name? { NameText(u.host); } }
    assert !u.host.Name? ==> |PrintHost(u.host)| == |HostBody(u.host)| + 2;
    hide PrintHost, Authority;
  }
}
