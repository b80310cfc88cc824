/** http_parser_parse_url and http_parse_host: the fields of a URL as spans of its text. */
module HttpUrl {
  import opened HttpTypes
  import opened HttpAutomaton
  import opened HttpValues
  import opened HttpResponses

  datatype UrlField = SchemaField | HostField | PortField | PathField | QueryField | FragmentField | UserinfoField

  /** field_data: where a field starts and how long it is. */
  datatype Span = Span(off: nat, len: nat)

  /** field_set together with field_data: the fields that are set. */
  type Fields = map<UrlField, Span>

  /** The field a state belongs to; none for the delimiters. */
  function FieldOf(s: State): Option<UrlField> {
    if s.ReqSchema? then Some(SchemaField)
    else if s.ReqServer? || s.ReqServerWithAt? then Some(HostField)
    else if s.ReqPath? then Some(PathField)
    else if s.ReqQueryString? then Some(QueryField)
    else if s.ReqFragment? then Some(FragmentField)
    else None
  }

  /** A byte at position i belongs to this field; `again` when the byte before did, too. */
  function Extend(fields: Fields, f: UrlField, again: bool, i: nat): Fields {
    if again && f in fields then fields[f := Span(fields[f].off, fields[f].len + 1)] else fields[f := Span(i, 1)]
  }

  datatype UrlScan = UrlScan(s: State, last: Option<UrlField>, foundAt: bool, fields: Fields)

  /** One turn of the loop of http_parser_parse_url; Dead is the early return. */
  function UrlByte(u: UrlScan, i: nat, ch: char): UrlScan {
    if u.s.Dead? then u
    else
      var s := ParseUrlChar(u.s, ch);
      var f := FieldOf(s);
      if f.None? then u.(s := s)
      else UrlScan(s, f, u.foundAt || s.ReqServerWithAt?, Extend(u.fields, f.value, u.last == f, i))
  }

  /** The loop over the text `t`, which starts at offset `off`. */
  function UrlRun(u: UrlScan, off: nat, t: string): UrlScan {
    if t == "" then u else UrlByte(UrlRun(u, off, t[..|t| - 1]), off + |t| - 1, t[|t| - 1])
  }

  // ---------------------------------------------------------------- the host

  datatype HostState =
    | HostDead | UserinfoStart | Userinfo | HostStart | HostV6Start | HostName | HostV6 | HostV6End
    | HostV6ZoneStart | HostV6Zone | HostPortStart | HostPort

  predicate IsZoneChar(ch: char) { IsAlphaNum(ch) || ch == '%' || ch == '.' || ch == '-' || ch == '_' || ch == '~' }

  /** http_parse_host_char */
  function ParseHostChar(s: HostState, ch: char): HostState {
    match s
    case Userinfo | UserinfoStart => if ch == '@' then HostStart else if IsUserinfoChar(ch) then Userinfo else HostDead
    case HostStart => if ch == '[' then HostV6Start else if IsHostChar(ch) then HostName else HostDead
    case HostName => if IsHostChar(ch) then HostName else if ch == ':' then HostPortStart else HostDead
    case HostV6End => if ch == ':' then HostPortStart else HostDead
    case HostV6 =>
      if ch == ']' then HostV6End
      else if IsHex(ch) || ch == ':' || ch == '.' then HostV6
      else if ch == '%' then HostV6ZoneStart
      else HostDead
    case HostV6Start => if IsHex(ch) || ch == ':' || ch == '.' then HostV6 else HostDead
    case HostV6Zone => if ch == ']' then HostV6End else if IsZoneChar(ch) then HostV6Zone else HostDead
    case HostV6ZoneStart => if IsZoneChar(ch) then HostV6Zone else HostDead
    case HostPort | HostPortStart => if IsNum(ch) then HostPort else HostDead
    case HostDead => HostDead
  }

  datatype HostScan = HostScan(s: HostState, fields: Fields)

  /** One turn of the loop of http_parse_host; HostDead is the early return. */
  function HostByte(h: HostScan, i: nat, ch: char): HostScan {
    if h.s.HostDead? then h
    else
      var s := ParseHostChar(h.s, ch);
      var fields :=
        if s.HostName? || s.HostV6? then
          if HostField !in h.fields then h.fields
          else h.fields[HostField := Span(if s != h.s then i else h.fields[HostField].off, h.fields[HostField].len + 1)]
        else if s.HostV6ZoneStart? || s.HostV6Zone? then
          if HostField !in h.fields then h.fields
          else h.fields[HostField := Span(h.fields[HostField].off, h.fields[HostField].len + 1)]
        else if s.HostPort? then Extend(h.fields, PortField, s == h.s, i)
        else if s.Userinfo? then Extend(h.fields, UserinfoField, s == h.s, i)
        else h.fields;
      HostScan(s, fields)
  }

  function HostRun(h: HostScan, off: nat, t: string): HostScan {
    if t == "" then h else HostByte(HostRun(h, off, t[..|t| - 1]), off + |t| - 1, t[|t| - 1])
  }

  /** The states in which a host may end. */
  predicate HostEnds(s: HostState) { s.HostName? || s.HostV6End? || s.HostPort? }

  /** http_parse_host on the span found for the host. */
  function ParseHost(buf: string, fields: Fields, foundAt: bool): Option<Fields>
    requires HostField in fields && fields[HostField].off + fields[HostField].len <= |buf|
  {
    var span := fields[HostField];
    var start := HostScan(if foundAt then UserinfoStart else HostStart, fields[HostField := Span(span.off, 0)]);
    var h := HostRun(start, span.off, buf[span.off..span.off + span.len]);
    if HostEnds(h.s) then Some(h.fields) else None
  }

  // ---------------------------------------------------------------- the whole URL

  datatype Parsed = Rejected | Accepted(fields: Fields, port: nat)

  predicate InBounds(fields: Fields, n: nat) { forall f | f in fields :: fields[f].off + fields[f].len <= n }

  const URL_START := UrlScan(ReqSpacesBeforeUrl, None, false, map[])
  const CONNECT_START := UrlScan(ReqServerStart, None, false, map[])

  /** The fields that http_parse_host adds are not there before it. */
  predicate NotSplit(fields: Fields) { PortField !in fields && UserinfoField !in fields }

  lemma {:induction false} UrlRunInBounds(u: UrlScan, off: nat, t: string)
    requires InBounds(u.fields, off) && NotSplit(u.fields)
    ensures InBounds(UrlRun(u, off, t).fields, off + |t|) && NotSplit(UrlRun(u, off, t).fields)
  {
    hide ParseUrlChar;
    if t != "" { UrlRunInBounds(u, off, t[..|t| - 1]); }
  }

  predicate FieldUpTo(fields: Fields, f: UrlField, i: nat) { f in fields ==> fields[f].off + fields[f].len <= i }

  /** Every field stays inside the text; those of the host inside the part read so far. */
  predicate HostInBounds(h: HostScan, i: nat, n: nat) {
    InBounds(h.fields, n) && HostField in h.fields && FieldUpTo(h.fields, HostField, i) &&
    FieldUpTo(h.fields, PortField, i) &&
    FieldUpTo(h.fields, UserinfoField, i) &&
    (h.s.UserinfoStart? || h.s.Userinfo? || h.s.HostStart? || h.s.HostV6Start? ==> h.fields[HostField].len == 0)
  }

  lemma {:induction false} HostRunInBounds(h: HostScan, off: nat, t: string, n: nat)
    requires HostInBounds(h, off, n) && off + |t| <= n
    ensures HostInBounds(HostRun(h, off, t), off + |t|, n)
  {
    hide HostByte, HostInBounds;
    if t != "" {
      HostRunInBounds(h, off, t[..|t| - 1], n);
      HostByteInBounds(HostRun(h, off, t[..|t| - 1]), off + |t| - 1, t[|t| - 1], n);
    }
  }

  lemma HostByteInBounds(h: HostScan, i: nat, ch: char, n: nat)
    requires HostInBounds(h, i, n) && i < n
    ensures HostInBounds(HostByte(h, i, ch), i + 1, n)
  {
    hide IsHostChar, IsUserinfoChar, IsZoneChar, IsHex, IsNum;
  }

  lemma HostInside(buf: string, fields: Fields, foundAt: bool)
    requires InBounds(fields, |buf|) && HostField in fields && NotSplit(fields)
    ensures ParseHost(buf, fields, foundAt).Some? ==> InBounds(ParseHost(buf, fields, foundAt).value, |buf|)
  {
    hide HostRun;
    var span := fields[HostField];
    var start := HostScan(if foundAt then UserinfoStart else HostStart, fields[HostField := Span(span.off, 0)]);
    HostRunInBounds(start, span.off, buf[span.off..span.off + span.len], |buf|);
  }

  /** What http_parser_parse_url decides. */
  function ParseUrl(buf: string, isConnect: bool): (r: Parsed)
    ensures r.Accepted? ==> InBounds(r.fields, |buf|) && r.port <= 0xffff
  {
    var u := UrlRun(if isConnect then CONNECT_START else URL_START, 0, buf);
    UrlRunInBounds(if isConnect then CONNECT_START else URL_START, 0, buf);
    if u.s.Dead? || (SchemaField in u.fields && HostField !in u.fields) then Rejected
    else
      var h := if HostField in u.fields then (HostInside(buf, u.fields, u.foundAt); ParseHost(buf, u.fields, u.foundAt))
               else Some(u.fields);
      if h.None? || (isConnect && h.value.Keys != {HostField, PortField}) then Rejected
      else if PortField !in h.value then Accepted(h.value, 0)
      else
        var v := Digits(buf[h.value[PortField].off..], 0);
        if v > 0xffff then Rejected else Accepted(h.value, v)
  }

  class HttpParserUrl {
    var fields: Fields
    var port: nat

    constructor ()
      ensures fields == map[] && port == 0
    {
      fields, port := map[], 0;
    }

    /** http_parse_host: 0 when the host is accepted. */
    method ReadHost(buf: string, foundAt: bool) returns (rc: int)
      requires HostField in fields && InBounds(fields, |buf|)
      modifies this`fields
      ensures var r := ParseHost(buf, old(fields), foundAt);
              (rc == 0 <==> r.Some?) && (r.Some? ==> fields == r.value)
    {
      hide HostByte;
      var off := fields[HostField].off;
      var buflen := off + fields[HostField].len;
      fields := fields[HostField := Span(off, 0)];
      var s := if foundAt then UserinfoStart else HostStart;
      ghost var start := HostScan(s, fields);
      var p := off;
      assert buf[off..off] == "";
      while p < buflen
        invariant off <= p <= buflen && !s.HostDead?
        invariant HostScan(s, fields) == HostRun(start, off, buf[off..p])
      {
        var h := HostByte(HostScan(s, fields), p, buf[p]);
        assert buf[off..p + 1][..|buf[off..p + 1]| - 1] == buf[off..p];
        assert h == HostRun(start, off, buf[off..p + 1]);
        if h.s.HostDead? {
          assert buf[off..buflen][..p + 1 - off] == buf[off..p + 1];
          HostStaysDead(start, off, buf[off..buflen], p + 1 - off);
          return 1;
        }
        fields, s := h.fields, h.s;
        p := p + 1;
      }
      return if HostEnds(s) then 0 else 1;
    }

    /** http_parser_parse_url: 0 when the URL is accepted. Offsets and lengths have 16 bits. */
    method Read(buf: string, isConnect: bool) returns (rc: int)
      requires |buf| < 0x1_0000
      modifies this
      ensures var r := ParseUrl(buf, isConnect);
              (rc == 0 <==> r.Accepted?) && (r.Accepted? ==> fields == r.fields && port == r.port)
    {
      hide ParseHost, ParseUrlChar, Digits, Extend, InBounds;
      ghost var start := if isConnect then CONNECT_START else URL_START;
      fields, port := map[], 0;
      var s := if isConnect then ReqServerStart else ReqSpacesBeforeUrl;
      var last: Option<UrlField> := None;
      var foundAt := false;
      var p := 0;
      assert buf[..0] == "";
      while p < |buf|
        invariant 0 <= p <= |buf| && !s.Dead? && port == 0
        invariant UrlScan(s, last, foundAt, fields) == UrlRun(start, 0, buf[..p])
      {
        assert buf[..p + 1][..p] == buf[..p];
        s := ParseUrlChar(s, buf[p]);
        if s.Dead? {
          UrlStaysDead(start, buf, p + 1);
          return 1;
        }
        var uf := FieldOf(s);
        if uf.Some? {
          if s.ReqServerWithAt? { foundAt := true; }
          fields := Extend(fields, uf.value, last == uf, p);
          last := uf;
        }
        p := p + 1;
      }
      assert buf[..p] == buf;
      StartInBounds();
      UrlRunInBounds(start, 0, buf);
      if SchemaField in fields && HostField !in fields { return 1; }
      if HostField in fields {
        HostInside(buf, fields, foundAt);
        var bad := ReadHost(buf, foundAt);
        if bad != 0 { return 1; }
      }
      if isConnect && fields.Keys != {HostField, PortField} { return 1; }
      if PortField in fields {
        assert fields[PortField].off <= |buf| by { FieldInside(fields, PortField, |buf|); }
        var v := Digits(buf[fields[PortField].off..], 0);
        if v > 0xffff { return 1; }
        port := v;
      }
      return 0;
    }
  }

  lemma StartInBounds()
    ensures InBounds(URL_START.fields, 0) && InBounds(CONNECT_START.fields, 0)
  {
  }

  lemma FieldInside(fields: Fields, f: UrlField, n: nat)
    requires InBounds(fields, n) && f in fields
    ensures fields[f].off + fields[f].len <= n
  {
  }

  lemma {:induction false} HostStaysDead(h: HostScan, off: nat, t: string, k: nat)
    requires k <= |t| && HostRun(h, off, t[..k]).s.HostDead?
    ensures HostRun(h, off, t).s.HostDead?
    decreases |t|
  {
    if k == |t| {
      assert t[..k] == t;
    } else {
      var front := t[..|t| - 1];
      assert front[..k] == t[..k];
      HostStaysDead(h, off, front, k);
    }
  }

  lemma {:induction false} UrlStaysDead(u: UrlScan, t: string, k: nat)
    requires k <= |t| && UrlRun(u, 0, t[..k]).s.Dead?
    ensures UrlRun(u, 0, t).s.Dead?
    decreases |t|
  {
    hide ParseUrlChar;
    if k == |t| {
      assert t[..k] == t;
    } else {
      var front := t[..|t| - 1];
      assert front[..k] == t[..k];
      UrlStaysDead(u, front, k);
    }
  }
}
