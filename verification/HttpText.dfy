/** What the two builders share: numbers as text, the map of headers, and printing into a
    buffer through an advancing pointer. */
module HttpText {
  import opened HttpTypes
  import opened HttpNames
  import opened HttpValues
  import opened HttpHeaders
  import Buffers

  // ---------------------------------------------------------------- numbers as text

  function DecimalText(n: nat): (s: string)
    ensures s != "" && AllDigits(s) && Decimal(s) == n
  {
    var d := (n % 10 + '0' as int) as char;
    if n < 10 then DecimalOne(d); [d] else DecimalSnoc(DecimalText(n / 10), d); DecimalText(n / 10) + [d]
  }

  lemma DecimalOne(d: char)
    requires IsNum(d)
    ensures AllDigits([d]) && Decimal([d]) == Digit(d)
  {
    assert [d][..0] == "";
  }

  /** snprintf into a buffer of 10 bytes: at most 9 characters are kept. */
  function SizeText(n: nat): string {
    var s := DecimalText(n);
    if |s| <= 9 then s else s[..9]
  }

  function Pow10(k: nat): nat { if k == 0 then 1 else 10 * Pow10(k - 1) }

  lemma {:induction false} DecimalTextLength(n: nat)
    ensures n < Pow10(|DecimalText(n)|) && (n >= 10 ==> Pow10(|DecimalText(n)| - 1) <= n)
  {
    if n >= 10 { DecimalTextLength(n / 10); }
  }

  lemma {:induction false} PowGrows(i: nat, j: nat)
    requires i <= j
    ensures Pow10(i) <= Pow10(j)
  {
    if i < j { PowGrows(i, j - 1); }
  }

  lemma {:induction false} DecimalBound(s: string)
    requires AllDigits(s)
    ensures Decimal(s) < Pow10(|s|)
  {
    if s != "" { DecimalBound(s[..|s| - 1]); }
  }

  /** The announced length is the length of the body exactly when it has at most 9 digits. */
  lemma SizeTextExact(n: nat)
    ensures SizeText(n) != "" && AllDigits(SizeText(n))
    ensures Decimal(SizeText(n)) == n <==> n < 1_000_000_000
  {
    DecimalTextLength(n);
    assert Pow10(9) == 1_000_000_000;
    if n < 1_000_000_000 {
      if |DecimalText(n)| > 9 { PowGrows(9, |DecimalText(n)| - 1); }
    } else {
      if |DecimalText(n)| <= 9 { PowGrows(|DecimalText(n)|, 9); }
      DecimalBound(DecimalText(n)[..9]);
    }
  }

  // ---------------------------------------------------------------- std::map<string, string>

  /** The order of std::string: byte by byte, a prefix first. */
  predicate Before(a: string, b: string) {
    b != "" && (a == "" || a[0] < b[0] || (a[0] == b[0] && Before(a[1..], b[1..])))
  }

  predicate Sorted(hs: seq<Header>) { forall i | 0 < i < |hs| :: Before(hs[i - 1].name, hs[i].name) }

  lemma {:induction false} BeforeTotal(a: string, b: string)
    ensures a == b || Before(a, b) || Before(b, a)
  {
    if a != "" && b != "" && a[0] == b[0] {
      BeforeTotal(a[1..], b[1..]);
      if a[1..] == b[1..] { assert a == [a[0]] + a[1..] && b == [b[0]] + b[1..]; }
    }
  }

  /** set_header: the value of an existing key is replaced, a new key goes to its place. */
  function Put(hs: seq<Header>, key: string, value: string): seq<Header> {
    if hs == [] then [Header(key, value)]
    else if hs[0].name == key then [Header(key, value)] + hs[1..]
    else if Before(key, hs[0].name) then [Header(key, value)] + hs
    else [hs[0]] + Put(hs[1..], key, value)
  }

  function Lookup(hs: seq<Header>, key: string): Option<string> {
    if hs == [] then None else if hs[0].name == key then Some(hs[0].value) else Lookup(hs[1..], key)
  }

  /** The map keeps its order, holds the new value, and changes at no other key. */
  lemma {:induction false} PutIsUpdate(hs: seq<Header>, key: string, value: string, other: string)
    requires Sorted(hs)
    ensures var r := Put(hs, key, value);
            Sorted(r) && Lookup(r, key) == Some(value) && (other != key ==> Lookup(r, other) == Lookup(hs, other))
    ensures Put(hs, key, value)[0].name == key || (hs != [] && Put(hs, key, value)[0].name == hs[0].name)
  {
    if hs != [] && hs[0].name != key && !Before(key, hs[0].name) {
      assert Sorted(hs[1..]) by {
        forall i | 0 < i < |hs[1..]|
          ensures Before(hs[1..][i - 1].name, hs[1..][i].name)
        {
          assert Before(hs[i].name, hs[i + 1].name);
        }
      }
      PutIsUpdate(hs[1..], key, value, other);
      BeforeTotal(key, hs[0].name);
      PutSorted(hs[0], Put(hs[1..], key, value));
      assert Put(hs, key, value)[1..] == Put(hs[1..], key, value);
    } else if hs != [] && hs[0].name == key {
      assert Put(hs, key, value)[1..] == hs[1..];
      forall i | 0 < i < |hs| ensures Before(Put(hs, key, value)[i - 1].name, Put(hs, key, value)[i].name) {
        assert Before(hs[i - 1].name, hs[i].name);
      }
    } else if hs != [] {
      assert Put(hs, key, value)[1..] == hs;
      PutSorted(Header(key, value), hs);
    }
  }

  lemma PutSorted(h: Header, hs: seq<Header>)
    requires Sorted(hs) && (hs != [] ==> Before(h.name, hs[0].name))
    ensures Sorted([h] + hs)
  {
    forall i | 0 < i < |[h] + hs| ensures Before(([h] + hs)[i - 1].name, ([h] + hs)[i].name) {
      if i > 1 { assert Before(hs[i - 2].name, hs[i - 1].name); }
    }
  }

  /** One place of the list takes the new header; the rest stays. */
  lemma {:induction false} PutShape(hs: seq<Header>, key: string, value: string) returns (i: nat)
    ensures var r := Put(hs, key, value);
            i <= |hs| && i < |r| && r[..i] == hs[..i] && r[i] == Header(key, value) &&
            (r[i + 1..] == hs[i..] || (i < |hs| && hs[i].name == key && r[i + 1..] == hs[i + 1..]))
  {
    if hs == [] || hs[0].name == key || Before(key, hs[0].name) {
      i := 0;
    } else {
      var j := PutShape(hs[1..], key, value);
      i := j + 1;
      assert Put(hs, key, value) == [hs[0]] + Put(hs[1..], key, value);
      assert hs == [hs[0]] + hs[1..];
    }
  }

  /** The loop of set_header passes over an entry. */
  lemma PutSkips(hs: seq<Header>, i: nat, key: string, value: string)
    requires i < |hs| && hs[i].name != key && !Before(key, hs[i].name)
    ensures hs[..i] + Put(hs[i..], key, value) == hs[..i + 1] + Put(hs[i + 1..], key, value)
  {
    assert hs[i..][1..] == hs[i + 1..];
    assert hs[..i] + ([hs[i]] + Put(hs[i + 1..], key, value)) == hs[..i + 1] + Put(hs[i + 1..], key, value);
    hide Before;
  }

  /** It stops at the key, or where the key belongs. */
  lemma PutStops(hs: seq<Header>, i: nat, key: string, value: string)
    requires i <= |hs| && (i < |hs| ==> hs[i].name == key || Before(key, hs[i].name))
    ensures hs[..i] + Put(hs[i..], key, value) ==
            if i < |hs| && hs[i].name == key then hs[i := Header(key, value)]
               else hs[..i] + [Header(key, value)] + hs[i..]
  {
    if i < |hs| && hs[i].name == key {
      assert hs[i := Header(key, value)] == hs[..i] + ([Header(key, value)] + hs[i..][1..]);
    } else {
      assert hs[..i] + [Header(key, value)] + hs[i..] == hs[..i] + ([Header(key, value)] + hs[i..]);
    }
    hide Before;
  }

  method SetHeader(hs: seq<Header>, key: string, value: string) returns (r: seq<Header>)
    ensures r == Put(hs, key, value)
  {
    hide Put, Before;
    var i := 0;
    assert hs[..0] + Put(hs[0..], key, value) == Put(hs, key, value) by { assert hs[0..] == hs; }
    while i < |hs| && hs[i].name != key && !Before(key, hs[i].name)
      invariant 0 <= i <= |hs| && Put(hs, key, value) == hs[..i] + Put(hs[i..], key, value)
    {
      PutSkips(hs, i, key, value);
      i := i + 1;
    }
    PutStops(hs, i, key, value);
    if i < |hs| && hs[i].name == key {
      r := hs[i := Header(key, value)];
    } else {
      r := hs[..i] + [Header(key, value)] + hs[i..];
    }
  }

  predicate Has(hs: seq<Header>, key: string, value: string) { Header(key, value) in hs }

  /** has_header(key, value) */
  method HasHeader(hs: seq<Header>, key: string, value: string) returns (found: bool)
    ensures found == Has(hs, key, value)
  {
    var i := 0;
    while i < |hs|
      invariant 0 <= i <= |hs| && Header(key, value) !in hs[..i]
    {
      if hs[i].name == key && hs[i].value == value { return true; }
      i := i + 1;
    }
    found := false;
  }

  // ---------------------------------------------------------------- printing

  /** sprintf: the text and a NUL. */
  method Sprintf(buffer: array<char>, at: nat, text: string)
    requires at + |text| < buffer.Length
    modifies buffer
    ensures buffer[..at + |text|] == old(buffer[..at]) + text && buffer[at + |text|] == '\0'
    ensures forall k | at + |text| < k < buffer.Length :: buffer[k] == old(buffer[k])
  {
    var i := 0;
    while i < |text|
      invariant 0 <= i <= |text| && buffer[..at + i] == old(buffer[..at]) + text[..i]
      invariant forall k | at + |text| < k < buffer.Length :: buffer[k] == old(buffer[k])
    {
      buffer[at + i] := text[i];
      i := i + 1;
    }
    buffer[at + |text|] := '\0';
    assert buffer[..at + |text|] == old(buffer[..at]) + text;
  }

  lemma PrintHeadersStep(hs: seq<Header>, i: nat)
    requires i < |hs|
    ensures PrintHeaders(hs[..i + 1]) == PrintHeaders(hs[..i]) + PrintHeader(hs[i])
    ensures |PrintHeaders(hs[..i + 1])| <= |PrintHeaders(hs)|
  {
    assert hs[..i + 1][..i] == hs[..i];
    PrintHeadersPrefix(hs, i + 1);
    hide PrintHeader;
  }

  lemma {:induction false} PrintHeadersPrefix(hs: seq<Header>, i: nat)
    requires i <= |hs|
    ensures |PrintHeaders(hs[..i])| <= |PrintHeaders(hs)|
    decreases |hs| - i
  {
    hide PrintHeader;
    if i < |hs| {
      assert hs[..i + 1][..i] == hs[..i];
      PrintHeadersPrefix(hs, i + 1);
    } else {
      assert hs[..i] == hs;
    }
  }

  /** The loop that prints the header lines. */
  method PrintLines(buffer: array<char>, at: nat, hs: seq<Header>) returns (end: nat)
    requires at + |PrintHeaders(hs)| < buffer.Length
    modifies buffer
    ensures end == at + |PrintHeaders(hs)| && buffer[..end] == old(buffer[..at]) + PrintHeaders(hs)
    ensures forall k | end < k < buffer.Length :: buffer[k] == old(buffer[k])
  {
    hide PrintHeader, PrintHeaders;
    end := at;
    var i := 0;
    assert PrintHeaders(hs[..0]) == "" by { PrintNoHeaders(); }
    assert hs[..|hs|] == hs;
    while i < |hs|
      invariant 0 <= i <= |hs| && end == at + |PrintHeaders(hs[..i])|
      invariant end < buffer.Length && buffer[..end] == old(buffer[..at]) + PrintHeaders(hs[..i])
      invariant forall k | end < k < buffer.Length :: buffer[k] == old(buffer[k])
    {
      PrintHeadersStep(hs, i);
      var text := PrintHeader(hs[i]);
      Sprintf(buffer, end, text);
      assert old(buffer[..at]) + PrintHeaders(hs[..i]) + text == old(buffer[..at]) + PrintHeaders(hs[..i + 1]);
      end := end + |text|;
      i := i + 1;
    }
  }

  /** The loop of build that adds up the header lines. */
  method SizeOfHeaders(hs: seq<Header>) returns (size: nat)
    ensures size == |PrintHeaders(hs)|
  {
    size := 0;
    var i := 0;
    while i < |hs|
      invariant 0 <= i <= |hs| && size == |PrintHeaders(hs[..i])|
    {
      PrintHeadersStep(hs, i);
      size := size + |hs[i].name| + 1 + 1 + |hs[i].value| + 2;
      i := i + 1;
    }
    assert hs[..|hs|] == hs;
  }

  lemma PrintNoHeaders()
    ensures PrintHeaders([]) == ""
  {
  }

  /** The first line, the header lines and the empty line in a buffer of size + 1 zero bytes. */
  method PrintHead(line: string, hs: seq<Header>, size: nat) returns (buffer: array<char>, at: nat)
    requires size >= |line| + |PrintHeaders(hs)| + 2
    ensures fresh(buffer) && buffer.Length == size + 1 && at == |line| + |PrintHeaders(hs)| + 2
    ensures buffer[..at] == line + PrintHeaders(hs) + "\r\n"
    ensures forall k | at <= k < buffer.Length :: buffer[k] == '\0'
  {
    hide PrintHeaders;
    buffer := new char[size + 1](i => '\0');
    Sprintf(buffer, 0, line);
    assert buffer[..|line|] == line;
    at := PrintLines(buffer, |line|, hs);
    Sprintf(buffer, at, "\r\n");
    at := at + 2;
  }

  /** The text of a message in a buffer with one NUL behind it: the head and the body. */
  method PrintMessage(line: string, hs: seq<Header>, body: string, size: nat) returns (buffer: array<char>)
    requires size == |line| + |PrintHeaders(hs)| + 2 + |body|
    ensures fresh(buffer) && buffer.Length == size + 1 && buffer[size] == '\0'
    ensures buffer[..size] == line + PrintHeaders(hs) + "\r\n" + body
  {
    hide PrintHeaders;
    var at;
    buffer, at := PrintHead(line, hs, size);
    if |body| > 0 {
      Buffers.Memcpy(buffer, at, body);
    } else {
      assert line + PrintHeaders(hs) + "\r\n" + body == line + PrintHeaders(hs) + "\r\n";
    }
  }
}
