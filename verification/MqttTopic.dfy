/** MQTTThreadedClient::isTopicMatched against a level-by-level specification (MQTT 3.1.1,
    section 4.7, without the rule for topics that start with `$`). */
module MqttTopic {
  import opened Buffers

  const SLASH: Byte := 0x2F
  const PLUS: Byte := 0x2B
  const HASH: Byte := 0x23

  type Level = seq<Byte>

  /** A topic name or filter, cut at the separators, the bytes 0x2F. */
  function Levels(s: seq<Byte>): (r: seq<Level>)
    ensures r != []
  {
    if s == [] then [[]]
    else if s[0] == 0x2F then [[]] + Levels(s[1..])
    else [[s[0]] + Levels(s[1..])[0]] + Levels(s[1..])[1..]
  }

  predicate Literal(l: Level) { 0x2B !in l && 0x23 !in l }

  /** A wildcard, `+` (0x2B) or `#` (0x23), fills its level, and `#` is the last level. */
  predicate ValidFilter(f: seq<Level>) {
    forall i :: 0 <= i < |f| ==> Literal(f[i]) || f[i] == [0x2B] || (f[i] == [0x23] && i == |f| - 1)
  }

  /** The specification: `+` stands for any one level, `#` for any number of levels, also none. */
  predicate Meets(f: seq<Level>, n: seq<Level>) {
    if f == [] then n == []
    else if f[0] == [0x23] then true
    else n != [] && (f[0] == [0x2B] || f[0] == n[0]) && Meets(f[1..], n[1..])
  }

  /** No `+` stands for an empty level, and `#` stands for at least one level, the first of
      them not empty. */
  predicate Served(f: seq<Level>, n: seq<Level>) {
    (forall i :: 0 <= i < |f| && f[i] == [PLUS] && i < |n| ==> n[i] != []) &&
    (forall i :: 0 <= i < |f| && f[i] == [HASH] ==> i < |n| && n[i] != [])
  }

  /** What the loop decides, a level at a time. */
  predicate LevelMatch(f: seq<Level>, n: seq<Level>) {
    if f == [] then n == []
    else if n == [] then false
    else if f[0] == [HASH] then n[0] != []
    else (if f[0] == [PLUS] then n[0] != [] else f[0] == n[0]) && LevelMatch(f[1..], n[1..])
  }

  lemma {:induction false} LevelMatchExact(f: seq<Level>, n: seq<Level>)
    requires ValidFilter(f)
    ensures LevelMatch(f, n) == (Meets(f, n) && Served(f, n))
  {
    if f != [] && n != [] && f[0] != [HASH] {
      assert ValidFilter(f[1..]) by { assert forall i :: 0 <= i < |f[1..]| ==> f[1..][i] == f[i + 1]; }
      LevelMatchExact(f[1..], n[1..]);
      ServedOn(f, n);
    } else if f != [] && f[0] == [HASH] {
      assert |f| == 1;
    }
  }

  lemma ServedOn(f: seq<Level>, n: seq<Level>)
    requires f != [] && n != [] && f[0] != [HASH]
    ensures Served(f, n) == (Served(f[1..], n[1..]) && (f[0] == [PLUS] ==> n[0] != []))
  {
    var f', n' := f[1..], n[1..];
    assert forall i :: 0 <= i < |f'| ==> f'[i] == f[i + 1];
    assert forall i :: 0 <= i < |n'| ==> n'[i] == n[i + 1];
    if Served(f', n') && (f[0] == [PLUS] ==> n[0] != []) {
      forall i | 0 <= i < |f| && f[i] == [PLUS] && i < |n| ensures n[i] != [] {
        if i > 0 { assert f'[i - 1] == [PLUS]; }
      }
      forall i | 0 <= i < |f| && f[i] == [HASH] ensures i < |n| && n[i] != [] {
        assert f'[i - 1] == [HASH];
      }
    }
    if Served(f, n) {
      forall i | 0 <= i < |f'| && f'[i] == [PLUS] && i < |n'| ensures n'[i] != [] { assert f[i + 1] == [PLUS]; }
      forall i | 0 <= i < |f'| && f'[i] == [HASH] ensures i < |n'| && n'[i] != [] { assert f[i + 1] == [HASH]; }
    }
  }

  // ---------------------------------------------------------------- the loop

  /** From the next separator on. */
  function Skip(n: seq<Byte>): seq<Byte> { if n == [] || n[0] == SLASH then n else Skip(n[1..]) }

  /** The loop from a place in the filter and a place in the name. */
  predicate Walk(f: seq<Byte>, n: seq<Byte>)
    decreases |f|
  {
    if f == [] || n == [] then f == n
    else if n[0] == SLASH && f[0] != SLASH then false
    else if f[0] == PLUS then Walk(f[1..], Skip(n))
    else if f[0] == HASH then Walk(f[1..], [])
    else f[0] == n[0] && Walk(f[1..], n[1..])
  }

  lemma {:induction false} SkipLevel(n: seq<Byte>)
    ensures Levels(Skip(n)) == [[]] + Levels(n)[1..]
  {
    if n != [] && n[0] != SLASH { SkipLevel(n[1..]); }
  }

  /** The filter behind the first byte of a level. */
  lemma ValidOn(f: seq<Byte>)
    requires f != [] && ValidFilter(Levels(f))
    ensures ValidFilter(Levels(f[1..]))
    ensures f[0] == PLUS || f[0] == HASH ==> Levels(f)[0] == [f[0]] && Levels(f[1..]) == [[]] + Levels(f)[1..]
    ensures f[0] == HASH ==> |Levels(f)| == 1 && f[1..] == []
    ensures f[0] !in {SLASH, PLUS, HASH} ==> Literal(Levels(f)[0]) && Literal(Levels(f[1..])[0])
  {
    hide ValidFilter, Literal;
    var a, b := Levels(f), Levels(f[1..]);
    if f[0] == SLASH {
      ValidTail(a, b);
    } else {
      FirstLevel(a, b, f[0]);
      OneLevel(f[1..]);
    }
  }

  lemma ValidTail(a: seq<Level>, b: seq<Level>)
    requires a == [[]] + b && ValidFilter(a)
    ensures ValidFilter(b)
  {
    hide Literal;
    assert forall i :: 0 <= i < |b| ==> b[i] == a[i + 1];
  }

  lemma FirstLevel(a: seq<Level>, b: seq<Level>, c: Byte)
    requires b != [] && a == [[c] + b[0]] + b[1..] && ValidFilter(a)
    ensures ValidFilter(b)
    ensures c == PLUS || c == HASH ==> a[0] == [c] && b == [[]] + a[1..]
    ensures c == HASH ==> |a| == 1
    ensures c != PLUS && c != HASH ==> Literal(a[0]) && Literal(b[0])
  {
    assert a[0][0] == c && a[0][1..] == b[0];
    if c == PLUS || c == HASH {
      assert a[0] == [c];
      assert b[0] == [];
    } else {
      assert forall x :: x in b[0] ==> x in a[0];
    }
    assert Literal(b[0]);
    assert forall i :: 1 <= i < |b| ==> b[i] == a[i];
  }

  lemma OneLevel(s: seq<Byte>)
    ensures Levels(s) == [[]] <==> s == []
  {
  }

  /** Behind a byte that both have. */
  lemma SameByte(f: seq<Byte>, n: seq<Byte>)
    requires f != [] && n != [] && f[0] == n[0] && f[0] != SLASH && Literal(Levels(f)[0]) && Literal(Levels(f[1..])[0])
    ensures LevelMatch(Levels(f), Levels(n)) == LevelMatch(Levels(f[1..]), Levels(n[1..]))
  {
    hide Literal;
    var a, b, c, d := Levels(f), Levels(f[1..]), Levels(n), Levels(n[1..]);
    assert [f[0]] + b[0] == [n[0]] + d[0] <==> b[0] == d[0] by {
      assert ([f[0]] + b[0])[1..] == b[0] && ([n[0]] + d[0])[1..] == d[0];
    }
    assert a[1..] == b[1..] && c[1..] == d[1..];
    LiteralIsNone(a[0]);
    LiteralIsNone(b[0]);
  }

  lemma LiteralIsNone(l: Level)
    requires Literal(l)
    ensures l != [PLUS] && l != [HASH]
  {
    assert PLUS in [PLUS] && HASH in [HASH];
  }

  /** Where the walk stops on a mismatch, or one of the two ends, the levels do not match either. */
  lemma StopsRight(f: seq<Byte>, n: seq<Byte>)
    requires f != [] && ValidFilter(Levels(f))
    requires n == [] || (n[0] == SLASH && f[0] != SLASH) || (f[0] !in {PLUS, HASH} && f[0] != n[0])
    ensures !LevelMatch(Levels(f), Levels(n))
  {
    ValidOn(f);
    var a, c := Levels(f), Levels(n);
    if f[0] == SLASH {
      assert a[0] == [] && a[1..] == Levels(f[1..]);
      if n == [] { assert c[1..] == []; } else { assert c[0] == [n[0]] + Levels(n[1..])[0]; }
    } else {
      assert a[0] == [f[0]] + Levels(f[1..])[0];
      if n == [] || n[0] == SLASH {
        assert c[0] == [];
      } else {
        assert c[0] == [n[0]] + Levels(n[1..])[0];
        assert a[0][0] == f[0] && c[0][0] == n[0];
        LiteralIsNone(a[0]);
      }
    }
  }

  lemma {:induction false} WalkIsLevels(f: seq<Byte>, n: seq<Byte>)
    requires ValidFilter(Levels(f))
    ensures Walk(f, n) == LevelMatch(Levels(f), Levels(n))
    decreases |f|
  {
    hide ValidFilter, Literal;
    if f == [] {
      OneLevel(n);
      EmptyFilter(Levels(n));
    } else if n == [] || (n[0] == SLASH && f[0] != SLASH) || (f[0] !in {PLUS, HASH} && f[0] != n[0]) {
      StopsRight(f, n);
    } else {
      ValidOn(f);
      if f[0] == PLUS {
        WalkIsLevels(f[1..], Skip(n));
        SkipLevel(n);
        PlusLevel(Levels(f), Levels(n), Levels(f[1..]), Levels(Skip(n)));
      } else if f[0] == HASH {
        assert Walk(f[1..], []);
      } else if f[0] == SLASH {
        WalkIsLevels(f[1..], n[1..]);
        assert Levels(f)[1..] == Levels(f[1..]) && Levels(n)[1..] == Levels(n[1..]);
      } else {
        WalkIsLevels(f[1..], n[1..]);
        SameByte(f, n);
      }
    }
  }

  lemma EmptyFilter(n: seq<Level>)
    requires n != []
    ensures LevelMatch([[]], n) == (n == [[]])
  {
    var none: seq<Level> := [[]];
    assert none[1..] == [];
    assert n == [n[0]] + n[1..];
  }

  lemma PlusLevel(f: seq<Level>, n: seq<Level>, f': seq<Level>, n': seq<Level>)
    requires f != [] && n != [] && f[0] == [PLUS] && n[0] != [] && f' == [[]] + f[1..] && n' == [[]] + n[1..]
    ensures LevelMatch(f, n) == LevelMatch(f', n')
  {
    assert f'[1..] == f[1..] && n'[1..] == n[1..];
  }

  // ---------------------------------------------------------------- the method

  /** isTopicMatched: true exactly when the name meets the filter and no wildcard has to stand
      for an empty level or for none. The filter is the C string up to its end. */
  method IsTopicMatched(topicFilter: seq<Byte>, topicName: seq<Byte>) returns (matched: bool)
    ensures matched == Walk(topicFilter, topicName)
    ensures var f, n := Levels(topicFilter), Levels(topicName);
            ValidFilter(f) ==> matched == (Meets(f, n) && Served(f, n))
  {
    hide ValidFilter, Meets, Served, Levels;
    var curf, curn := 0, 0;
    var end := |topicName|;
    var going := true;
    while going && curf < |topicFilter| && curn < end
      invariant 0 <= curf <= |topicFilter| && 0 <= curn <= end
      invariant going ==> Walk(topicFilter[curf..], topicName[curn..]) == Walk(topicFilter, topicName)
      invariant !going ==> !Walk(topicFilter, topicName) && curn < end
      decreases going, |topicFilter| - curf
    {
      var c, x := topicFilter[curf], topicName[curn];
      assert topicFilter[curf..][1..] == topicFilter[curf + 1..] && topicName[curn..][1..] == topicName[curn + 1..];
      if x == SLASH && c != SLASH {
        going := false;
      } else if c != PLUS && c != HASH && c != x {
        going := false;
      } else {
        if c == PLUS {
          curn := LastOfLevel(topicName, curn);
        } else if c == HASH {
          curn := end - 1;
          assert topicName[end..] == [];
        }
        curf := curf + 1;
        curn := curn + 1;
      }
    }
    matched := curn == end && curf == |topicFilter|;
    if ValidFilter(Levels(topicFilter)) {
      WalkIsLevels(topicFilter, topicName);
      LevelMatchExact(Levels(topicFilter), Levels(topicName));
    }
  }

  /** Skip until we meet the next separator, or the end. */
  method LastOfLevel(name: seq<Byte>, at: nat) returns (curn: nat)
    requires at < |name| && name[at] != SLASH
    ensures at <= curn < |name| && name[curn + 1..] == Skip(name[at..])
  {
    curn := at;
    assert name[at..][1..] == name[at + 1..];
    var nextpos := curn + 1;
    while nextpos < |name| && name[nextpos] != SLASH
      invariant at <= curn < |name| && nextpos == curn + 1
      invariant Skip(name[nextpos..]) == Skip(name[at..])
    {
      assert name[nextpos..][1..] == name[nextpos + 1..];
      curn := curn + 1;
      nextpos := curn + 1;
    }
  }

  /** With no empty level in the name, and `#` not asked to stand for zero levels, the client
      and the specification agree. */
  lemma AgreeWithoutEmptyLevels(f: seq<Byte>, n: seq<Byte>)
    requires var a, c := Levels(f), Levels(n);
             ValidFilter(a) && [] !in c && (a[|a| - 1] == [HASH] ==> |a| <= |c|)
    ensures Walk(f, n) == Meets(Levels(f), Levels(n))
  {
    var a, c := Levels(f), Levels(n);
    WalkIsLevels(f, n);
    LevelMatchExact(a, c);
    assert Served(a, c) by {
      forall i | 0 <= i < |a| && a[i] == [HASH] ensures i < |c| && c[i] != [] {
        assert HASH in a[i];
        assert i == |a| - 1;
      }
    }
  }

  /** Without that, they do not: `a/#` is not found to match `a`. */
  lemma ParentLevelMissed()
    ensures var f: seq<Byte>, n: seq<Byte> := [0x61, 0x2F, 0x23], [0x61];
            ValidFilter(Levels(f)) && Meets(Levels(f), Levels(n)) && !Walk(f, n)
  {
    var f: seq<Byte>, n: seq<Byte> := [0x61, 0x2F, 0x23], [0x61];
    assert f[1..] == [SLASH, HASH] && [SLASH, HASH][1..] == [HASH];
    OneByte(HASH);
    OneByte(0x61);
    assert Levels([SLASH, HASH]) == [[], [HASH]];
    assert Levels(f) == [[0x61] + []] + [[], [HASH]][1..] == [[0x61], [HASH]];
    assert [[0x61], [HASH]][1..] == [[HASH]];
  }

  lemma OneByte(c: Byte)
    requires c != SLASH
    ensures Levels([c]) == [[c]]
  {
    var s := [c];
    assert s[1..] == [];
    var none: seq<Level> := [[]];
    assert none[1..] == [] && [c] + [] == [c];
  }
}
