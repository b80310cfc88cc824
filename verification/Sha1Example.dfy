/** The digest of "abc", the first test of RFC 3174, section 7.3, step by step. */
module Sha1Example {
  import opened Buffers
  import opened Sha1Spec

  const ABC: seq<Byte> := [0x61, 0x62, 0x63]

  /** W(t) for this message */
  function Scheduled(i: nat): bv32 {
    match i
    case 0 => 0x61626380 case 1 => 0x00000000 case 2 => 0x00000000 case 3 => 0x00000000 case 4 => 0x00000000
    case 5 => 0x00000000 case 6 => 0x00000000 case 7 => 0x00000000 case 8 => 0x00000000 case 9 => 0x00000000
    case 10 => 0x00000000 case 11 => 0x00000000 case 12 => 0x00000000 case 13 => 0x00000000 case 14 => 0x00000000
    case 15 => 0x00000018 case 16 => 0xC2C4C700 case 17 => 0x00000000 case 18 => 0x00000030 case 19 => 0x85898E01
    case 20 => 0x00000000 case 21 => 0x00000060 case 22 => 0x0B131C03 case 23 => 0x00000030 case 24 => 0x85898EC1
    case 25 => 0x16263806 case 26 => 0x00000000 case 27 => 0x00000180 case 28 => 0x2C4C700C case 29 => 0x000000F0
    case 30 => 0x93AFB507 case 31 => 0x5898E048 case 32 => 0x8E9A9202 case 33 => 0x00000600 case 34 => 0xB131C0F0
    case 35 => 0x16263BC6 case 36 => 0x4EBED41E case 37 => 0x626380A1 case 38 => 0x16263806 case 39 => 0x000018C0
    case 40 => 0xD2E138C4 case 41 => 0x00000F00 case 42 => 0x3AFB5079 case 43 => 0x898E04E5 case 44 => 0xE2BA3C2B
    case 45 => 0x000060C0 case 46 => 0x053A37CD case 47 => 0x74458547 case 48 => 0xDA9415ED case 49 => 0x26380A16
    case 50 => 0x626383A1 case 51 => 0x4EBF54DE case 52 => 0x3835B44B case 53 => 0x0000F600 case 54 => 0x1E84C7A3
    case 55 => 0x98E04D98 case 56 => 0x651D16A0 case 57 => 0x62658CA1 case 58 => 0x458544D6 case 59 => 0x44584CB7
    case 60 => 0x7BA06619 case 61 => 0x6380AEA2 case 62 => 0x0AE55269 case 63 => 0x627B49A1 case 64 => 0x7CD45C9D
    case 65 => 0x000F0000 case 66 => 0xFB50753A case 67 => 0xEC6765E8 case 68 => 0xBA3C2BE2 case 69 => 0x0060C000
    case 70 => 0x3A37CD05 case 71 => 0x458546F4 case 72 => 0xB8599DD6 case 73 => 0x380A1A26 case 74 => 0x01E02203
    case 75 => 0xE7CC3456 case 76 => 0xE6E60B69 case 77 => 0x00F60A00 case 78 => 0x5795EF4F case _ => 0x822E0879
  }

  /** A before turn i - 4, and further back the words that turn 0 finds in B to E */
  function Stage(i: nat): bv32 {
    match i
    case 0 => 0x0F4B87C3 case 1 => 0x40C951D8 case 2 => 0x62EB73FA case 3 => 0xEFCDAB89 case 4 => 0x67452301
    case 5 => 0x0116FC33 case 6 => 0x8990536D case 7 => 0xA1390F08 case 8 => 0xCDD8E11B case 9 => 0xCFD499DE
    case 10 => 0x3FC7CA40 case 11 => 0x993E30C1 case 12 => 0x9E8C07D4 case 13 => 0x4B6AE328 case 14 => 0x8351F929
    case 15 => 0xFBDA9E89 case 16 => 0x63188FE4 case 17 => 0x4607B664 case 18 => 0x9128F695 case 19 => 0x196BEE77
    case 20 => 0x20BDD62F case 21 => 0x4E925823 case 22 => 0x82AA6728 case 23 => 0xDC64901D case 24 => 0xFD9E1D7D
    case 25 => 0x1A37B0CA case 26 => 0x33A23BFC case 27 => 0x21283486 case 28 => 0xD541F12D case 29 => 0xC7567DC6
    case 30 => 0x48413BA4 case 31 => 0xBE35FBD5 case 32 => 0x4AA84D97 case 33 => 0x8370B52E case 34 => 0xC5FBAF5D
    case 35 => 0x1267B407 case 36 => 0x3B845D33 case 37 => 0x046FAA0A case 38 => 0x2C0EBC11 case 39 => 0x21796AD4
    case 40 => 0xDCBBB0CB case 41 => 0x0F511FD8 case 42 => 0xDC63973F case 43 => 0x4C986405 case 44 => 0x32DE1CBA
    case 45 => 0xFC87DEDF case 46 => 0x970A0D5C case 47 => 0x7F193DC5 case 48 => 0xEE1B1AAF case 49 => 0x40F28E09
    case 50 => 0x1C51E1F2 case 51 => 0xA01B846C case 52 => 0xBEAD02CA case 53 => 0xBAF39337 case 54 => 0x120731C5
    case 55 => 0x641DB2CE case 56 => 0x3847AD66 case 57 => 0xE490436D case 58 => 0x27E9F1D8 case 59 => 0x7B71F76D
    case 60 => 0x5E6456AF case 61 => 0xC846093F case 62 => 0xD262FF50 case 63 => 0x09D785FD case 64 => 0x3F52DE5A
    case 65 => 0xD756C147 case 66 => 0x548C9CB2 case 67 => 0xB66C020B case 68 => 0x6B61C9E1 case 69 => 0x19DFA7AC
    case 70 => 0x101655F9 case 71 => 0x0C3DF2B4 case 72 => 0x78DD4D2B case 73 => 0x497093C0 case 74 => 0x3F2588C2
    case 75 => 0xC199F8C7 case 76 => 0x39859DE7 case 77 => 0xEDB42DE4 case 78 => 0x11793F6F case 79 => 0x5EE76897
    case 80 => 0x63F7DAB7 case 81 => 0xA079B7D9 case 82 => 0x860D21CC case 83 => 0x5738D5E1 case _ => 0x42541B35
  }

  /** The five words before turn t. */
  function StageAt(t: nat): Hash {
    Hash(Word(Stage(t + 4)), Word(Stage(t + 3)), CircularShift(30, Word(Stage(t + 2))),
         CircularShift(30, Word(Stage(t + 1))), CircularShift(30, Word(Stage(t))))
  }

  // ---------------------------------------------------------------- the schedule

  predicate ScheduleStep(t: nat)
    requires 16 <= t
  {
    Word(Scheduled(t)) ==
    CircularShift(1, Xor(Xor(Xor(Word(Scheduled(t - 3)), Word(Scheduled(t - 8))), Word(Scheduled(t - 14))),
                         Word(Scheduled(t - 16))))
  }

  lemma Schedule16(t: nat)
    requires 16 <= t < 32
    ensures ScheduleStep(t)
  {
    match t
    case 16 => case 17 => case 18 => case 19 => case 20 => case 21 => case 22 => case 23 => case 24 => case 25 =>
    case 26 => case 27 => case 28 => case 29 => case 30 => case _ =>
  }

  lemma Schedule32(t: nat)
    requires 32 <= t < 48
    ensures ScheduleStep(t)
  {
    match t
    case 32 => case 33 => case 34 => case 35 => case 36 => case 37 => case 38 => case 39 => case 40 => case 41 =>
    case 42 => case 43 => case 44 => case 45 => case 46 => case _ =>
  }

  lemma Schedule48(t: nat)
    requires 48 <= t < 64
    ensures ScheduleStep(t)
  {
    match t
    case 48 => case 49 => case 50 => case 51 => case 52 => case 53 => case 54 => case 55 => case 56 => case 57 =>
    case 58 => case 59 => case 60 => case 61 => case 62 => case _ =>
  }

  lemma Schedule64(t: nat)
    requires 64 <= t < 80
    ensures ScheduleStep(t)
  {
    match t
    case 64 => case 65 => case 66 => case 67 => case 68 => case 69 => case 70 => case 71 => case 72 => case 73 =>
    case 74 => case 75 => case 76 => case 77 => case 78 => case _ =>
  }

  lemma ScheduleSteps(t: nat)
    requires 16 <= t < 80
    ensures ScheduleStep(t)
  {
    hide ScheduleStep;
    if t < 32 { Schedule16(t); } else if t < 48 { Schedule32(t); } else if t < 64 { Schedule48(t); } else {
      Schedule64(t);
    }
  }

  lemma BlockBytes(i: nat)
    requires i < 64
    ensures |Padded(ABC)| == 64
    ensures Padded(ABC)[i] == if i < 3 then ABC[i] else if i == 3 then 0x80 else if i < 63 then 0 else 0x18
  {
    assert FourBytes(0) == [0, 0, 0, 0] && FourBytes(24) == [0, 0, 0, 24];
  }

  lemma WideBytes()
    ensures Wide(0) == 0 && Wide(0x18) == 0x18
  {
  }

  lemma Wide61() ensures Wide(0x61) == 0x61 { }
  lemma Wide62() ensures Wide(0x62) == 0x62 { }
  lemma Wide63() ensures Wide(0x63) == 0x63 { }
  lemma Wide80() ensures Wide(0x80) == 0x80 { }

  /** The words of the block itself. */
  lemma FirstWords(t: nat)
    requires t < 16
    ensures |Padded(ABC)| == 64 && W(Padded(ABC), t) == Word(Scheduled(t))
  {
    hide Padded, Wide;
    BlockBytes(4 * t);
    BlockBytes(4 * t + 1);
    BlockBytes(4 * t + 2);
    BlockBytes(4 * t + 3);
    WideBytes();
    Wide61();
    Wide62();
    Wide63();
    Wide80();
    if t == 0 {
      assert Word(Scheduled(0)) == WordOf(0x61, 0x62, 0x63, 0x80);
    } else if t == 15 {
      assert Word(Scheduled(15)) == WordOf(0, 0, 0, 0x18);
    } else {
      assert WordOf(0, 0, 0, 0) == Word(0);
      assert Scheduled(t) == 0;
    }
  }

  lemma {:induction false} ScheduleIs(t: nat)
    requires t < 80
    ensures |Padded(ABC)| == 64 && W(Padded(ABC), t) == Word(Scheduled(t))
  {
    hide Padded, CircularShift, Xor, Scheduled, WordOf;
    if t < 16 {
      FirstWords(t);
    } else {
      ScheduleIs(t - 3);
      ScheduleIs(t - 8);
      ScheduleIs(t - 14);
      ScheduleIs(t - 16);
      ScheduleSteps(t);
    }
  }

  // ---------------------------------------------------------------- the turns

  predicate TurnStep(t: nat) { Turn(StageAt(t), t, Word(Scheduled(t))).a == Word(Stage(t + 5)) }

  lemma Turns0(t: nat)
    requires 0 <= t < 10
    ensures TurnStep(t)
  {
    match t
    case 0 => case 1 => case 2 => case 3 => case 4 => case 5 => case 6 => case 7 => case 8 => case _ =>
  }

  lemma Turns10(t: nat)
    requires 10 <= t < 20
    ensures TurnStep(t)
  {
    match t
    case 10 => case 11 => case 12 => case 13 => case 14 => case 15 => case 16 => case 17 => case 18 => case _ =>
  }

  lemma Turns20(t: nat)
    requires 20 <= t < 30
    ensures TurnStep(t)
  {
    match t
    case 20 => case 21 => case 22 => case 23 => case 24 => case 25 => case 26 => case 27 => case 28 => case _ =>
  }

  lemma Turns30(t: nat)
    requires 30 <= t < 40
    ensures TurnStep(t)
  {
    match t
    case 30 => case 31 => case 32 => case 33 => case 34 => case 35 => case 36 => case 37 => case 38 => case _ =>
  }

  lemma Turns40(t: nat)
    requires 40 <= t < 50
    ensures TurnStep(t)
  {
    match t
    case 40 => case 41 => case 42 => case 43 => case 44 => case 45 => case 46 => case 47 => case 48 => case _ =>
  }

  lemma Turns50(t: nat)
    requires 50 <= t < 60
    ensures TurnStep(t)
  {
    match t
    case 50 => case 51 => case 52 => case 53 => case 54 => case 55 => case 56 => case 57 => case 58 => case _ =>
  }

  lemma Turns60(t: nat)
    requires 60 <= t < 70
    ensures TurnStep(t)
  {
    match t
    case 60 => case 61 => case 62 => case 63 => case 64 => case 65 => case 66 => case 67 => case 68 => case _ =>
  }

  lemma Turns70(t: nat)
    requires 70 <= t < 80
    ensures TurnStep(t)
  {
    match t
    case 70 => case 71 => case 72 => case 73 => case 74 => case 75 => case 76 => case 77 => case 78 => case _ =>
  }

  lemma TurnSteps(t: nat)
    requires t < 80
    ensures Turn(StageAt(t), t, Word(Scheduled(t))) == StageAt(t + 1)
  {
    assert TurnStep(t) ==> Turn(StageAt(t), t, Word(Scheduled(t))) == StageAt(t + 1) by {
      hide Stage, Scheduled, CircularShift, F, Plus, K;
    }
    hide TurnStep, Turn, StageAt;
    if t < 10 { Turns0(t); } else if t < 20 { Turns10(t); } else if t < 30 { Turns20(t); } else if t < 40 {
      Turns30(t);
    }
    else if t < 50 { Turns40(t); } else if t < 60 { Turns50(t); } else if t < 70 { Turns60(t); } else { Turns70(t); }
  }

  lemma InitialStage()
    ensures StageAt(0) == INITIAL
  {
  }

  lemma {:induction false} TurnsAre(t: nat)
    requires t <= 80
    ensures |Padded(ABC)| == 64 && Turns(INITIAL, Padded(ABC), t) == StageAt(t)
  {
    hide Padded, Turn, StageAt, W, INITIAL, Scheduled;
    if t == 0 {
      InitialStage();
      ScheduleIs(0);
    } else {
      TurnsAre(t - 1);
      ScheduleIs(t - 1);
      TurnSteps(t - 1);
    }
  }

  /** The hash value of the message, word by word. */
  lemma LastStage()
    ensures Sum(INITIAL, StageAt(80)) ==
            Hash(Word(0xA9993E36), Word(0x4706816A), Word(0xBA3E2571), Word(0x7850C26C), Word(0x9CD0D89D))
  {
    var h := StageAt(80);
    assert h.a == Word(Stage(84)) && h.b == Word(Stage(83));
    SumWord();
    LastA();
    LastC();
    LastD();
    LastE();
    hide CircularShift, Stage, Plus;
  }

  lemma LastA() ensures Stage(84) == 0x42541B35 && Stage(83) == 0x5738D5E1 { }
  lemma LastC() ensures CircularShift(30, Word(Stage(82))) == Word(0x21834873) { }
  lemma LastD() ensures CircularShift(30, Word(Stage(81))) == Word(0x681E6DF6) { }
  lemma LastE() ensures CircularShift(30, Word(Stage(80))) == Word(0xD8FDF6AD) { }

  lemma SumWord()
    ensures Plus(INITIAL.a, Word(0x42541B35)) == Word(0xA9993E36) &&
            Plus(INITIAL.b, Word(0x5738D5E1)) == Word(0x4706816A)
    ensures Plus(INITIAL.c, Word(0x21834873)) == Word(0xBA3E2571) &&
            Plus(INITIAL.d, Word(0x681E6DF6)) == Word(0x7850C26C)
    ensures Plus(INITIAL.e, Word(0xD8FDF6AD)) == Word(0x9CD0D89D)
  {
  }

  lemma High0() ensures ByteAt(Word(0xA9993E36), 3) == 0xA9 && ByteAt(Word(0xA9993E36), 2) == 0x99 { }
  lemma Low0() ensures ByteAt(Word(0xA9993E36), 1) == 0x3E && ByteAt(Word(0xA9993E36), 0) == 0x36 { }
  lemma High1() ensures ByteAt(Word(0x4706816A), 3) == 0x47 && ByteAt(Word(0x4706816A), 2) == 0x06 { }
  lemma Low1() ensures ByteAt(Word(0x4706816A), 1) == 0x81 && ByteAt(Word(0x4706816A), 0) == 0x6A { }
  lemma High2() ensures ByteAt(Word(0xBA3E2571), 3) == 0xBA && ByteAt(Word(0xBA3E2571), 2) == 0x3E { }
  lemma Low2() ensures ByteAt(Word(0xBA3E2571), 1) == 0x25 && ByteAt(Word(0xBA3E2571), 0) == 0x71 { }
  lemma High3() ensures ByteAt(Word(0x7850C26C), 3) == 0x78 && ByteAt(Word(0x7850C26C), 2) == 0x50 { }
  lemma Low3() ensures ByteAt(Word(0x7850C26C), 1) == 0xC2 && ByteAt(Word(0x7850C26C), 0) == 0x6C { }
  lemma High4() ensures ByteAt(Word(0x9CD0D89D), 3) == 0x9C && ByteAt(Word(0x9CD0D89D), 2) == 0xD0 { }
  lemma Low4() ensures ByteAt(Word(0x9CD0D89D), 1) == 0xD8 && ByteAt(Word(0x9CD0D89D), 0) == 0x9D { }

  lemma BytesOfHash()
    ensures HashBytes(Hash(Word(0xA9993E36), Word(0x4706816A), Word(0xBA3E2571), Word(0x7850C26C), Word(0x9CD0D89D))) ==
            [0xA9, 0x99, 0x3E, 0x36, 0x47, 0x06, 0x81, 0x6A, 0xBA, 0x3E, 0x25, 0x71, 0x78, 0x50, 0xC2, 0x6C, 0x9C, 0xD0,
             0xD8, 0x9D]
  {
    hide ByteAt;
    High0();
    Low0();
    High1();
    Low1();
    High2();
    Low2();
    High3();
    Low3();
    High4();
    Low4();
  }

  /** SHA-1 of "abc" is A9993E36 4706816A BA3E2571 7850C26C 9CD0D89D. */
  lemma DigestOfAbc()
    ensures Digest([0x61, 0x62, 0x63]) ==
            [0xA9, 0x99, 0x3E, 0x36, 0x47, 0x06, 0x81, 0x6A, 0xBA, 0x3E, 0x25, 0x71, 0x78, 0x50, 0xC2, 0x6C, 0x9C, 0xD0,
             0xD8, 0x9D]
  {
    hide Padded, INITIAL, StageAt, Turns, Sum, HashBytes;
    TurnsAre(80);
    LastStage();
    BytesOfHash();
    assert Padded(ABC)[64 * 0..64 * 1] == Padded(ABC);
    AfterNone(Padded(ABC));
    assert |Padded(ABC)| / 64 == 1;
  }
}
