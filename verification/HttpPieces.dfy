/** A stream as a sequence of pieces. */
module HttpPieces {
  function Flat(pieces: seq<string>): string {
    if pieces == [] then "" else Flat(pieces[..|pieces| - 1]) + pieces[|pieces| - 1]
  }

  predicate NonEmpty(pieces: seq<string>) { forall i | 0 <= i < |pieces| :: pieces[i] != "" }

  /** `pieces` are buffers that together hold `s`. */
  ghost predicate Cuts(pieces: seq<string>, s: string) { NonEmpty(pieces) && Flat(pieces) == s }

  lemma FlatNonEmpty(pieces: seq<string>)
    requires NonEmpty(pieces) && pieces != []
    ensures Flat(pieces) != ""
  {
    assert pieces[|pieces| - 1] != "";
  }

  lemma FlatNothing()
    ensures Flat([]) == ""
  {
  }

  lemma FlatSnoc(a: seq<string>, b: string)
    ensures Flat(a + [b]) == Flat(a) + b
  {
    assert (a + [b])[..|a|] == a;
  }

  lemma FlatOne(b: string)
    ensures Flat([b]) == b
  {
    assert [b][..0] == [];
  }

  lemma {:induction false} FlatConcat(a: seq<string>, b: seq<string>)
    ensures Flat(a + b) == Flat(a) + Flat(b)
    decreases |b|
  {
    if b == [] {
      assert a + b == a && Flat(a) + "" == Flat(a);
    } else {
      assert (a + b)[..|a + b| - 1] == a + b[..|b| - 1];
      FlatConcat(a, b[..|b| - 1]);
    }
  }

  /** The piece in which byte i lies. */
  lemma {:induction false} PieceAt(pieces: seq<string>, i: nat) returns (j: nat, k: nat)
    requires i < |Flat(pieces)|
    ensures j < |pieces| && k < |pieces[j]| && i == |Flat(pieces[..j])| + k
  {
    var front := pieces[..|pieces| - 1];
    if i < |Flat(front)| {
      j, k := PieceAt(front, i);
      assert front[..j] == pieces[..j];
    } else {
      j, k := |front|, i - |Flat(front)|;
    }
  }
}
