/** The sexy move R U R' U' has order six on every cube state, the claim the
    cube-logic tests make for the solved cube (src/lib/rubik/__tests__/cubeLogic.test.ts:39-46). */
module SexyMoveOrder {
  import opened CubeTypes
  import opened CubeLogic
  import opened CubePositions
  import opened Algorithms

  const SexyMove: seq<Move> := [Move(Face.R, Clockwise), Move(Face.U, Clockwise), Move(Face.R, Prime), Move(Face.U, Prime)]

  /** Where the sticker that one sexy move brings to `p` was. */
  function SexySrc(p: Pos): Pos
  {
    Src(Move(Face.R, Clockwise), Src(Move(Face.U, Clockwise), Src(Move(Face.R, Prime), Src(Move(Face.U, Prime), p))))
  }

  /** The same map written out as a table: the move fixes 36 positions and
      permutes the other 18 in cycles of length three and six. */
  function SexyTab(p: Pos): Pos
  {
    match p.face
    case U => [Pos(Face.U, 2), Pos(Face.U, 5), Pos(Face.L, 0), Pos(Face.U, 3), Pos(Face.U, 4), Pos(Face.F, 5), Pos(Face.U, 6), Pos(Face.U, 7), Pos(Face.F, 8)][p.i]
    case D => [Pos(Face.D, 0), Pos(Face.D, 1), Pos(Face.R, 0), Pos(Face.D, 3), Pos(Face.D, 4), Pos(Face.D, 5), Pos(Face.D, 6), Pos(Face.D, 7), Pos(Face.D, 8)][p.i]
    case F => [Pos(Face.F, 0), Pos(Face.F, 1), Pos(Face.D, 2), Pos(Face.F, 3), Pos(Face.F, 4), Pos(Face.U, 1), Pos(Face.F, 6), Pos(Face.F, 7), Pos(Face.F, 2)][p.i]
    case B => [Pos(Face.B, 2), Pos(Face.R, 1), Pos(Face.R, 2), Pos(Face.B, 3), Pos(Face.B, 4), Pos(Face.B, 5), Pos(Face.B, 6), Pos(Face.B, 7), Pos(Face.B, 8)][p.i]
    case L => [Pos(Face.B, 0), Pos(Face.L, 1), Pos(Face.L, 2), Pos(Face.L, 3), Pos(Face.L, 4), Pos(Face.L, 5), Pos(Face.L, 6), Pos(Face.L, 7), Pos(Face.L, 8)][p.i]
    case R => [Pos(Face.R, 6), Pos(Face.R, 3), Pos(Face.U, 0), Pos(Face.B, 1), Pos(Face.R, 4), Pos(Face.R, 5), Pos(Face.U, 8), Pos(Face.R, 7), Pos(Face.R, 8)][p.i]
  }

  lemma SexyTabFaceU(i: Idx)
    ensures SexySrc(Pos(Face.U, i)) == SexyTab(Pos(Face.U, i))
  {
  }

  lemma SexyOrderFaceU(i: Idx)
    ensures SexyTab(SexyTab(SexyTab(SexyTab(SexyTab(SexyTab(Pos(Face.U, i))))))) == Pos(Face.U, i)
  {
  }
  lemma SexyTabFaceD(i: Idx)
    ensures SexySrc(Pos(Face.D, i)) == SexyTab(Pos(Face.D, i))
  {
  }

  lemma SexyOrderFaceD(i: Idx)
    ensures SexyTab(SexyTab(SexyTab(SexyTab(SexyTab(SexyTab(Pos(Face.D, i))))))) == Pos(Face.D, i)
  {
  }
  lemma SexyTabFaceF(i: Idx)
    ensures SexySrc(Pos(Face.F, i)) == SexyTab(Pos(Face.F, i))
  {
  }

  lemma SexyOrderFaceF(i: Idx)
    ensures SexyTab(SexyTab(SexyTab(SexyTab(SexyTab(SexyTab(Pos(Face.F, i))))))) == Pos(Face.F, i)
  {
  }
  lemma SexyTabFaceB(i: Idx)
    ensures SexySrc(Pos(Face.B, i)) == SexyTab(Pos(Face.B, i))
  {
  }

  lemma SexyOrderFaceB(i: Idx)
    ensures SexyTab(SexyTab(SexyTab(SexyTab(SexyTab(SexyTab(Pos(Face.B, i))))))) == Pos(Face.B, i)
  {
  }
  lemma SexyTabFaceL(i: Idx)
    ensures SexySrc(Pos(Face.L, i)) == SexyTab(Pos(Face.L, i))
  {
  }

  lemma SexyOrderFaceL(i: Idx)
    ensures SexyTab(SexyTab(SexyTab(SexyTab(SexyTab(SexyTab(Pos(Face.L, i))))))) == Pos(Face.L, i)
  {
  }
  lemma SexyTabFaceR(i: Idx)
    ensures SexySrc(Pos(Face.R, i)) == SexyTab(Pos(Face.R, i))
  {
  }

  lemma SexyOrderFaceR(i: Idx)
    ensures SexyTab(SexyTab(SexyTab(SexyTab(SexyTab(SexyTab(Pos(Face.R, i))))))) == Pos(Face.R, i)
  {
  }

  lemma SexySrcTab(p: Pos)
    ensures SexySrc(p) == SexyTab(p)
    ensures SexyTab(SexyTab(SexyTab(SexyTab(SexyTab(SexyTab(p)))))) == p
  {
    match p.face
    case U => SexyTabFaceU(p.i); SexyOrderFaceU(p.i);
    case D => SexyTabFaceD(p.i); SexyOrderFaceD(p.i);
    case F => SexyTabFaceF(p.i); SexyOrderFaceF(p.i);
    case B => SexyTabFaceB(p.i); SexyOrderFaceB(p.i);
    case L => SexyTabFaceL(p.i); SexyOrderFaceL(p.i);
    case R => SexyTabFaceR(p.i); SexyOrderFaceR(p.i);
  }

  lemma SrcAllFour(a: Move, b: Move, d: Move, e: Move, p: Pos)
    ensures SrcAll([a, b, d, e], p) == Src(a, Src(b, Src(d, Src(e, p))))
  {
    var p1, p2, p3 := Src(e, p), Src(d, Src(e, p)), Src(b, Src(d, Src(e, p)));
    assert [a, b, d, e][..3] == [a, b, d];
    assert [a, b, d][..2] == [a, b];
    assert [a, b][..1] == [a];
    assert SrcAll([a], p3) == Src(a, p3);
    assert SrcAll([a, b], p2) == Src(a, p3);
    assert SrcAll([a, b, d], p1) == Src(a, p3);
  }

  /** One sexy move as a permutation of positions. */
  lemma SexyAt(c: Cube, p: Pos)
    ensures At(ApplyAll(c, SexyMove), p) == At(c, SexyTab(p))
  {
    ApplyAllAt(c, SexyMove, p);
    SrcAllFour(Move(Face.R, Clockwise), Move(Face.U, Clockwise), Move(Face.R, Prime), Move(Face.U, Prime), p);
    SexySrcTab(p);
  }

  /** Applying R U R' U' six times returns every cube state, in particular the
      solved one, to itself. */
  lemma SexyMoveSixTimes(c: Cube)
    ensures ApplyAll(ApplyAll(ApplyAll(ApplyAll(ApplyAll(ApplyAll(c, SexyMove), SexyMove), SexyMove), SexyMove), SexyMove), SexyMove) == c
  {
    var c1 := ApplyAll(c, SexyMove);
    var c2 := ApplyAll(c1, SexyMove);
    var c3 := ApplyAll(c2, SexyMove);
    var c4 := ApplyAll(c3, SexyMove);
    var c5 := ApplyAll(c4, SexyMove);
    var c6 := ApplyAll(c5, SexyMove);
    forall p: Pos ensures At(c6, p) == At(c, p) {
      var p1 := SexyTab(p);
      var p2 := SexyTab(p1);
      var p3 := SexyTab(p2);
      var p4 := SexyTab(p3);
      var p5 := SexyTab(p4);
      SexyAt(c5, p);
      SexyAt(c4, p1);
      SexyAt(c3, p2);
      SexyAt(c2, p3);
      SexyAt(c1, p4);
      SexyAt(c, p5);
      SexySrcTab(p);
    }
    CubeExtAt(c6, c);
  }

  /** The catalogue's "sexy-move" entry, parsed from its symbols, is R U R' U'. */
  lemma SexyMoveIsCatalogued()
    ensures AllAlgorithms[0].moves == SexyMove
  {
    var r := Symbols(SexyMove);
    assert r[0] == "R" && r[1] == "U" && r[2] == "R'" && r[3] == "U'";
    assert r == ["R", "U", "R'", "U'"];
    SymbolsInjective(SexyMoveMoves, SexyMove);
  }
}
