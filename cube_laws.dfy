/** What the move engine of src/lib/rubik/cubeLogic.ts guarantees: a
    counter-clockwise edge step undoes a clockwise one, half turns are two
    quarter turns and their own inverse, quarter turns have order four, and no
    move ever changes a face's centre sticker. */
module CubeLaws {
  import opened CubeTypes
  import opened CubeLogic

  // ---------------------------------------------------------------------------
  // The face's own stickers

  lemma RotateFaceRoundTrip(s: Stickers)
    ensures RotateFaceCCW(RotateFaceCW(s)) == s
    ensures RotateFaceCW(RotateFaceCCW(s)) == s
  {
  }

  lemma RotateFaceHalf(s: Stickers)
    ensures RotateFaceCW(RotateFaceCW(s)) == RotateFace180(s)
    ensures RotateFace180(RotateFace180(s)) == s
  {
  }

  // ---------------------------------------------------------------------------
  // Strips

  /** Overwriting a strip and then writing its old values back restores the face. */
  lemma UpdRestore(x: Stickers, s: Strip, v: (Color, Color, Color))
    requires StripOk(s)
    ensures Upd(Upd(x, s, v), s, (x[s.i0], x[s.i1], x[s.i2])) == x
  {
  }

  lemma UpdTwice(x: Stickers, s: Strip, v: (Color, Color, Color), w: (Color, Color, Color))
    requires StripOk(s)
    ensures Upd(Upd(x, s, v), s, w) == Upd(x, s, w)
  {
  }

  /** Reading back a strip just written gives the values written. */
  lemma ReadUpd(c: Cube, s: Strip, x: Stickers, v: (Color, Color, Color))
    requires StripOk(s) && Get(c, s.face) == Upd(x, s, v)
    ensures Read(c, s) == v
  {
  }

  /** Every face's ring is well formed: four strips on four distinct
      neighbours, three distinct non-centre stickers each. */
  lemma RingOfOk(face: Face)
    ensures RingOk(face, RingOf(face))
  {
  }

  // ---------------------------------------------------------------------------
  // The edge step

  /** A counter-clockwise step undoes a clockwise one, for any well-formed ring. */
  lemma CcwStepUndoesCw(c: Cube, d: Cube, e: Cube, face: Face, r: Ring)
    requires RingOk(face, r) && CwStep(c, d, r) && CcwStep(d, e, r)
    ensures e == c
  {
    ReadUpd(d, r.s0, Get(c, r.s0.face), Read(c, r.s1));
    ReadUpd(d, r.s1, Get(c, r.s1.face), Read(c, r.s2));
    ReadUpd(d, r.s2, Get(c, r.s2.face), Read(c, r.s3));
    ReadUpd(d, r.s3, Get(c, r.s3.face), Read(c, r.s0));
    UpdRestore(Get(c, r.s0.face), r.s0, Read(c, r.s1));
    UpdRestore(Get(c, r.s1.face), r.s1, Read(c, r.s2));
    UpdRestore(Get(c, r.s2.face), r.s2, Read(c, r.s3));
    UpdRestore(Get(c, r.s3.face), r.s3, Read(c, r.s0));
    CubeExt(e, c);
  }

  /** A clockwise step undoes a counter-clockwise one, for any well-formed ring. */
  lemma CwStepUndoesCcw(c: Cube, d: Cube, e: Cube, face: Face, r: Ring)
    requires RingOk(face, r) && CcwStep(c, d, r) && CwStep(d, e, r)
    ensures e == c
  {
    ReadUpd(d, r.s0, Get(c, r.s0.face), Read(c, r.s3));
    ReadUpd(d, r.s1, Get(c, r.s1.face), Read(c, r.s0));
    ReadUpd(d, r.s2, Get(c, r.s2.face), Read(c, r.s1));
    ReadUpd(d, r.s3, Get(c, r.s3.face), Read(c, r.s2));
    UpdRestore(Get(c, r.s0.face), r.s0, Read(c, r.s3));
    UpdRestore(Get(c, r.s1.face), r.s1, Read(c, r.s0));
    UpdRestore(Get(c, r.s2.face), r.s2, Read(c, r.s1));
    UpdRestore(Get(c, r.s3.face), r.s3, Read(c, r.s2));
    CubeExt(e, c);
  }

  /** `e` is `c` with opposite strips of the ring swapped. */
  ghost predicate HalfStep(c: Cube, e: Cube, r: Ring)
  {
    Get(e, r.s0.face) == Upd(Get(c, r.s0.face), r.s0, Read(c, r.s2)) &&
    Get(e, r.s1.face) == Upd(Get(c, r.s1.face), r.s1, Read(c, r.s3)) &&
    Get(e, r.s2.face) == Upd(Get(c, r.s2.face), r.s2, Read(c, r.s0)) &&
    Get(e, r.s3.face) == Upd(Get(c, r.s3.face), r.s3, Read(c, r.s1)) &&
    forall g :: g != r.s0.face && g != r.s1.face && g != r.s2.face && g != r.s3.face ==> Get(e, g) == Get(c, g)
  }

  /** Two clockwise steps swap opposite strips. */
  lemma CwStepTwice(c: Cube, d: Cube, e: Cube, face: Face, r: Ring)
    requires RingOk(face, r) && CwStep(c, d, r) && CwStep(d, e, r)
    ensures HalfStep(c, e, r)
  {
    ReadUpd(d, r.s0, Get(c, r.s0.face), Read(c, r.s1));
    ReadUpd(d, r.s1, Get(c, r.s1.face), Read(c, r.s2));
    ReadUpd(d, r.s2, Get(c, r.s2.face), Read(c, r.s3));
    ReadUpd(d, r.s3, Get(c, r.s3.face), Read(c, r.s0));
    UpdTwice(Get(c, r.s0.face), r.s0, Read(c, r.s1), Read(c, r.s2));
    UpdTwice(Get(c, r.s1.face), r.s1, Read(c, r.s2), Read(c, r.s3));
    UpdTwice(Get(c, r.s2.face), r.s2, Read(c, r.s3), Read(c, r.s0));
    UpdTwice(Get(c, r.s3.face), r.s3, Read(c, r.s0), Read(c, r.s1));
  }

  /** Swapping opposite strips twice restores the cube. */
  lemma HalfStepTwice(c: Cube, d: Cube, e: Cube, face: Face, r: Ring)
    requires RingOk(face, r) && HalfStep(c, d, r) && HalfStep(d, e, r)
    ensures e == c
  {
    ReadUpd(d, r.s0, Get(c, r.s0.face), Read(c, r.s2));
    ReadUpd(d, r.s1, Get(c, r.s1.face), Read(c, r.s3));
    ReadUpd(d, r.s2, Get(c, r.s2.face), Read(c, r.s0));
    ReadUpd(d, r.s3, Get(c, r.s3.face), Read(c, r.s1));
    UpdRestore(Get(c, r.s0.face), r.s0, Read(c, r.s2));
    UpdRestore(Get(c, r.s1.face), r.s1, Read(c, r.s3));
    UpdRestore(Get(c, r.s2.face), r.s2, Read(c, r.s0));
    UpdRestore(Get(c, r.s3.face), r.s3, Read(c, r.s1));
    CubeExt(e, c);
  }

  /** `d` is `c` after one step of ring `r` in direction `dir`. */
  ghost predicate StepBy(c: Cube, d: Cube, r: Ring, dir: Direction)
  {
    if dir == Cw then CwStep(c, d, r) else CcwStep(c, d, r)
  }

  /** rotateEdges(face, dir) is one step of the face's ring. */
  lemma EdgesStepIsStep(c: Cube, face: Face, dir: Direction)
    ensures RingOk(face, RingOf(face))
    ensures StepBy(c, EdgesStep(c, face, dir), RingOf(face), dir)
  {
    RingOfOk(face);
    if dir == Cw {
      CycleCwFaces(c, face, RingOf(face));
    } else {
      CycleCcwFaces(c, face, RingOf(face));
    }
  }

  /** rotateEdges(face, 'ccw') exactly undoes rotateEdges(face, 'cw'), and the
      other way round, for each of the six faces. */
  lemma EdgesStepRoundTrip(c: Cube, face: Face)
    ensures EdgesStep(EdgesStep(c, face, Cw), face, Ccw) == c
    ensures EdgesStep(EdgesStep(c, face, Ccw), face, Cw) == c
  {
    var r := RingOf(face);
    EdgesStepIsStep(c, face, Cw);
    EdgesStepIsStep(EdgesStep(c, face, Cw), face, Ccw);
    CcwStepUndoesCw(c, EdgesStep(c, face, Cw), EdgesStep(EdgesStep(c, face, Cw), face, Ccw), face, r);
    EdgesStepIsStep(c, face, Ccw);
    EdgesStepIsStep(EdgesStep(c, face, Ccw), face, Cw);
    CwStepUndoesCcw(c, EdgesStep(c, face, Ccw), EdgesStep(EdgesStep(c, face, Ccw), face, Cw), face, r);
  }

  /** Four clockwise calls of rotateEdges(face, 'cw') give the cube back. */
  lemma EdgesStepFour(c: Cube, face: Face)
    ensures EdgesStep(EdgesStep(EdgesStep(EdgesStep(c, face, Cw), face, Cw), face, Cw), face, Cw) == c
  {
    var r := RingOf(face);
    var c1 := EdgesStep(c, face, Cw);
    var c2 := EdgesStep(c1, face, Cw);
    var c3 := EdgesStep(c2, face, Cw);
    var c4 := EdgesStep(c3, face, Cw);
    EdgesStepIsStep(c, face, Cw);
    EdgesStepIsStep(c1, face, Cw);
    EdgesStepIsStep(c2, face, Cw);
    EdgesStepIsStep(c3, face, Cw);
    CwStepTwice(c, c1, c2, face, r);
    CwStepTwice(c2, c3, c4, face, r);
    HalfStepTwice(c, c2, c4, face, r);
  }

  /** A clockwise ring step never touches a face outside the ring, so it
      commutes with replacing such a face's stickers. */
  lemma CwStepFrame(c: Cube, d: Cube, w: Cube, a: Cube, face: Face, r: Ring, s: Stickers)
    requires RingOk(face, r) && CwStep(c, d, r) && CwStep(w, a, r) && w == With(c, face, s)
    ensures a == With(d, face, s)
  {
    var b := With(d, face, s);
    forall g ensures Get(a, g) == Get(b, g) {
      if g == face {
      } else if g == r.s0.face {
        assert Read(w, r.s1) == Read(c, r.s1);
      } else if g == r.s1.face {
        assert Read(w, r.s2) == Read(c, r.s2);
      } else if g == r.s2.face {
        assert Read(w, r.s3) == Read(c, r.s3);
      } else if g == r.s3.face {
        assert Read(w, r.s0) == Read(c, r.s0);
      }
    }
    CubeExt(a, b);
  }

  /** The same for a counter-clockwise ring step. */
  lemma CcwStepFrame(c: Cube, d: Cube, w: Cube, a: Cube, face: Face, r: Ring, s: Stickers)
    requires RingOk(face, r) && CcwStep(c, d, r) && CcwStep(w, a, r) && w == With(c, face, s)
    ensures a == With(d, face, s)
  {
    var b := With(d, face, s);
    forall g ensures Get(a, g) == Get(b, g) {
      if g == face {
      } else if g == r.s0.face {
        assert Read(w, r.s3) == Read(c, r.s3);
      } else if g == r.s1.face {
        assert Read(w, r.s0) == Read(c, r.s0);
      } else if g == r.s2.face {
        assert Read(w, r.s1) == Read(c, r.s1);
      } else if g == r.s3.face {
        assert Read(w, r.s2) == Read(c, r.s2);
      }
    }
    CubeExt(a, b);
  }

  /** The edge step never touches the turned face itself, so it commutes with
      replacing that face's stickers. */
  lemma EdgesStepFrame(c: Cube, face: Face, dir: Direction, s: Stickers)
    ensures Get(EdgesStep(c, face, dir), face) == Get(c, face)
    ensures EdgesStep(With(c, face, s), face, dir) == With(EdgesStep(c, face, dir), face, s)
  {
    var w := With(c, face, s);
    EdgesStepIsStep(c, face, dir);
    EdgesStepIsStep(w, face, dir);
    if dir == Cw {
      CwStepFrame(c, EdgesStep(c, face, dir), w, EdgesStep(w, face, dir), face, RingOf(face), s);
    } else {
      CcwStepFrame(c, EdgesStep(c, face, dir), w, EdgesStep(w, face, dir), face, RingOf(face), s);
    }
  }

  /** A ring step keeps every centre sticker. */
  lemma StepCentres(c: Cube, d: Cube, face: Face, r: Ring, dir: Direction, g: Face)
    requires RingOk(face, r) && StepBy(c, d, r, dir)
    ensures Get(d, g)[4] == Get(c, g)[4]
  {
    var cw := dir == Cw;
    if g == r.s0.face {
      UpdCentre(Get(c, g), r.s0, if cw then Read(c, r.s1) else Read(c, r.s3));
    } else if g == r.s1.face {
      UpdCentre(Get(c, g), r.s1, if cw then Read(c, r.s2) else Read(c, r.s0));
    } else if g == r.s2.face {
      UpdCentre(Get(c, g), r.s2, if cw then Read(c, r.s3) else Read(c, r.s1));
    } else if g == r.s3.face {
      UpdCentre(Get(c, g), r.s3, if cw then Read(c, r.s0) else Read(c, r.s2));
    }
  }

  /** Writing a strip never touches the centre sticker. */
  lemma UpdCentre(st: Stickers, s: Strip, v: (Color, Color, Color))
    requires StripOk(s)
    ensures Upd(st, s, v)[4] == st[4]
  {
  }

  lemma EdgesStepCentres(c: Cube, face: Face, dir: Direction, g: Face)
    ensures Get(EdgesStep(c, face, dir), g)[4] == Get(c, g)[4]
  {
    EdgesStepIsStep(c, face, dir);
    StepCentres(c, EdgesStep(c, face, dir), face, RingOf(face), dir, g);
  }

  // ---------------------------------------------------------------------------
  // Whole moves

  /** Two clockwise edge steps of a face, as a half turn runs them. */
  function EdgesTwice(c: Cube, face: Face): Cube
  {
    EdgesStep(EdgesStep(c, face, Cw), face, Cw)
  }

  /** Replacing a face twice keeps only the second replacement. */
  lemma WithWith(c: Cube, face: Face, s: Stickers, t: Stickers)
    ensures With(With(c, face, s), face, t) == With(c, face, t)
  {
    CubeExt(With(With(c, face, s), face, t), With(c, face, t));
  }

  lemma WithGet(c: Cube, face: Face)
    ensures With(c, face, Get(c, face)) == c
  {
    CubeExt(With(c, face, Get(c, face)), c);
  }

  /** A quarter turn is the edge step on the old cube with the turned face's
      stickers then replaced by their rotation. */
  lemma ApplyQuarterForm(c: Cube, m: Move)
    requires m.turn != Double
    ensures Apply(c, m) == With(EdgesStep(c, m.face, EdgeDirection(m.turn)), m.face, FaceTurned(Get(c, m.face), m.turn))
  {
    var w := With(c, m.face, FaceTurned(Get(c, m.face), m.turn));
    assert EdgesTimes(w, m.face, EdgeDirection(m.turn), 1) == EdgesStep(w, m.face, EdgeDirection(m.turn));
    EdgesStepFrame(c, m.face, EdgeDirection(m.turn), FaceTurned(Get(c, m.face), m.turn));
  }

  /** A half turn is two clockwise edge steps on the old cube with the turned
      face's stickers then replaced by their half rotation. */
  lemma ApplyDoubleForm(c: Cube, face: Face)
    ensures Apply(c, Move(face, Double)) == With(EdgesTwice(c, face), face, RotateFace180(Get(c, face)))
    ensures Get(EdgesTwice(c, face), face) == Get(c, face)
  {
    var s := RotateFace180(Get(c, face));
    var w := With(c, face, s);
    assert EdgesTimes(w, face, Cw, 1) == EdgesStep(w, face, Cw);
    EdgesStepFrame(c, face, Cw, s);
    EdgesStepFrame(EdgesStep(c, face, Cw), face, Cw, s);
  }

  /** A clockwise quarter turn followed by the primed turn of the same face
      gives back the state, and so does the primed turn followed by the
      clockwise one. */
  lemma ApplyQuarterRoundTrip(c: Cube, face: Face)
    ensures Apply(Apply(c, Move(face, Clockwise)), Move(face, Prime)) == c
    ensures Apply(Apply(c, Move(face, Prime)), Move(face, Clockwise)) == c
  {
    var x := Get(c, face);
    RotateFaceRoundTrip(x);
    EdgesStepRoundTrip(c, face);
    var a := Apply(c, Move(face, Clockwise));
    ApplyQuarterForm(c, Move(face, Clockwise));
    ApplyQuarterForm(a, Move(face, Prime));
    var e := EdgesStep(c, face, Cw);
    EdgesStepFrame(e, face, Ccw, RotateFaceCW(x));
    EdgesStepFrame(c, face, Cw, x);
    WithWith(EdgesStep(e, face, Ccw), face, RotateFaceCW(x), x);
    WithGet(c, face);
    var b := Apply(c, Move(face, Prime));
    ApplyQuarterForm(c, Move(face, Prime));
    ApplyQuarterForm(b, Move(face, Clockwise));
    var e' := EdgesStep(c, face, Ccw);
    EdgesStepFrame(e', face, Cw, RotateFaceCCW(x));
    EdgesStepFrame(c, face, Ccw, x);
    WithWith(EdgesStep(e', face, Cw), face, RotateFaceCCW(x), x);
  }

  /** applyMove(s, X2) equals applyMove with X applied twice: the face turns by
      two quarter turns and the edge step runs twice. */
  lemma ApplyDoubleIsTwoQuarters(c: Cube, face: Face)
    ensures Apply(c, Move(face, Double)) == Apply(Apply(c, Move(face, Clockwise)), Move(face, Clockwise))
  {
    var x := Get(c, face);
    RotateFaceHalf(x);
    var e := EdgesStep(c, face, Cw);
    var a := Apply(c, Move(face, Clockwise));
    ApplyQuarterForm(c, Move(face, Clockwise));
    ApplyQuarterForm(a, Move(face, Clockwise));
    ApplyDoubleForm(c, face);
    EdgesStepFrame(c, face, Cw, x);
    EdgesStepFrame(e, face, Cw, RotateFaceCW(x));
    WithWith(EdgesStep(e, face, Cw), face, RotateFaceCW(x), RotateFace180(x));
  }

  /** Two clockwise edge steps commute with replacing the turned face. */
  lemma EdgesTwiceFrame(c: Cube, face: Face, s: Stickers)
    ensures EdgesTwice(With(c, face, s), face) == With(EdgesTwice(c, face), face, s)
  {
    EdgesStepFrame(c, face, Cw, s);
    EdgesStepFrame(EdgesStep(c, face, Cw), face, Cw, s);
  }

  /** A half turn is its own inverse. */
  lemma ApplyDoubleTwice(c: Cube, face: Face)
    ensures Apply(Apply(c, Move(face, Double)), Move(face, Double)) == c
  {
    var x := Get(c, face);
    RotateFaceHalf(x);
    var a := Apply(c, Move(face, Double));
    ApplyDoubleForm(c, face);
    ApplyDoubleForm(a, face);
    assert Get(a, face) == RotateFace180(x);
    EdgesTwiceFrame(EdgesTwice(c, face), face, RotateFace180(x));
    EdgesStepFour(c, face);
    assert EdgesTwice(EdgesTwice(c, face), face) == c;
    WithWith(c, face, RotateFace180(x), x);
    WithGet(c, face);
  }

  /** A clockwise quarter turn has order four. */
  lemma ApplyQuarterFour(c: Cube, face: Face)
    ensures Apply(Apply(Apply(Apply(c, Move(face, Clockwise)), Move(face, Clockwise)), Move(face, Clockwise)), Move(face, Clockwise)) == c
  {
    ApplyDoubleIsTwoQuarters(c, face);
    ApplyDoubleIsTwoQuarters(Apply(c, Move(face, Double)), face);
    ApplyDoubleTwice(c, face);
  }

  /** No move changes any face's centre sticker. */
  lemma ApplyKeepsCentres(c: Cube, m: Move, g: Face)
    ensures Get(Apply(c, m), g)[4] == Get(c, g)[4]
  {
    if m.turn == Double {
      ApplyDoubleForm(c, m.face);
      EdgesStepCentres(c, m.face, Cw, g);
      EdgesStepCentres(EdgesStep(c, m.face, Cw), m.face, Cw, g);
    } else {
      ApplyQuarterForm(c, m);
      EdgesStepCentres(c, m.face, EdgeDirection(m.turn), g);
    }
  }

  // ---------------------------------------------------------------------------
  // Sequences of moves

  lemma {:induction false} ApplyAllAppend(c: Cube, a: seq<Move>, b: seq<Move>)
    ensures ApplyAll(c, a + b) == ApplyAll(ApplyAll(c, a), b)
    decreases |b|
  {
    if |b| == 0 {
      assert a + b == a;
    } else {
      var b' := b[..|b| - 1];
      assert (a + b)[..|a + b| - 1] == a + b';
      ApplyAllAppend(c, a, b');
    }
  }

  lemma {:induction false} ApplyAllKeepsCentres(c: Cube, ms: seq<Move>, g: Face)
    ensures Get(ApplyAll(c, ms), g)[4] == Get(c, g)[4]
    decreases |ms|
  {
    if |ms| > 0 {
      ApplyAllKeepsCentres(c, ms[..|ms| - 1], g);
      ApplyKeepsCentres(ApplyAll(c, ms[..|ms| - 1]), ms[|ms| - 1], g);
    }
  }

  // ---------------------------------------------------------------------------
  // isSolved

  lemma SolvedCubeIsSolved()
    ensures forall face :: Uniform(Get(SolvedCube, face))
  {
  }

  /** A single R turn of a cube whose up and front faces are each one colour,
      two different colours (the solved cube among them), leaves the up face
      unsolved: its right column now shows the front face's colour. */
  lemma OneTurnUnsolves(c: Cube)
    requires Uniform(c.U) && Uniform(c.F) && c.U[4] != c.F[4]
    ensures !Uniform(Get(Apply(c, Move(Face.R, Clockwise)), Face.U))
  {
    var e := EdgesStep(c, Face.R, Cw);
    ApplyQuarterForm(c, Move(Face.R, Clockwise));
    assert Get(Apply(c, Move(Face.R, Clockwise)), Face.U) == e.U;
    EdgesStepTableR(c);
    assert e.U[2] == c.F[2] == c.F[4];
    assert e.U[4] == c.U[4];
  }

  /** The solved cube meets the condition of OneTurnUnsolves. */
  lemma SolvedCubeUnsolvedByOneTurn()
    ensures !Uniform(Get(Apply(SolvedCube, Move(Face.R, Clockwise)), Face.U))
  {
    OneTurnUnsolves(SolvedCube);
  }
}
