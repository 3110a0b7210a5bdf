/** Moves as permutations of the 54 sticker positions: every move of
    src/lib/rubik/cubeLogic.ts only moves stickers around, never creates or
    loses one.  `Src(m, p)` is the position whose sticker a move `m` brings to
    `p`, and `Dst(m, ·)` is its inverse. */
module CubePositions {
  import opened CubeTypes
  import opened CubeLogic
  import opened CubeLaws

  /** One of the 54 sticker positions. */
  datatype Pos = Pos(face: Face, i: Idx)

  function At(c: Cube, p: Pos): Color
  {
    Get(c, p.face)[p.i]
  }

  /** Two cubes are equal when they agree at every position. */
  lemma CubeExtAt(a: Cube, b: Cube)
    requires forall p: Pos :: At(a, p) == At(b, p)
    ensures a == b
  {
    forall g ensures Get(a, g) == Get(b, g) {
      forall i | 0 <= i < 9 ensures Get(a, g)[i] == Get(b, g)[i] {
        assert At(a, Pos(g, i)) == At(b, Pos(g, i));
      }
    }
    CubeExt(a, b);
  }

  // ---------------------------------------------------------------------------
  // The ring step on positions

  predicate OnStrip(s: Strip, p: Pos)
  {
    p.face == s.face && (p.i == s.i0 || p.i == s.i1 || p.i == s.i2)
  }

  /** The position on strip `t` in the same slot as `p` on strip `s`. */
  function Slot(s: Strip, t: Strip, p: Pos): Pos
    requires OnStrip(s, p)
  {
    Pos(t.face, if p.i == s.i0 then t.i0 else if p.i == s.i1 then t.i1 else t.i2)
  }

  /** Where the sticker that one ring step in direction `dir` brings to `p` was. */
  function RingSrc(r: Ring, dir: Direction, p: Pos): Pos
  {
    if OnStrip(r.s0, p) then Slot(r.s0, if dir == Cw then r.s1 else r.s3, p)
    else if OnStrip(r.s1, p) then Slot(r.s1, if dir == Cw then r.s2 else r.s0, p)
    else if OnStrip(r.s2, p) then Slot(r.s2, if dir == Cw then r.s3 else r.s1, p)
    else if OnStrip(r.s3, p) then Slot(r.s3, if dir == Cw then r.s0 else r.s2, p)
    else p
  }

  function Opposite(dir: Direction): Direction
  {
    if dir == Cw then Ccw else Cw
  }

  /** A strip overwritten with the stickers of strip `t` holds, at each
      slot, the sticker from the same slot of `t`. */
  lemma StripAt(c: Cube, d: Cube, s: Strip, t: Strip, p: Pos)
    requires StripOk(s) && OnStrip(s, p) && Get(d, s.face) == Upd(Get(c, s.face), s, Read(c, t))
    ensures At(d, p) == At(c, Slot(s, t, p))
  {
  }

  /** The rest of a strip's face keeps its stickers. */
  lemma OffStripAt(c: Cube, d: Cube, s: Strip, t: Strip, p: Pos)
    requires p.face == s.face && !OnStrip(s, p) && Get(d, s.face) == Upd(Get(c, s.face), s, Read(c, t))
    ensures At(d, p) == At(c, p)
  {
  }

  lemma StepAt(c: Cube, d: Cube, face: Face, r: Ring, dir: Direction, p: Pos)
    requires RingOk(face, r) && StepBy(c, d, r, dir)
    ensures At(d, p) == At(c, RingSrc(r, dir, p))
  {
    if OnStrip(r.s0, p) {
      StripAt(c, d, r.s0, if dir == Cw then r.s1 else r.s3, p);
    } else if OnStrip(r.s1, p) {
      StripAt(c, d, r.s1, if dir == Cw then r.s2 else r.s0, p);
    } else if OnStrip(r.s2, p) {
      StripAt(c, d, r.s2, if dir == Cw then r.s3 else r.s1, p);
    } else if OnStrip(r.s3, p) {
      StripAt(c, d, r.s3, if dir == Cw then r.s0 else r.s2, p);
    } else if p.face == r.s0.face {
      OffStripAt(c, d, r.s0, if dir == Cw then r.s1 else r.s3, p);
    } else if p.face == r.s1.face {
      OffStripAt(c, d, r.s1, if dir == Cw then r.s2 else r.s0, p);
    } else if p.face == r.s2.face {
      OffStripAt(c, d, r.s2, if dir == Cw then r.s3 else r.s1, p);
    } else if p.face == r.s3.face {
      OffStripAt(c, d, r.s3, if dir == Cw then r.s0 else r.s2, p);
    }
  }

  /** Stepping back undoes stepping forward, position by position, and a ring
      step never moves a sticker onto or off the turned face. */
  lemma RingSrcInverse(face: Face, r: Ring, dir: Direction, p: Pos)
    requires RingOk(face, r)
    ensures RingSrc(r, Opposite(dir), RingSrc(r, dir, p)) == p
    ensures (RingSrc(r, dir, p).face == face) == (p.face == face)
  {
  }

  lemma EdgesStepAt(c: Cube, face: Face, dir: Direction, p: Pos)
    ensures At(EdgesStep(c, face, dir), p) == At(c, RingSrc(RingOf(face), dir, p))
  {
    EdgesStepIsStep(c, face, dir);
    StepAt(c, EdgesStep(c, face, dir), face, RingOf(face), dir, p);
  }

  // ---------------------------------------------------------------------------
  // The face's own rotation on positions

  /** The index whose sticker rotateFaceCW / CCW / 180 brings to index `i`. */
  function FaceSrc(t: Turn, i: Idx): Idx
  {
    match t
    case Clockwise => [6, 3, 0, 7, 4, 1, 8, 5, 2][i]
    case Prime => [2, 5, 8, 1, 4, 7, 0, 3, 6][i]
    case Double => [8, 7, 6, 5, 4, 3, 2, 1, 0][i]
  }

  /** The index to which rotateFaceCW / CCW / 180 moves the sticker at `i`. */
  function FaceDst(t: Turn, i: Idx): Idx
  {
    match t
    case Clockwise => [2, 5, 8, 1, 4, 7, 0, 3, 6][i]
    case Prime => [6, 3, 0, 7, 4, 1, 8, 5, 2][i]
    case Double => [8, 7, 6, 5, 4, 3, 2, 1, 0][i]
  }

  lemma FaceTurnedAt(s: Stickers, t: Turn, i: Idx)
    ensures FaceTurned(s, t)[i] == s[FaceSrc(t, i)]
  {
  }

  lemma FaceSrcDst(t: Turn, i: Idx)
    ensures FaceSrc(t, FaceDst(t, i)) == i && FaceDst(t, FaceSrc(t, i)) == i
  {
  }

  // ---------------------------------------------------------------------------
  // A whole move on positions

  /** Where the sticker that move `m` brings to `p` was. */
  function Src(m: Move, p: Pos): Pos
  {
    var r := RingOf(m.face);
    if p.face == m.face then Pos(m.face, FaceSrc(m.turn, p.i))
    else if m.turn == Double then RingSrc(r, Cw, RingSrc(r, Cw, p))
    else RingSrc(r, EdgeDirection(m.turn), p)
  }

  /** Where move `m` takes the sticker at `q`. */
  function Dst(m: Move, q: Pos): Pos
  {
    var r := RingOf(m.face);
    if q.face == m.face then Pos(m.face, FaceDst(m.turn, q.i))
    else if m.turn == Double then RingSrc(r, Ccw, RingSrc(r, Ccw, q))
    else RingSrc(r, Opposite(EdgeDirection(m.turn)), q)
  }

  /** applyMove only permutes stickers: each position of the result holds the
      sticker found at `Src(m, p)` in the input. */
  lemma ApplyAt(c: Cube, m: Move, p: Pos)
    ensures At(Apply(c, m), p) == At(c, Src(m, p))
  {
    var r := RingOf(m.face);
    RingOfOk(m.face);
    FaceTurnedAt(Get(c, m.face), m.turn, p.i);
    if m.turn == Double {
      ApplyDoubleForm(c, m.face);
      EdgesStepAt(EdgesStep(c, m.face, Cw), m.face, Cw, p);
      EdgesStepAt(c, m.face, Cw, RingSrc(r, Cw, p));
    } else {
      ApplyQuarterForm(c, m);
      EdgesStepAt(c, m.face, EdgeDirection(m.turn), p);
    }
  }

  /** `Src(m, ·)` is a bijection on the 54 positions, with inverse `Dst(m, ·)`. */
  lemma SrcBijective(m: Move, p: Pos)
    ensures Dst(m, Src(m, p)) == p
    ensures Src(m, Dst(m, p)) == p
  {
    var r := RingOf(m.face);
    RingOfOk(m.face);
    FaceSrcDst(m.turn, p.i);
    var d := EdgeDirection(m.turn);
    RingSrcInverse(m.face, r, d, p);
    RingSrcInverse(m.face, r, Opposite(d), p);
    RingSrcInverse(m.face, r, Cw, p);
    RingSrcInverse(m.face, r, Cw, RingSrc(r, Cw, p));
    RingSrcInverse(m.face, r, Ccw, p);
    RingSrcInverse(m.face, r, Ccw, RingSrc(r, Ccw, p));
    assert Opposite(Opposite(d)) == d;
  }

  /** Hence no two positions take their sticker from the same place. */
  lemma SrcInjective(m: Move, p: Pos, q: Pos)
    requires Src(m, p) == Src(m, q)
    ensures p == q
  {
    SrcBijective(m, p);
    SrcBijective(m, q);
  }

  // ---------------------------------------------------------------------------
  // Sequences of moves on positions

  /** Where the sticker that applyMoves(·, ms) brings to `p` was. */
  function SrcAll(ms: seq<Move>, p: Pos): Pos
    decreases |ms|
  {
    if |ms| == 0 then p else SrcAll(ms[..|ms| - 1], Src(ms[|ms| - 1], p))
  }

  lemma {:induction false} ApplyAllAt(c: Cube, ms: seq<Move>, p: Pos)
    ensures At(ApplyAll(c, ms), p) == At(c, SrcAll(ms, p))
    decreases |ms|
  {
    if |ms| > 0 {
      var last := ms[|ms| - 1];
      ApplyAt(ApplyAll(c, ms[..|ms| - 1]), last, p);
      ApplyAllAt(c, ms[..|ms| - 1], Src(last, p));
    }
  }
}
