/** The move engine of src/lib/rubik/cubeLogic.ts.

    A move turns one face's own nine stickers and cycles the twelve stickers of
    the four neighbouring faces that border it.  The source writes the second
    step as a hand-made table of literal indices (`rotateEdges`, transcribed
    below as `CubeArrays.RotateEdges`); the specification of that step is the
    declarative `RingOf` table: for every face, four three-sticker strips on
    its four neighbours, where a clockwise step moves each strip's stickers into
    the strip before it. */
module CubeLogic {
  import opened CubeTypes

  // ---------------------------------------------------------------------------
  // Turning a face's own stickers

  function RotateFaceCW(s: Stickers): (r: Stickers)
    ensures r[4] == s[4]
  {
    [s[6], s[3], s[0],
     s[7], s[4], s[1],
     s[8], s[5], s[2]]
  }

  function RotateFaceCCW(s: Stickers): (r: Stickers)
    ensures r[4] == s[4]
  {
    [s[2], s[5], s[8],
     s[1], s[4], s[7],
     s[0], s[3], s[6]]
  }

  function RotateFace180(s: Stickers): (r: Stickers)
    ensures r[4] == s[4]
  {
    [s[8], s[7], s[6],
     s[5], s[4], s[3],
     s[2], s[1], s[0]]
  }

  // ---------------------------------------------------------------------------
  // The adjacent-edge cycle, as a declarative table

  datatype Direction = Cw | Ccw

  /** Three stickers of one face, in the order in which they travel. */
  datatype Strip = Strip(face: Face, i0: Idx, i1: Idx, i2: Idx)

  /** The four strips bordering a face.  A clockwise step gives strip s0 the
      stickers of s1, s1 those of s2, s2 those of s3 and s3 those of s0. */
  datatype Ring = Ring(s0: Strip, s1: Strip, s2: Strip, s3: Strip)

  function RingOf(face: Face): Ring
  {
    match face
    case U => Ring(Strip(Face.F, 0, 1, 2), Strip(Face.R, 0, 1, 2), Strip(Face.B, 0, 1, 2), Strip(Face.L, 0, 1, 2))
    case D => Ring(Strip(Face.F, 6, 7, 8), Strip(Face.L, 6, 7, 8), Strip(Face.B, 6, 7, 8), Strip(Face.R, 6, 7, 8))
    case F => Ring(Strip(Face.U, 6, 7, 8), Strip(Face.L, 8, 5, 2), Strip(Face.D, 2, 1, 0), Strip(Face.R, 0, 3, 6))
    case B => Ring(Strip(Face.U, 0, 1, 2), Strip(Face.R, 2, 5, 8), Strip(Face.D, 8, 7, 6), Strip(Face.L, 6, 3, 0))
    case L => Ring(Strip(Face.U, 0, 3, 6), Strip(Face.B, 8, 5, 2), Strip(Face.D, 0, 3, 6), Strip(Face.F, 0, 3, 6))
    case R => Ring(Strip(Face.U, 2, 5, 8), Strip(Face.F, 2, 5, 8), Strip(Face.D, 2, 5, 8), Strip(Face.B, 6, 3, 0))
  }

  /** A strip names three different stickers, none of them the centre. */
  predicate StripOk(s: Strip)
  {
    s.i0 != s.i1 && s.i0 != s.i2 && s.i1 != s.i2 && s.i0 != 4 && s.i1 != 4 && s.i2 != 4
  }

  /** The strips of a face's ring lie on four different faces, none of them
      the turned face itself. */
  predicate RingOk(face: Face, r: Ring)
  {
    StripOk(r.s0) && StripOk(r.s1) && StripOk(r.s2) && StripOk(r.s3) &&
    r.s0.face != r.s1.face && r.s0.face != r.s2.face && r.s0.face != r.s3.face &&
    r.s1.face != r.s2.face && r.s1.face != r.s3.face && r.s2.face != r.s3.face &&
    r.s0.face != face && r.s1.face != face && r.s2.face != face && r.s3.face != face
  }

  function Read(c: Cube, s: Strip): (Color, Color, Color)
  {
    var st := Get(c, s.face);
    (st[s.i0], st[s.i1], st[s.i2])
  }

  /** A face's stickers with the strip's three positions overwritten by `v`. */
  function Upd(st: Stickers, s: Strip, v: (Color, Color, Color)): Stickers
  {
    st[s.i0 := v.0][s.i1 := v.1][s.i2 := v.2]
  }

  function Write(c: Cube, s: Strip, v: (Color, Color, Color)): Cube
  {
    With(c, s.face, Upd(Get(c, s.face), s, v))
  }

  /** Writes the strips `ss` in order, strip `ss[k]` receiving `vs[k]`. */
  function WriteAll(c: Cube, ss: seq<Strip>, vs: seq<(Color, Color, Color)>): Cube
    requires |ss| == |vs|
    decreases |ss|
  {
    if ss == [] then c else WriteAll(Write(c, ss[0], vs[0]), ss[1..], vs[1..])
  }

  /** Four strip writes are the four nested `Write`s, first strip innermost. */
  lemma WriteAllFour(c: Cube, s: seq<Strip>, v: seq<(Color, Color, Color)>)
    requires |s| == 4 && |v| == 4
    ensures WriteAll(c, s, v) == Write(Write(Write(Write(c, s[0], v[0]), s[1], v[1]), s[2], v[2]), s[3], v[3])
  {
    var c1 := Write(c, s[0], v[0]);
    var c2 := Write(c1, s[1], v[1]);
    var c3 := Write(c2, s[2], v[2]);
    assert WriteAll(c, s, v) == WriteAll(c1, s[1..], v[1..]);
    assert WriteAll(c1, s[1..], v[1..]) == WriteAll(c2, s[2..], v[2..]) by {
      assert s[1..][1..] == s[2..] && v[1..][1..] == v[2..];
    }
    assert WriteAll(c2, s[2..], v[2..]) == WriteAll(c3, s[3..], v[3..]) by {
      assert s[2..][1..] == s[3..] && v[2..][1..] == v[3..];
    }
    assert WriteAll(c3, s[3..], v[3..]) == Write(c3, s[3], v[3]) by {
      assert s[3..][1..] == [] && v[3..][1..] == [];
    }
  }

  /** The clockwise step: s0 takes s1's stickers, s1 takes s2's, s2 takes
      s3's and s3 takes the buffered stickers of s0. */
  function CycleCw(c: Cube, r: Ring): Cube
  {
    WriteAll(c, [r.s0, r.s1, r.s2, r.s3], [Read(c, r.s1), Read(c, r.s2), Read(c, r.s3), Read(c, r.s0)])
  }

  /** The counter-clockwise step: s0 takes s3's stickers, s3 takes s2's, s2
      takes s1's and s1 takes the buffered stickers of s0. */
  function CycleCcw(c: Cube, r: Ring): Cube
  {
    WriteAll(c, [r.s1, r.s2, r.s3, r.s0], [Read(c, r.s0), Read(c, r.s1), Read(c, r.s2), Read(c, r.s3)])
  }

  /** The clockwise step as its four writes, in order. */
  lemma CycleCwWrites(c: Cube, r: Ring)
    ensures CycleCw(c, r) ==
      var v0, v1, v2, v3 := Read(c, r.s0), Read(c, r.s1), Read(c, r.s2), Read(c, r.s3);
      Write(Write(Write(Write(c, r.s0, v1), r.s1, v2), r.s2, v3), r.s3, v0)
  {
    WriteAllFour(c, [r.s0, r.s1, r.s2, r.s3], [Read(c, r.s1), Read(c, r.s2), Read(c, r.s3), Read(c, r.s0)]);
  }

  /** The counter-clockwise step as its four writes, in order. */
  lemma CycleCcwWrites(c: Cube, r: Ring)
    ensures CycleCcw(c, r) ==
      var v0, v1, v2, v3 := Read(c, r.s0), Read(c, r.s1), Read(c, r.s2), Read(c, r.s3);
      Write(Write(Write(Write(c, r.s1, v0), r.s2, v1), r.s3, v2), r.s0, v3)
  {
    WriteAllFour(c, [r.s1, r.s2, r.s3, r.s0], [Read(c, r.s0), Read(c, r.s1), Read(c, r.s2), Read(c, r.s3)]);
  }

  lemma GetWrite(c: Cube, s: Strip, v: (Color, Color, Color), g: Face)
    ensures Get(Write(c, s, v), g) == if g == s.face then Upd(Get(c, g), s, v) else Get(c, g)
  {
  }

  /** `d` is `c` after one clockwise step of ring `r`: each strip's face gets
      the next strip's stickers, and every other face is kept. */
  ghost predicate CwStep(c: Cube, d: Cube, r: Ring)
  {
    Get(d, r.s0.face) == Upd(Get(c, r.s0.face), r.s0, Read(c, r.s1)) &&
    Get(d, r.s1.face) == Upd(Get(c, r.s1.face), r.s1, Read(c, r.s2)) &&
    Get(d, r.s2.face) == Upd(Get(c, r.s2.face), r.s2, Read(c, r.s3)) &&
    Get(d, r.s3.face) == Upd(Get(c, r.s3.face), r.s3, Read(c, r.s0)) &&
    forall g :: g != r.s0.face && g != r.s1.face && g != r.s2.face && g != r.s3.face ==> Get(d, g) == Get(c, g)
  }

  /** `d` is `c` after one counter-clockwise step of ring `r`: each strip's
      face gets the previous strip's stickers, and every other face is kept. */
  ghost predicate CcwStep(c: Cube, d: Cube, r: Ring)
  {
    Get(d, r.s0.face) == Upd(Get(c, r.s0.face), r.s0, Read(c, r.s3)) &&
    Get(d, r.s1.face) == Upd(Get(c, r.s1.face), r.s1, Read(c, r.s0)) &&
    Get(d, r.s2.face) == Upd(Get(c, r.s2.face), r.s2, Read(c, r.s1)) &&
    Get(d, r.s3.face) == Upd(Get(c, r.s3.face), r.s3, Read(c, r.s2)) &&
    forall g :: g != r.s0.face && g != r.s1.face && g != r.s2.face && g != r.s3.face ==> Get(d, g) == Get(c, g)
  }

  /** What the four writes of CycleCw leave on each face: the last write to
      that face wins. */
  lemma CycleCwGet(c: Cube, face: Face, r: Ring, g: Face)
    requires RingOk(face, r)
    ensures Get(CycleCw(c, r), g) ==
      var v0, v1, v2, v3 := Read(c, r.s0), Read(c, r.s1), Read(c, r.s2), Read(c, r.s3);
      if g == r.s3.face then Upd(Get(c, g), r.s3, v0)
      else if g == r.s2.face then Upd(Get(c, g), r.s2, v3)
      else if g == r.s1.face then Upd(Get(c, g), r.s1, v2)
      else if g == r.s0.face then Upd(Get(c, g), r.s0, v1)
      else Get(c, g)
  {
    var v0, v1, v2, v3 := Read(c, r.s0), Read(c, r.s1), Read(c, r.s2), Read(c, r.s3);
    var c1 := Write(c, r.s0, v1);
    var c2 := Write(c1, r.s1, v2);
    var c3 := Write(c2, r.s2, v3);
    CycleCwWrites(c, r);
    GetWrite(c, r.s0, v1, g);
    GetWrite(c1, r.s1, v2, g);
    GetWrite(c2, r.s2, v3, g);
    GetWrite(c3, r.s3, v0, g);
  }

  /** The sequence of four writes in CycleCw is one clockwise step of the ring. */
  lemma CycleCwFaces(c: Cube, face: Face, r: Ring)
    requires RingOk(face, r)
    ensures CwStep(c, CycleCw(c, r), r)
  {
    CycleCwGet(c, face, r, r.s0.face);
    CycleCwGet(c, face, r, r.s1.face);
    CycleCwGet(c, face, r, r.s2.face);
    CycleCwGet(c, face, r, r.s3.face);
    forall g | g != r.s0.face && g != r.s1.face && g != r.s2.face && g != r.s3.face
      ensures Get(CycleCw(c, r), g) == Get(c, g)
    {
      CycleCwGet(c, face, r, g);
    }
  }

  /** What the four writes of CycleCcw leave on each face. */
  lemma CycleCcwGet(c: Cube, face: Face, r: Ring, g: Face)
    requires RingOk(face, r)
    ensures Get(CycleCcw(c, r), g) ==
      var v0, v1, v2, v3 := Read(c, r.s0), Read(c, r.s1), Read(c, r.s2), Read(c, r.s3);
      if g == r.s0.face then Upd(Get(c, g), r.s0, v3)
      else if g == r.s3.face then Upd(Get(c, g), r.s3, v2)
      else if g == r.s2.face then Upd(Get(c, g), r.s2, v1)
      else if g == r.s1.face then Upd(Get(c, g), r.s1, v0)
      else Get(c, g)
  {
    var v0, v1, v2, v3 := Read(c, r.s0), Read(c, r.s1), Read(c, r.s2), Read(c, r.s3);
    var c1 := Write(c, r.s1, v0);
    var c2 := Write(c1, r.s2, v1);
    var c3 := Write(c2, r.s3, v2);
    CycleCcwWrites(c, r);
    GetWrite(c, r.s1, v0, g);
    GetWrite(c1, r.s2, v1, g);
    GetWrite(c2, r.s3, v2, g);
    GetWrite(c3, r.s0, v3, g);
  }

  /** The sequence of four writes in CycleCcw is one counter-clockwise step of the ring. */
  lemma CycleCcwFaces(c: Cube, face: Face, r: Ring)
    requires RingOk(face, r)
    ensures CcwStep(c, CycleCcw(c, r), r)
  {
    CycleCcwGet(c, face, r, r.s0.face);
    CycleCcwGet(c, face, r, r.s1.face);
    CycleCcwGet(c, face, r, r.s2.face);
    CycleCcwGet(c, face, r, r.s3.face);
    forall g | g != r.s0.face && g != r.s1.face && g != r.s2.face && g != r.s3.face
      ensures Get(CycleCcw(c, r), g) == Get(c, g)
    {
      CycleCcwGet(c, face, r, g);
    }
  }

  /** The declarative ring of each face, unfolded into the literal sticker
      assignments of one edge step. */
  lemma EdgesStepTableU(c: Cube)
    ensures EdgesStep(c, Face.U, Cw) == Cube(c.U, c.D, c.F[0 := c.R[0]][1 := c.R[1]][2 := c.R[2]], c.B[0 := c.L[0]][1 := c.L[1]][2 := c.L[2]], c.L[0 := c.F[0]][1 := c.F[1]][2 := c.F[2]], c.R[0 := c.B[0]][1 := c.B[1]][2 := c.B[2]])
    ensures EdgesStep(c, Face.U, Ccw) == Cube(c.U, c.D, c.F[0 := c.L[0]][1 := c.L[1]][2 := c.L[2]], c.B[0 := c.R[0]][1 := c.R[1]][2 := c.R[2]], c.L[0 := c.B[0]][1 := c.B[1]][2 := c.B[2]], c.R[0 := c.F[0]][1 := c.F[1]][2 := c.F[2]])
  {
    CycleCwWrites(c, RingOf(Face.U));
    CycleCcwWrites(c, RingOf(Face.U));
  }

  lemma EdgesStepTableD(c: Cube)
    ensures EdgesStep(c, Face.D, Cw) == Cube(c.U, c.D, c.F[6 := c.L[6]][7 := c.L[7]][8 := c.L[8]], c.B[6 := c.R[6]][7 := c.R[7]][8 := c.R[8]], c.L[6 := c.B[6]][7 := c.B[7]][8 := c.B[8]], c.R[6 := c.F[6]][7 := c.F[7]][8 := c.F[8]])
    ensures EdgesStep(c, Face.D, Ccw) == Cube(c.U, c.D, c.F[6 := c.R[6]][7 := c.R[7]][8 := c.R[8]], c.B[6 := c.L[6]][7 := c.L[7]][8 := c.L[8]], c.L[6 := c.F[6]][7 := c.F[7]][8 := c.F[8]], c.R[6 := c.B[6]][7 := c.B[7]][8 := c.B[8]])
  {
    CycleCwWrites(c, RingOf(Face.D));
    CycleCcwWrites(c, RingOf(Face.D));
  }

  lemma EdgesStepTableF(c: Cube)
    ensures EdgesStep(c, Face.F, Cw) == Cube(c.U[6 := c.L[8]][7 := c.L[5]][8 := c.L[2]], c.D[0 := c.R[6]][1 := c.R[3]][2 := c.R[0]], c.F, c.B, c.L[2 := c.D[0]][5 := c.D[1]][8 := c.D[2]], c.R[0 := c.U[6]][3 := c.U[7]][6 := c.U[8]])
    ensures EdgesStep(c, Face.F, Ccw) == Cube(c.U[6 := c.R[0]][7 := c.R[3]][8 := c.R[6]], c.D[0 := c.L[2]][1 := c.L[5]][2 := c.L[8]], c.F, c.B, c.L[2 := c.U[8]][5 := c.U[7]][8 := c.U[6]], c.R[0 := c.D[2]][3 := c.D[1]][6 := c.D[0]])
  {
    CycleCwWrites(c, RingOf(Face.F));
    CycleCcwWrites(c, RingOf(Face.F));
  }

  lemma EdgesStepTableB(c: Cube)
    ensures EdgesStep(c, Face.B, Cw) == Cube(c.U[0 := c.R[2]][1 := c.R[5]][2 := c.R[8]], c.D[6 := c.L[0]][7 := c.L[3]][8 := c.L[6]], c.F, c.B, c.L[0 := c.U[2]][3 := c.U[1]][6 := c.U[0]], c.R[2 := c.D[8]][5 := c.D[7]][8 := c.D[6]])
    ensures EdgesStep(c, Face.B, Ccw) == Cube(c.U[0 := c.L[6]][1 := c.L[3]][2 := c.L[0]], c.D[6 := c.R[8]][7 := c.R[5]][8 := c.R[2]], c.F, c.B, c.L[0 := c.D[6]][3 := c.D[7]][6 := c.D[8]], c.R[2 := c.U[0]][5 := c.U[1]][8 := c.U[2]])
  {
    CycleCwWrites(c, RingOf(Face.B));
    CycleCcwWrites(c, RingOf(Face.B));
  }

  lemma EdgesStepTableL(c: Cube)
    ensures EdgesStep(c, Face.L, Cw) == Cube(c.U[0 := c.B[8]][3 := c.B[5]][6 := c.B[2]], c.D[0 := c.F[0]][3 := c.F[3]][6 := c.F[6]], c.F[0 := c.U[0]][3 := c.U[3]][6 := c.U[6]], c.B[2 := c.D[6]][5 := c.D[3]][8 := c.D[0]], c.L, c.R)
    ensures EdgesStep(c, Face.L, Ccw) == Cube(c.U[0 := c.F[0]][3 := c.F[3]][6 := c.F[6]], c.D[0 := c.B[8]][3 := c.B[5]][6 := c.B[2]], c.F[0 := c.D[0]][3 := c.D[3]][6 := c.D[6]], c.B[2 := c.U[6]][5 := c.U[3]][8 := c.U[0]], c.L, c.R)
  {
    CycleCwWrites(c, RingOf(Face.L));
    CycleCcwWrites(c, RingOf(Face.L));
  }

  lemma EdgesStepTableR(c: Cube)
    ensures EdgesStep(c, Face.R, Cw) == Cube(c.U[2 := c.F[2]][5 := c.F[5]][8 := c.F[8]], c.D[2 := c.B[6]][5 := c.B[3]][8 := c.B[0]], c.F[2 := c.D[2]][5 := c.D[5]][8 := c.D[8]], c.B[0 := c.U[8]][3 := c.U[5]][6 := c.U[2]], c.L, c.R)
    ensures EdgesStep(c, Face.R, Ccw) == Cube(c.U[2 := c.B[6]][5 := c.B[3]][8 := c.B[0]], c.D[2 := c.F[2]][5 := c.F[5]][8 := c.F[8]], c.F[2 := c.U[2]][5 := c.U[5]][8 := c.U[8]], c.B[0 := c.D[8]][3 := c.D[5]][6 := c.D[2]], c.L, c.R)
  {
    CycleCwWrites(c, RingOf(Face.R));
    CycleCcwWrites(c, RingOf(Face.R));
  }

  /** One call of rotateEdges(face, dir). */
  function EdgesStep(c: Cube, face: Face, dir: Direction): Cube
  {
    if dir == Cw then CycleCw(c, RingOf(face)) else CycleCcw(c, RingOf(face))
  }

  /** `n` calls of rotateEdges(face, dir) in a row. */
  function EdgesTimes(c: Cube, face: Face, dir: Direction, n: nat): Cube
  {
    if n == 0 then c else EdgesStep(EdgesTimes(c, face, dir, n - 1), face, dir)
  }

  // ---------------------------------------------------------------------------
  // A whole move

  function FaceTurned(s: Stickers, t: Turn): Stickers
  {
    match t
    case Double => RotateFace180(s)
    case Prime => RotateFaceCCW(s)
    case Clockwise => RotateFaceCW(s)
  }

  /** `times` in applyMove: the edge step runs twice for a half turn. */
  function Times(t: Turn): nat
  {
    if t == Double then 2 else 1
  }

  /** `isPrime && !isDouble ? 'ccw' : 'cw'` */
  function EdgeDirection(t: Turn): Direction
  {
    if t == Prime then Ccw else Cw
  }

  /** The state applyMove returns. */
  function Apply(c: Cube, m: Move): Cube
  {
    EdgesTimes(With(c, m.face, FaceTurned(Get(c, m.face), m.turn)), m.face, EdgeDirection(m.turn), Times(m.turn))
  }

  /** The state applyMoves returns: the moves applied from first to last. */
  function ApplyAll(c: Cube, ms: seq<Move>): Cube
  {
    if |ms| == 0 then c else Apply(ApplyAll(c, ms[..|ms| - 1]), ms[|ms| - 1])
  }

  // ---------------------------------------------------------------------------
  // The mutable clone that applyMove works on

  /** cloneCubeState's result: six independent arrays, one per face. */
  class CubeArrays {
    var U: array<Color>
    var D: array<Color>
    var F: array<Color>
    var B: array<Color>
    var L: array<Color>
    var R: array<Color>

    ghost predicate Valid()
      reads this
    {
      U.Length == 9 && D.Length == 9 && F.Length == 9 &&
      B.Length == 9 && L.Length == 9 && R.Length == 9 &&
      U != D && U != F && U != B && U != L && U != R &&
      D != F && D != B && D != L && D != R &&
      F != B && F != L && F != R &&
      B != L && B != R &&
      L != R
    }

    function Value(): (c: Cube)
      reads this, U, D, F, B, L, R
      requires Valid()
    {
      Cube(U[..], D[..], F[..], B[..], L[..], R[..])
    }

    function FaceArray(face: Face): array<Color>
      reads this
    {
      match face
      case U => U
      case D => D
      case F => F
      case B => B
      case L => L
      case R => R
    }

    /** cloneCubeState: copies every face into a fresh array. */
    constructor Clone(c: Cube)
      ensures Valid() && Value() == c
      ensures fresh(U) && fresh(D) && fresh(F) && fresh(B) && fresh(L) && fresh(R)
    {
      var u := CopyFace(c.U);
      var d := CopyFace(c.D);
      var f := CopyFace(c.F);
      var b := CopyFace(c.B);
      var l := CopyFace(c.L);
      var r := CopyFace(c.R);
      U, D, F, B, L, R := u, d, f, b, l, r;
    }

    /** `newState[face] = s`: the face now refers to a fresh array holding `s`. */
    method SetFace(face: Face, s: Stickers)
      requires Valid()
      modifies this
      ensures Valid() && fresh(FaceArray(face))
      ensures Value() == With(old(Value()), face, s)
      ensures face != Face.U ==> U == old(U)
      ensures face != Face.D ==> D == old(D)
      ensures face != Face.F ==> F == old(F)
      ensures face != Face.B ==> B == old(B)
      ensures face != Face.L ==> L == old(L)
      ensures face != Face.R ==> R == old(R)
    {
      var a := CopyFace(s);
      match face
      case U => U := a;
      case D => D := a;
      case F => F := a;
      case B => B := a;
      case L => L := a;
      case R => R := a;
    }

    /** rotateEdges: the switch over the turned face.  Each case below is the
        literal table for one face, overwriting the neighbours' arrays in place
        and keeping the first strip in a three-sticker buffer (`temp0..2`).
        Its contract ties it to the declarative ring of that face. */
    method RotateEdges(face: Face, direction: Direction)
      requires Valid()
      modifies U, D, F, B, L, R
      ensures Valid()
      ensures Value() == EdgesStep(old(Value()), face, direction)
    {
      match face
      case U => RotateEdgesU(direction);
      case D => RotateEdgesD(direction);
      case F => RotateEdgesF(direction);
      case B => RotateEdgesB(direction);
      case L => RotateEdgesL(direction);
      case R => RotateEdgesR(direction);
    }

    /** The loop of applyMove: `times` calls of rotateEdges(face, direction). */
    method RotateEdgesTimes(face: Face, direction: Direction, times: nat)
      requires Valid()
      modifies U, D, F, B, L, R
      ensures Valid()
      ensures Value() == EdgesTimes(old(Value()), face, direction, times)
    {
      ghost var c0 := Value();
      for i := 0 to times
        invariant Valid()
        invariant Value() == EdgesTimes(c0, face, direction, i)
      {
        RotateEdges(face, direction);
      }
    }

    method RotateEdgesU(direction: Direction)
      requires Valid()
      modifies U, D, F, B, L, R
      ensures Valid()
      ensures Value() == EdgesStep(old(Value()), Face.U, direction)
    {
      ghost var c := Value();
      var temp0, temp1, temp2: Color;
      if direction == Cw {
        temp0 := F[0]; temp1 := F[1]; temp2 := F[2];
        CopyStrip(F, 0, 1, 2, R, 0, 1, 2);
        CopyStrip(R, 0, 1, 2, B, 0, 1, 2);
        CopyStrip(B, 0, 1, 2, L, 0, 1, 2);
        WriteStrip(L, 0, 1, 2, temp0, temp1, temp2);
      } else {
        temp0 := F[0]; temp1 := F[1]; temp2 := F[2];
        CopyStrip(F, 0, 1, 2, L, 0, 1, 2);
        CopyStrip(L, 0, 1, 2, B, 0, 1, 2);
        CopyStrip(B, 0, 1, 2, R, 0, 1, 2);
        WriteStrip(R, 0, 1, 2, temp0, temp1, temp2);
      }
      EdgesStepTableU(c);
    }

    method RotateEdgesD(direction: Direction)
      requires Valid()
      modifies U, D, F, B, L, R
      ensures Valid()
      ensures Value() == EdgesStep(old(Value()), Face.D, direction)
    {
      ghost var c := Value();
      var temp0, temp1, temp2: Color;
      if direction == Cw {
        temp0 := F[6]; temp1 := F[7]; temp2 := F[8];
        CopyStrip(F, 6, 7, 8, L, 6, 7, 8);
        CopyStrip(L, 6, 7, 8, B, 6, 7, 8);
        CopyStrip(B, 6, 7, 8, R, 6, 7, 8);
        WriteStrip(R, 6, 7, 8, temp0, temp1, temp2);
      } else {
        temp0 := F[6]; temp1 := F[7]; temp2 := F[8];
        CopyStrip(F, 6, 7, 8, R, 6, 7, 8);
        CopyStrip(R, 6, 7, 8, B, 6, 7, 8);
        CopyStrip(B, 6, 7, 8, L, 6, 7, 8);
        WriteStrip(L, 6, 7, 8, temp0, temp1, temp2);
      }
      EdgesStepTableD(c);
    }

    method RotateEdgesF(direction: Direction)
      requires Valid()
      modifies U, D, F, B, L, R
      ensures Valid()
      ensures Value() == EdgesStep(old(Value()), Face.F, direction)
    {
      ghost var c := Value();
      var temp0, temp1, temp2: Color;
      if direction == Cw {
        temp0 := U[6]; temp1 := U[7]; temp2 := U[8];
        CopyStrip(U, 6, 7, 8, L, 8, 5, 2);
        CopyStrip(L, 2, 5, 8, D, 0, 1, 2);
        CopyStrip(D, 0, 1, 2, R, 6, 3, 0);
        WriteStrip(R, 0, 3, 6, temp0, temp1, temp2);
      } else {
        temp0 := U[6]; temp1 := U[7]; temp2 := U[8];
        CopyStrip(U, 6, 7, 8, R, 0, 3, 6);
        CopyStrip(R, 0, 3, 6, D, 2, 1, 0);
        CopyStrip(D, 0, 1, 2, L, 2, 5, 8);
        WriteStrip(L, 2, 5, 8, temp2, temp1, temp0);
      }
      EdgesStepTableF(c);
    }

    method RotateEdgesB(direction: Direction)
      requires Valid()
      modifies U, D, F, B, L, R
      ensures Valid()
      ensures Value() == EdgesStep(old(Value()), Face.B, direction)
    {
      ghost var c := Value();
      var temp0, temp1, temp2: Color;
      if direction == Cw {
        temp0 := U[0]; temp1 := U[1]; temp2 := U[2];
        CopyStrip(U, 0, 1, 2, R, 2, 5, 8);
        CopyStrip(R, 2, 5, 8, D, 8, 7, 6);
        CopyStrip(D, 6, 7, 8, L, 0, 3, 6);
        WriteStrip(L, 0, 3, 6, temp2, temp1, temp0);
      } else {
        temp0 := U[0]; temp1 := U[1]; temp2 := U[2];
        CopyStrip(U, 0, 1, 2, L, 6, 3, 0);
        CopyStrip(L, 0, 3, 6, D, 6, 7, 8);
        CopyStrip(D, 6, 7, 8, R, 8, 5, 2);
        WriteStrip(R, 2, 5, 8, temp0, temp1, temp2);
      }
      EdgesStepTableB(c);
    }

    method RotateEdgesL(direction: Direction)
      requires Valid()
      modifies U, D, F, B, L, R
      ensures Valid()
      ensures Value() == EdgesStep(old(Value()), Face.L, direction)
    {
      ghost var c := Value();
      var temp0, temp1, temp2: Color;
      if direction == Cw {
        temp0 := U[0]; temp1 := U[3]; temp2 := U[6];
        CopyStrip(U, 0, 3, 6, B, 8, 5, 2);
        CopyStrip(B, 2, 5, 8, D, 6, 3, 0);
        CopyStrip(D, 0, 3, 6, F, 0, 3, 6);
        WriteStrip(F, 0, 3, 6, temp0, temp1, temp2);
      } else {
        temp0 := U[0]; temp1 := U[3]; temp2 := U[6];
        CopyStrip(U, 0, 3, 6, F, 0, 3, 6);
        CopyStrip(F, 0, 3, 6, D, 0, 3, 6);
        CopyStrip(D, 0, 3, 6, B, 8, 5, 2);
        WriteStrip(B, 2, 5, 8, temp2, temp1, temp0);
      }
      EdgesStepTableL(c);
    }

    method RotateEdgesR(direction: Direction)
      requires Valid()
      modifies U, D, F, B, L, R
      ensures Valid()
      ensures Value() == EdgesStep(old(Value()), Face.R, direction)
    {
      ghost var c := Value();
      var temp0, temp1, temp2: Color;
      if direction == Cw {
        temp0 := U[2]; temp1 := U[5]; temp2 := U[8];
        CopyStrip(U, 2, 5, 8, F, 2, 5, 8);
        CopyStrip(F, 2, 5, 8, D, 2, 5, 8);
        CopyStrip(D, 2, 5, 8, B, 6, 3, 0);
        WriteStrip(B, 0, 3, 6, temp2, temp1, temp0);
      } else {
        temp0 := U[2]; temp1 := U[5]; temp2 := U[8];
        CopyStrip(U, 2, 5, 8, B, 6, 3, 0);
        CopyStrip(B, 0, 3, 6, D, 8, 5, 2);
        CopyStrip(D, 2, 5, 8, F, 2, 5, 8);
        WriteStrip(F, 2, 5, 8, temp0, temp1, temp2);
      }
      EdgesStepTableR(c);
    }
  }

  // ---------------------------------------------------------------------------
  // The exported operations

  /** Three assignments `dst[d_k] = src[s_k]` from one face's array to another's. */
  method CopyStrip(dst: array<Color>, d0: Idx, d1: Idx, d2: Idx, src: array<Color>, s0: Idx, s1: Idx, s2: Idx)
    requires dst != src && dst.Length == 9 && src.Length == 9
    modifies dst
    ensures dst[..] == old(dst[..])[d0 := src[s0]][d1 := src[s1]][d2 := src[s2]]
  {
    dst[d0] := src[s0];
    dst[d1] := src[s1];
    dst[d2] := src[s2];
  }

  /** Three assignments `dst[d_k] = temp_k` from the saved buffer. */
  method WriteStrip(dst: array<Color>, d0: Idx, d1: Idx, d2: Idx, v0: Color, v1: Color, v2: Color)
    requires dst.Length == 9
    modifies dst
    ensures dst[..] == old(dst[..])[d0 := v0][d1 := v1][d2 := v2]
  {
    dst[d0] := v0;
    dst[d1] := v1;
    dst[d2] := v2;
  }

  /** applyMove: clones the state, turns the face's own stickers, then runs the
      edge step once (twice for a half turn).  The result is the specification
      `Apply`; the caller's state is a value and is never changed. */
  method ApplyMove(state: Cube, move: Move) returns (r: Cube)
    ensures r == Apply(state, move)
  {
    var newState := new CubeArrays.Clone(state);
    var baseMove := move.face;
    var isPrime := move.turn == Prime;
    var isDouble := move.turn == Double;
    var current := Get(newState.Value(), baseMove);
    if isDouble {
      newState.SetFace(baseMove, RotateFace180(current));
    } else if isPrime {
      newState.SetFace(baseMove, RotateFaceCCW(current));
    } else {
      newState.SetFace(baseMove, RotateFaceCW(current));
    }
    ghost var turned := newState.Value();
    assert turned == With(state, move.face, FaceTurned(Get(state, move.face), move.turn));
    var times := if isDouble then 2 else 1;
    var direction := if isPrime && !isDouble then Ccw else Cw;
    newState.RotateEdgesTimes(baseMove, direction, times);
    r := newState.Value();
  }

  /** applyMoves: applies the moves one after the other. */
  method ApplyMoves(state: Cube, moves: seq<Move>) returns (r: Cube)
    ensures r == ApplyAll(state, moves)
  {
    var currentState := state;
    for k := 0 to |moves|
      invariant currentState == ApplyAll(state, moves[..k])
    {
      currentState := ApplyMove(currentState, moves[k]);
      assert moves[..k + 1][..k] == moves[..k];
    }
    assert moves[..|moves|] == moves;
    r := currentState;
  }

  /** No two consecutive moves turn the same face. */
  ghost predicate NoFaceTwice(ms: seq<Move>)
  {
    forall i, j :: 0 <= i && j == i + 1 && j < |ms| ==> ms[i].face != ms[j].face
  }

  /** generateScramble: `length` moves, each drawn at random with its face
      redrawn while it equals the previous move's face.  The random draws are
      a nondeterministic choice here: any move whose face differs from the
      previous one may come out. */
  method GenerateScramble(length: int) returns (scramble: seq<Move>)
    ensures |scramble| == if length < 0 then 0 else length
    ensures NoFaceTwice(scramble)
  {
    scramble := [];
    var lastMove: Option<Move> := None;
    var i := 0;
    while i < length
      invariant 0 <= i == |scramble|
      invariant i <= if length < 0 then 0 else length
      invariant NoFaceTwice(scramble)
      invariant lastMove == if scramble == [] then None else Some(scramble[|scramble| - 1])
    {
      var other := if lastMove.Some? && lastMove.value.face == Face.U then Face.D else Face.U;
      assert lastMove.None? || Move(other, Clockwise).face != lastMove.value.face;
      var move: Move :| lastMove.None? || move.face != lastMove.value.face;
      scramble := scramble + [move];
      lastMove := Some(move);
      i := i + 1;
    }
  }

  /** getScrambledCube: a fresh scramble and the solved cube with it applied. */
  method GetScrambledCube(scrambleLength: int) returns (cube: Cube, scramble: seq<Move>)
    ensures |scramble| == if scrambleLength < 0 then 0 else scrambleLength
    ensures NoFaceTwice(scramble)
    ensures cube == ApplyAll(SolvedCube, scramble)
  {
    scramble := GenerateScramble(scrambleLength);
    cube := ApplyMoves(SolvedCube, scramble);
  }

  /** Every sticker of the face has the colour of its centre. */
  predicate Uniform(s: Stickers)
  {
    forall i: Idx :: s[i] == s[4]
  }

  /** isSolved: scans the faces in the order U, D, F, B, L, R and stops at the
      first one whose stickers are not all the centre's colour. */
  method IsSolved(state: Cube) returns (solved: bool)
    ensures solved <==> forall face :: Uniform(Get(state, face))
  {
    var faces := Faces;
    for k := 0 to |faces|
      invariant forall j :: 0 <= j < k ==> Uniform(Get(state, faces[j]))
    {
      var color := Get(state, faces[k])[4];
      if !(forall i :: 0 <= i < 9 ==> Get(state, faces[k])[i] == color) {
        return false;
      }
    }
    forall face
      ensures Uniform(Get(state, face))
    {
      assert face == faces[0] || face == faces[1] || face == faces[2] ||
             face == faces[3] || face == faces[4] || face == faces[5];
    }
    return true;
  }

  method CopyFace(s: Stickers) returns (a: array<Color>)
    ensures fresh(a) && a[..] == s
  {
    a := new Color[9](i requires 0 <= i < 9 => s[i]);
  }
}
