/** The integer geometry behind the 3D view (src/components/cube/Cube3D.tsx):
    which of the 26 visible cubies shows which sticker of the cube state, which
    cubies turn with a face, and about which axis.  x grows towards R, y
    towards U and z towards F; every coordinate is -1, 0 or 1. */
module Cube3D {
  import opened CubeTypes
  import opened CubeLogic
  import opened CubePositions

  /** A cubie's `position`: its place in the 3x3x3 grid. */
  datatype Coord = Coord(x: int, y: int, z: int)

  const Origin := Coord(0, 0, 0)

  predicate InGrid(p: Coord)
  {
    -1 <= p.x <= 1 && -1 <= p.y <= 1 && -1 <= p.z <= 1
  }

  /** The 26 cubies drawn: every grid place but the hidden core. */
  predicate IsCubie(p: Coord)
  {
    InGrid(p) && p != Origin
  }

  /** isAffectedByRotation: the cubie lies in the layer that turning `face`
      moves. */
  function IsAffectedByRotation(p: Coord, face: Face): bool
  {
    match face
    case R => p.x == 1
    case L => p.x == -1
    case U => p.y == 1
    case D => p.y == -1
    case F => p.z == 1
    case B => p.z == -1
  }

  /** getRotationAxis, as the integer unit vector. */
  function GetRotationAxis(face: Face): Coord
  {
    match face
    case R | L => Coord(1, 0, 0)
    case U | D => Coord(0, 1, 0)
    case F | B => Coord(0, 0, 1)
  }

  /** Which end of its axis a face sits at. */
  function Side(face: Face): int
  {
    if face == R || face == U || face == F then 1 else -1
  }

  function OppositeFace(face: Face): Face
  {
    match face
    case R => L
    case L => R
    case U => D
    case D => U
    case F => B
    case B => F
  }

  function Dot(a: Coord, b: Coord): int
  {
    a.x * b.x + a.y * b.y + a.z * b.z
  }

  /** The cubie in the middle of a face. */
  function FaceCentre(face: Face): Coord
  {
    var a := GetRotationAxis(face);
    Coord(Side(face) * a.x, Side(face) * a.y, Side(face) * a.z)
  }

  /** The layer a face turns is the slice of the grid across its rotation
      axis, at the face's end of that axis. */
  lemma AffectedIsLayerAcrossAxis(p: Coord, face: Face)
    ensures IsAffectedByRotation(p, face) <==> Dot(p, GetRotationAxis(face)) == Side(face)
  {
  }

  /** Opposite faces turn about the same axis, from opposite ends, and their
      layers never share a cubie. */
  lemma OppositeFacesShareAxis(face: Face, p: Coord)
    ensures GetRotationAxis(OppositeFace(face)) == GetRotationAxis(face)
    ensures Side(OppositeFace(face)) == -Side(face)
    ensures !(IsAffectedByRotation(p, face) && IsAffectedByRotation(p, OppositeFace(face)))
  {
  }

  // ---------------------------------------------------------------------------
  // Which sticker a cubie shows

  /** `row` of the sticker that face `face` of the cubie at `p` shows. */
  function Row(p: Coord, face: Face): int
  {
    match face
    case R => 1 - p.y
    case L => 1 - p.y
    case U => p.z + 1
    case D => 1 - p.z
    case F => 1 - p.y
    case B => 1 - p.y
  }

  /** `col` of the sticker that face `face` of the cubie at `p` shows. */
  function Col(p: Coord, face: Face): int
  {
    match face
    case R => 1 - p.z
    case L => p.z + 1
    case U => p.x + 1
    case D => p.x + 1
    case F => p.x + 1
    case B => 1 - p.x
  }

  /** getIndex(row, col). */
  function StickerIndex(p: Coord, face: Face): int
  {
    Row(p, face) * 3 + Col(p, face)
  }

  /** Every index computed for a cubie on a face is a sticker of that face. */
  lemma StickerIndexInRange(p: Coord, face: Face)
    requires InGrid(p) && IsAffectedByRotation(p, face)
    ensures 0 <= StickerIndex(p, face) < 9
  {
  }

  /** The cubie whose `face` side shows sticker `i`. */
  function CubieFor(face: Face, i: Idx): Coord
  {
    var row := if i < 3 then 0 else if i < 6 then 1 else 2;
    var col := i - row * 3;
    match face
    case R => Coord(1, 1 - row, 1 - col)
    case L => Coord(-1, 1 - row, col - 1)
    case U => Coord(col - 1, 1, row - 1)
    case D => Coord(col - 1, -1, 1 - row)
    case F => Coord(col - 1, 1 - row, 1)
    case B => Coord(1 - col, 1 - row, -1)
  }

  /** Sticker `i` of a face is shown by a cubie of that face's layer. */
  lemma CubieForShowsSticker(face: Face, i: Idx)
    ensures IsCubie(CubieFor(face, i)) && IsAffectedByRotation(CubieFor(face, i), face)
    ensures StickerIndex(CubieFor(face, i), face) == i
  {
  }

  /** A cubie of a face's layer is the one CubieFor names for the sticker it
      shows: with CubieForShowsSticker, the nine cubies of a face show its
      nine stickers once each. */
  lemma StickerIndexShownBy(face: Face, p: Coord)
    requires InGrid(p) && IsAffectedByRotation(p, face)
    ensures CubieFor(face, StickerIndex(p, face)) == p
  {
  }

  /** Two cubies of one layer never show the same sticker of its face. */
  lemma StickerIndexInjective(face: Face, p: Coord, q: Coord)
    requires InGrid(p) && IsAffectedByRotation(p, face)
    requires InGrid(q) && IsAffectedByRotation(q, face)
    requires StickerIndex(p, face) == StickerIndex(q, face)
    ensures p == q
  {
    StickerIndexShownBy(face, p);
    StickerIndexShownBy(face, q);
  }

  /** The centre cubie of a face shows the face's centre sticker. */
  lemma CentreShowsIndexFour(face: Face)
    ensures IsCubie(FaceCentre(face)) && IsAffectedByRotation(FaceCentre(face), face)
    ensures StickerIndex(FaceCentre(face), face) == 4
  {
  }

  /** The cubie that shows sticker `q` of the cube state. */
  function CubieOf(q: Pos): Coord
  {
    CubieFor(q.face, q.i)
  }

  predicate OnRing(r: Ring, q: Pos)
  {
    OnStrip(r.s0, q) || OnStrip(r.s1, q) || OnStrip(r.s2, q) || OnStrip(r.s3, q)
  }

  /** A ring step moves only ring stickers, and brings them from the ring. */
  lemma RingStepOnRing(r: Ring, dir: Direction, q: Pos)
    requires RingSrc(r, dir, q) != q
    ensures OnRing(r, q) && OnRing(r, RingSrc(r, dir, q))
  {
  }

  /** Every sticker of a face's ring is drawn on a cubie of that face's layer. */
  lemma RingInLayer(face: Face, q: Pos)
    requires OnRing(RingOf(face), q)
    ensures IsAffectedByRotation(CubieOf(q), face)
  {
  }

  /** The sticker tables of applyMove agree with the 3D view: a move changes
      only stickers drawn on cubies of the turning layer, and it brings each
      of them from a sticker drawn on that layer too. */
  lemma MovesStayInTurningLayer(m: Move, q: Pos)
    requires Src(m, q) != q
    ensures IsAffectedByRotation(CubieOf(q), m.face)
    ensures IsAffectedByRotation(CubieOf(Src(m, q)), m.face)
  {
    var r := RingOf(m.face);
    if q.face == m.face {
      CubieForShowsSticker(q.face, q.i);
      CubieForShowsSticker(q.face, Src(m, q).i);
    } else if m.turn == Double {
      var mid := RingSrc(r, Cw, q);
      RingStepOnRing(r, Cw, q);
      RingStepOnRing(r, Cw, mid);
      RingInLayer(m.face, q);
      RingInLayer(m.face, Src(m, q));
    } else {
      RingStepOnRing(r, EdgeDirection(m.turn), q);
      RingInLayer(m.face, q);
      RingInLayer(m.face, Src(m, q));
    }
  }

  // ---------------------------------------------------------------------------
  // The cubies of one frame

  /** The `colors` object of a cubie: one optional colour per outward side. */
  datatype FaceColors = FaceColors(
    right: Option<Color>, left: Option<Color>, top: Option<Color>,
    bottom: Option<Color>, front: Option<Color>, back: Option<Color>)

  /** A cubie and the colours it shows. */
  datatype Cubie = Cubie(position: Coord, colors: FaceColors)

  /** The part of the rotation animation the layout reads. */
  datatype RotationAnimation = RotationAnimation(isAnimating: bool, face: Face)

  /** What the cubie at `p` shows on its `face` side: the sticker of that face
      at the computed index when the cubie lies in the face's layer, and
      nothing otherwise. */
  function Shown(c: Cube, p: Coord, face: Face): (r: Option<Color>)
    requires InGrid(p)
    ensures r.Some? <==> IsAffectedByRotation(p, face)
  {
    if IsAffectedByRotation(p, face) then Some(Get(c, face)[StickerIndex(p, face)]) else None
  }

  function CubieAt(c: Cube, p: Coord): Cubie
    requires InGrid(p)
  {
    Cubie(p, FaceColors(Shown(c, p, Face.R), Shown(c, p, Face.L), Shown(c, p, Face.U),
                        Shown(c, p, Face.D), Shown(c, p, Face.F), Shown(c, p, Face.B)))
  }

  /** The cubie goes to the rotating group. */
  predicate Turning(anim: Option<RotationAnimation>, p: Coord)
  {
    anim.Some? && anim.value.isAnimating && IsAffectedByRotation(p, anim.value.face)
  }

  /** The grid place visited `k`-th by the three nested loops (x outermost,
      z innermost, each from -1 to 1). */
  function GridCell(k: nat): Coord
  {
    var x := if k < 9 then -1 else if k < 18 then 0 else 1;
    var r := k - (x + 1) * 9;
    var y := if r < 3 then -1 else if r < 6 then 0 else 1;
    Coord(x, y, r - (y + 1) * 3 - 1)
  }

  /** The step of the loops at which the cell `p` is visited. */
  function GridIndex(p: Coord): int
  {
    (p.x + 1) * 9 + (p.y + 1) * 3 + (p.z + 1)
  }

  /** The loops visit every grid cell, each at one step of its own. */
  lemma GridIndexBijective(k: nat, p: Coord)
    ensures k < 27 ==> InGrid(GridCell(k)) && GridIndex(GridCell(k)) == k
    ensures InGrid(p) ==> 0 <= GridIndex(p) < 27 && GridCell(GridIndex(p)) == p
  {
    if InGrid(p) {
      GridStep(GridIndex(p), p.x, p.y, p.z);
    }
  }

  /** The cubies of the first `n` cells the loops visit that go to the
      rotating group (`turning`) or to the static one, in visiting order. */
  function Group(c: Cube, anim: Option<RotationAnimation>, n: nat, turning: bool): seq<Cubie>
  {
    if n == 0 then []
    else
      var p := GridCell(n - 1);
      Group(c, anim, n - 1, turning) +
        (if IsCubie(p) && Turning(anim, p) == turning then [CubieAt(c, p)] else [])
  }

  /** The cubie colours of one loop iteration, set side by side as the
      source does. */
  method ComputeColors(c: Cube, x: int, y: int, z: int) returns (colors: FaceColors)
    requires InGrid(Coord(x, y, z))
    ensures colors == CubieAt(c, Coord(x, y, z)).colors
  {
    var p := Coord(x, y, z);
    colors := FaceColors(None, None, None, None, None, None);
    if x == 1 {
      colors := colors.(right := Some(Get(c, Face.R)[StickerIndex(p, Face.R)]));
    }
    if x == -1 {
      colors := colors.(left := Some(Get(c, Face.L)[StickerIndex(p, Face.L)]));
    }
    if y == 1 {
      colors := colors.(top := Some(Get(c, Face.U)[StickerIndex(p, Face.U)]));
    }
    if y == -1 {
      colors := colors.(bottom := Some(Get(c, Face.D)[StickerIndex(p, Face.D)]));
    }
    if z == 1 {
      colors := colors.(front := Some(Get(c, Face.F)[StickerIndex(p, Face.F)]));
    }
    if z == -1 {
      colors := colors.(back := Some(Get(c, Face.B)[StickerIndex(p, Face.B)]));
    }
  }

  /** The useMemo body of CubeGroup: walk the grid, skip the core, and push
      each cubie into the rotating group when it turns with the animated
      face, into the static group otherwise. */
  method LayoutCubies(c: Cube, anim: Option<RotationAnimation>) returns (staticCubies: seq<Cubie>, rotatingCubies: seq<Cubie>)
    ensures staticCubies == Group(c, anim, 27, false)
    ensures rotatingCubies == Group(c, anim, 27, true)
  {
    staticCubies, rotatingCubies := [], [];
    ghost var n := 0;
    for x := -1 to 2
      invariant n == (x + 1) * 9
      invariant staticCubies == Group(c, anim, n, false)
      invariant rotatingCubies == Group(c, anim, n, true)
    {
      for y := -1 to 2
        invariant n == (x + 1) * 9 + (y + 1) * 3
        invariant staticCubies == Group(c, anim, n, false)
        invariant rotatingCubies == Group(c, anim, n, true)
      {
        for z := -1 to 2
          invariant n == (x + 1) * 9 + (y + 1) * 3 + (z + 1)
          invariant staticCubies == Group(c, anim, n, false)
          invariant rotatingCubies == Group(c, anim, n, true)
        {
          staticCubies, rotatingCubies := VisitCell(c, anim, x, y, z, n, staticCubies, rotatingCubies);
          n := n + 1;
        }
      }
    }
  }

  /** One pass of the loops' body: skip the core; otherwise build the cubie
      and push it onto the rotating group when it turns with the animated
      face, onto the static group when it does not. The ghost n counts the
      cells visited before this one. */
  method VisitCell(c: Cube, anim: Option<RotationAnimation>, x: int, y: int, z: int, ghost n: nat,
                   staticCubies: seq<Cubie>, rotatingCubies: seq<Cubie>)
    returns (staticAfter: seq<Cubie>, rotatingAfter: seq<Cubie>)
    requires InGrid(Coord(x, y, z)) && n == (x + 1) * 9 + (y + 1) * 3 + (z + 1)
    requires staticCubies == Group(c, anim, n, false) && rotatingCubies == Group(c, anim, n, true)
    ensures staticAfter == Group(c, anim, n + 1, false)
    ensures rotatingAfter == Group(c, anim, n + 1, true)
  {
    GroupGrows(c, anim, n, x, y, z, true);
    GroupGrows(c, anim, n, x, y, z, false);
    staticAfter, rotatingAfter := staticCubies, rotatingCubies;
    if x == 0 && y == 0 && z == 0 {
      return;
    }
    var colors := ComputeColors(c, x, y, z);
    var cubie := Cubie(Coord(x, y, z), colors);
    if anim.Some? && anim.value.isAnimating && IsAffectedByRotation(Coord(x, y, z), anim.value.face) {
      rotatingAfter := rotatingAfter + [cubie];
    } else {
      staticAfter := staticAfter + [cubie];
    }
  }

  /** Visiting the cell at (x, y, z) adds its cubie, if it is one, to the
      group it belongs to and leaves the other group as it was. */
  lemma GroupGrows(c: Cube, anim: Option<RotationAnimation>, n: nat, x: int, y: int, z: int, turning: bool)
    requires InGrid(Coord(x, y, z)) && n == (x + 1) * 9 + (y + 1) * 3 + (z + 1)
    ensures Group(c, anim, n + 1, turning) ==
      Group(c, anim, n, turning) +
      (if IsCubie(Coord(x, y, z)) && Turning(anim, Coord(x, y, z)) == turning then [CubieAt(c, Coord(x, y, z))] else [])
  {
    GridStep(n, x, y, z);
  }

  /** The cell visited when the loop variables are (x, y, z). */
  lemma GridStep(n: nat, x: int, y: int, z: int)
    requires InGrid(Coord(x, y, z)) && n == (x + 1) * 9 + (y + 1) * 3 + (z + 1)
    ensures GridCell(n) == Coord(x, y, z)
  {
  }

  /** Every member of a group is a cubie of that group, as CubieAt draws it,
      from a cell the loops have already visited. */
  lemma {:induction false} GroupMembers(c: Cube, anim: Option<RotationAnimation>, n: nat, turning: bool)
    requires n <= 27
    ensures forall x | x in Group(c, anim, n, turning) ::
      IsCubie(x.position) && x == CubieAt(c, x.position) && Turning(anim, x.position) == turning &&
      GridIndex(x.position) < n
  {
    if n > 0 {
      var k := n - 1;
      GridIndexBijective(k, Origin);
      var q := GridCell(k);
      GroupGrows(c, anim, k, q.x, q.y, q.z, turning);
      GroupMembers(c, anim, k, turning);
      var g0 := Group(c, anim, k, turning);
      var extra := if IsCubie(q) && Turning(anim, q) == turning then [CubieAt(c, q)] else [];
      forall x | x in Group(c, anim, n, turning)
        ensures IsCubie(x.position) && x == CubieAt(c, x.position) && Turning(anim, x.position) == turning
        ensures GridIndex(x.position) < n
      {
        assert x in g0 + extra;
        if x !in g0 {
          assert x in extra;
        }
      }
    }
  }

  /** A group lists its cubies in the order the loops visit them. */
  lemma {:induction false} GroupOrdered(c: Cube, anim: Option<RotationAnimation>, n: nat, turning: bool)
    requires n <= 27
    ensures var g := Group(c, anim, n, turning);
      forall i, j | 0 <= i < j < |g| :: GridIndex(g[i].position) < GridIndex(g[j].position)
  {
    if n > 0 {
      var k := n - 1;
      GridIndexBijective(k, Origin);
      var q := GridCell(k);
      GroupGrows(c, anim, k, q.x, q.y, q.z, turning);
      GroupOrdered(c, anim, k, turning);
      GroupMembers(c, anim, k, turning);
      var g0 := Group(c, anim, k, turning);
      var g := Group(c, anim, n, turning);
      forall i, j | 0 <= i < j < |g|
        ensures GridIndex(g[i].position) < GridIndex(g[j].position)
      {
        assert g[i] == g0[i] && g0[i] in g0;
        if j < |g0| {
          assert g[j] == g0[j];
        } else {
          assert g[j] == CubieAt(c, q);
        }
      }
    }
  }

  /** Every cubie of a group from a cell already visited is in the group. */
  lemma {:induction false} GroupComplete(c: Cube, anim: Option<RotationAnimation>, n: nat, turning: bool, p: Coord)
    requires n <= 27
    requires IsCubie(p) && GridIndex(p) < n && Turning(anim, p) == turning
    ensures CubieAt(c, p) in Group(c, anim, n, turning)
  {
    var k := n - 1;
    GridIndexBijective(k, p);
    var q := GridCell(k);
    GroupGrows(c, anim, k, q.x, q.y, q.z, turning);
    var g0 := Group(c, anim, k, turning);
    if GridIndex(p) < k {
      GroupComplete(c, anim, k, turning, p);
      assert CubieAt(c, p) in g0;
    } else {
      assert GridIndex(p) == k;
      assert GridCell(GridIndex(p)) == p;
    }
  }

  /** The partition of the layout: every cubie lands in the rotating group
      exactly when it turns with the animated face, and in the static group
      otherwise. */
  lemma LayoutPartition(c: Cube, anim: Option<RotationAnimation>, p: Coord)
    requires IsCubie(p)
    ensures CubieAt(c, p) in Group(c, anim, 27, true) <==> Turning(anim, p)
    ensures CubieAt(c, p) in Group(c, anim, 27, false) <==> !Turning(anim, p)
  {
    GridIndexBijective(0, p);
    GroupMembers(c, anim, 27, true);
    GroupMembers(c, anim, 27, false);
    if Turning(anim, p) {
      GroupComplete(c, anim, 27, true, p);
    } else {
      GroupComplete(c, anim, 27, false, p);
    }
  }

  /** Neither group holds a cubie twice. */
  lemma LayoutOnce(c: Cube, anim: Option<RotationAnimation>, turning: bool, i: int, j: int)
    requires 0 <= i < j < |Group(c, anim, 27, turning)|
    ensures Group(c, anim, 27, turning)[i].position != Group(c, anim, 27, turning)[j].position
  {
    GroupOrdered(c, anim, 27, turning);
  }

  /** Without a running animation no cubie rotates. */
  lemma {:induction false} NothingRotatesWhenIdle(c: Cube, anim: Option<RotationAnimation>, n: nat)
    requires anim.None? || !anim.value.isAnimating
    ensures Group(c, anim, n, true) == []
  {
    if n > 0 {
      NothingRotatesWhenIdle(c, anim, n - 1);
    }
  }

  /** The two groups together hold one cubie per cell visited, the core
      excepted: 26 cubies once the loops are done. */
  lemma {:induction false} GroupSizes(c: Cube, anim: Option<RotationAnimation>, n: nat)
    requires n <= 27
    ensures |Group(c, anim, n, true)| + |Group(c, anim, n, false)| == if n > 13 then n - 1 else n
  {
    if n > 0 {
      GroupSizes(c, anim, n - 1);
      GridIndexBijective(n - 1, Origin);
      assert GridCell(n - 1) == Origin <==> n - 1 == 13;
    }
  }
}
