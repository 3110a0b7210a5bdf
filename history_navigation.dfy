/** Jumping through the move history (src/lib/rubik/__tests__/historyNavigation.test.ts):
    the moves that take the cube from one recorded history point to another.
    Entry 0 of a history is the initial point and records no move. */
module HistoryNavigation {
  import opened CubeTypes
  import opened CubeLogic
  import opened CubeLaws
  import opened Algorithms

  /** One history entry: the move that led to this point, if any. */
  type Entry = Option<Move>

  /** The moves recorded in a stretch of history, in order, skipping entries
      without a move. */
  function Recorded(h: seq<Entry>): (r: seq<Move>)
    ensures |r| <= |h|
    decreases |h|
  {
    if h == [] then []
    else Recorded(h[..|h| - 1]) + match h[|h| - 1] case Some(m) => [m] case None => []
  }

  lemma {:induction false} RecordedAppend(a: seq<Entry>, b: seq<Entry>)
    ensures Recorded(a + b) == Recorded(a) + Recorded(b)
    decreases |b|
  {
    if b == [] {
      assert a + b == a;
    } else {
      var last := b[|b| - 1];
      assert (a + b)[..|a + b| - 1] == a + b[..|b| - 1];
      RecordedAppend(a, b[..|b| - 1]);
    }
  }

  /** A stretch in which every entry has a move records all of them. */
  lemma {:induction false} RecordedAllPresent(h: seq<Entry>)
    requires forall k | 0 <= k < |h| :: h[k].Some?
    ensures |Recorded(h)| == |h|
    ensures forall k | 0 <= k < |h| :: Recorded(h)[k] == h[k].value
    decreases |h|
  {
    if h != [] {
      RecordedAllPresent(h[..|h| - 1]);
    }
  }

  /** What the navigation from `current` to `target` yields: the recorded moves
      after `current` up to `target` when going forward, the inverses of the
      recorded moves after `target` up to `current`, last one first, when going
      back, and nothing when staying. */
  function Navigation(h: seq<Entry>, current: int, target: int): seq<Move>
    requires target < current ==> -1 <= target && current < |h|
    requires current < target ==> -1 <= current && target < |h|
  {
    if target < current then GetInverseMoves(Recorded(h[target + 1..current + 1]))
    else if current < target then Recorded(h[current + 1..target + 1])
    else []
  }

  /** buildNavigationMoves.  The source reads `history[i]` for every `i` it
      walks over, so those entries must exist. */
  method BuildNavigationMoves(current: int, target: int, h: seq<Entry>) returns (moves: seq<Move>)
    requires target < current ==> -1 <= target && current < |h|
    requires current < target ==> -1 <= current && target < |h|
    ensures moves == Navigation(h, current, target)
  {
    if target < current {
      moves := WalkBack(current, target, h);
    } else if current < target {
      moves := WalkForward(current, target, h);
    } else {
      moves := [];
    }
  }

  /** The backward branch of buildNavigationMoves: from `current` down to just
      after `target`, the inverse of each recorded move. */
  method WalkBack(current: int, target: int, h: seq<Entry>) returns (moves: seq<Move>)
    requires -1 <= target < current < |h|
    ensures moves == GetInverseMoves(Recorded(h[target + 1..current + 1]))
  {
    moves := [];
    var i := current;
    while i > target
      invariant target <= i <= current
      invariant moves == GetInverseMoves(Recorded(h[i + 1..current + 1]))
    {
      var entry := h[i];
      BackStep(h, i, current);
      if entry.Some? {
        moves := moves + [InverseMove(entry.value)];
      }
      i := i - 1;
    }
  }

  /** The forward branch of buildNavigationMoves: from just after `current` up
      to `target`, each recorded move. */
  method WalkForward(current: int, target: int, h: seq<Entry>) returns (moves: seq<Move>)
    requires -1 <= current < target < |h|
    ensures moves == Recorded(h[current + 1..target + 1])
  {
    moves := [];
    for i := current + 1 to target + 1
      invariant moves == Recorded(h[current + 1..i])
    {
      var entry := h[i];
      ForwardStep(h, current + 1, i);
      if entry.Some? {
        moves := moves + [entry.value];
      }
    }
  }

  /** Stepping back over entry `i` appends the inverse of its move, if any. */
  lemma BackStep(h: seq<Entry>, i: int, current: int)
    requires 0 <= i <= current < |h|
    ensures GetInverseMoves(Recorded(h[i..current + 1])) ==
      GetInverseMoves(Recorded(h[i + 1..current + 1])) + match h[i] case Some(m) => [InverseMove(m)] case None => []
  {
    var entry := h[i];
    assert h[i..current + 1] == [entry] + h[i + 1..current + 1];
    RecordedAppend([entry], h[i + 1..current + 1]);
    assert Recorded([entry]) == Recorded([]) + match entry case Some(m) => [m] case None => [];
    GetInverseMovesAppend(Recorded([entry]), Recorded(h[i + 1..current + 1]));
  }

  /** Stepping forward over entry `i` appends its move, if any. */
  lemma ForwardStep(h: seq<Entry>, lo: int, i: int)
    requires 0 <= lo <= i < |h|
    ensures Recorded(h[lo..i + 1]) == Recorded(h[lo..i]) + match h[i] case Some(m) => [m] case None => []
  {
    assert h[lo..i + 1][..i - lo] == h[lo..i];
  }

  /** Going back from `c` to `t` is the inverse list (getInverseMoves) of going
      forward from `t` to `c`. */
  lemma BackIsInverseOfForward(h: seq<Entry>, c: int, t: int)
    requires -1 <= t < c < |h|
    ensures Navigation(h, c, t) == GetInverseMoves(Navigation(h, t, c))
    ensures Navigation(h, t, c) == GetInverseMoves(Navigation(h, c, t))
  {
    GetInverseMovesInvolution(Navigation(h, t, c));
  }

  /** When every entry but the initial one records a move, navigating between
      two points yields one move per point crossed. */
  lemma NavigationLength(h: seq<Entry>, c: int, t: int)
    requires 0 <= c < |h| && 0 <= t < |h|
    requires forall k | 1 <= k < |h| :: h[k].Some?
    ensures |Navigation(h, c, t)| == if c <= t then t - c else c - t
  {
    if t < c {
      RecordedAllPresent(h[t + 1..c + 1]);
    } else if c < t {
      RecordedAllPresent(h[c + 1..t + 1]);
    }
  }

  /** The cube at history point `k`, starting from `start`. */
  function CubeAt(start: Cube, h: seq<Entry>, k: int): Cube
    requires -1 <= k < |h|
  {
    ApplyAll(start, Recorded(h[..k + 1]))
  }

  lemma CubeAtSplit(start: Cube, h: seq<Entry>, a: int, b: int)
    requires -1 <= a <= b < |h|
    ensures CubeAt(start, h, b) == ApplyAll(CubeAt(start, h, a), Recorded(h[a + 1..b + 1]))
  {
    assert h[..b + 1] == h[..a + 1] + h[a + 1..b + 1];
    RecordedAppend(h[..a + 1], h[a + 1..b + 1]);
    ApplyAllAppend(start, Recorded(h[..a + 1]), Recorded(h[a + 1..b + 1]));
  }

  /** Navigating from one history point to another, in either direction, turns
      the cube at the first point into the cube at the second. */
  lemma NavigationReachesTarget(start: Cube, h: seq<Entry>, c: int, t: int)
    requires -1 <= c < |h| && -1 <= t < |h|
    ensures ApplyAll(CubeAt(start, h, c), Navigation(h, c, t)) == CubeAt(start, h, t)
  {
    if t < c {
      var a, back := CubeAt(start, h, t), Recorded(h[t + 1..c + 1]);
      assert Navigation(h, c, t) == GetInverseMoves(back);
      assert CubeAt(start, h, c) == ApplyAll(a, back) by {
        CubeAtSplit(start, h, t, c);
      }
      ApplyAllInverse(a, back);
    } else if c < t {
      assert Navigation(h, c, t) == Recorded(h[c + 1..t + 1]);
      CubeAtSplit(start, h, c, t);
    } else {
      assert Navigation(h, c, t) == [];
    }
  }
  /** The history used by the navigation tests: the initial point, then
      R U R' U' F B2 L' D. */
  const SampleHistory: seq<Entry> := [None,
    Some(Move(Face.R, Clockwise)), Some(Move(Face.U, Clockwise)), Some(Move(Face.R, Prime)), Some(Move(Face.U, Prime)),
    Some(Move(Face.F, Clockwise)), Some(Move(Face.B, Double)), Some(Move(Face.L, Prime)), Some(Move(Face.D, Clockwise))]

  /** From point 8 back to point 5: D', L, B2; from 0 forward to 3: R, U, R'. */
  lemma SampleNavigation()
    ensures Navigation(SampleHistory, 8, 5) == [Move(Face.D, Prime), Move(Face.L, Clockwise), Move(Face.B, Double)]
    ensures Navigation(SampleHistory, 0, 3) == [Move(Face.R, Clockwise), Move(Face.U, Clockwise), Move(Face.R, Prime)]
  {
    var back := SampleHistory[6..9];
    RecordedAllPresent(back);
    assert Recorded(back) == [Move(Face.B, Double), Move(Face.L, Prime), Move(Face.D, Clockwise)];
    var fwd := SampleHistory[1..4];
    RecordedAllPresent(fwd);
    assert Recorded(fwd) == [Move(Face.R, Clockwise), Move(Face.U, Clockwise), Move(Face.R, Prime)];
  }
}
