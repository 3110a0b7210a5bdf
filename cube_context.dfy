/** The playback state machine of src/contexts/CubeContext.tsx: the provider's
    state slots become fields of one object and each action a method that
    replaces them, in the order the source's setters run. */
module CubeContext {
  import opened CubeTypes
  import opened CubeLogic
  import opened CubeLaws
  import opened Algorithms

  /** DEFAULT_ANIMATION_SPEED, in milliseconds per move. */
  const DefaultAnimationSpeed: int := 500

  datatype AnimationState = AnimationState(isPlaying: bool, currentMoveIndex: int, speed: int)

  /** The cube is a scramble of `n` moves of the solved cube, as
      getScrambledCube(n) produces. */
  ghost predicate ScrambledBy(c: Cube, n: nat)
  {
    exists s: seq<Move> {:trigger ApplyAll(SolvedCube, s)} :: |s| == n && NoFaceTwice(s) && c == ApplyAll(SolvedCube, s)
  }

  /** The cube of getScrambledCube(n); the provider drops the scramble itself. */
  method ScrambledCube(n: nat) returns (cube: Cube)
    ensures ScrambledBy(cube, n)
  {
    var scramble;
    cube, scramble := GetScrambledCube(n);
  }

  /** Performing move `k` of an algorithm and then the rest of it is
      performing the algorithm from move `k`. */
  lemma ReplayStep(c: Cube, done: seq<Move>, ms: seq<Move>, k: int)
    requires 0 <= k < |ms|
    ensures (done + [ms[k]]) + ms[k + 1..] == done + ms[k..]
    ensures ApplyAll(Apply(c, ms[k]), ms[k + 1..]) == ApplyAll(c, ms[k..])
  {
    assert ms[k..] == [ms[k]] + ms[k + 1..];
    ApplyAllAppend(c, [ms[k]], ms[k + 1..]);
    assert ApplyAll(c, [ms[k]]) == Apply(ApplyAll(c, []), ms[k]);
  }

  class CubeProvider {
    var cubeState: Cube
    var selectedAlgorithm: Option<Algorithm>
    var currentMoves: seq<Move>
    var executedMoves: seq<Move>
    var animationState: AnimationState
    /** The cube as it was when `executedMoves` was last emptied. */
    ghost var base: Cube

    /** The position in the algorithm stays within it, and the cube is the base
        state with the executed moves applied. */
    ghost predicate Valid()
      reads this
    {
      0 <= animationState.currentMoveIndex <= |currentMoves| &&
      cubeState == ApplyAll(base, executedMoves)
    }

    /** The initial state: a 15-move scramble, the first catalogued algorithm
        selected, nothing executed, paused at move 0 at the default speed. */
    constructor()
      ensures Valid()
      ensures ScrambledBy(cubeState, 15)
      ensures selectedAlgorithm == Some(AllAlgorithms[0]) && currentMoves == AllAlgorithms[0].moves
      ensures executedMoves == [] && base == cubeState
      ensures animationState == AnimationState(false, 0, DefaultAnimationSpeed)
    {
      var cube := ScrambledCube(15);
      cubeState := cube;
      selectedAlgorithm := Some(AllAlgorithms[0]);
      currentMoves := AllAlgorithms[0].moves;
      executedMoves := [];
      animationState := AnimationState(false, 0, DefaultAnimationSpeed);
      base := cube;
    }

    /** selectAlgorithm: load the algorithm's moves and stop at its start; the
        cube and the executed moves are untouched. */
    method SelectAlgorithm(algorithm: Algorithm)
      requires Valid()
      modifies this
      ensures Valid()
      ensures selectedAlgorithm == Some(algorithm) && currentMoves == algorithm.moves
      ensures animationState == old(animationState).(currentMoveIndex := 0, isPlaying := false)
      ensures cubeState == old(cubeState) && executedMoves == old(executedMoves) && base == old(base)
    {
      selectedAlgorithm := Some(algorithm);
      currentMoves := algorithm.moves;
      animationState := animationState.(currentMoveIndex := 0, isPlaying := false);
    }

    /** The three updates scrambleCube and resetCube share: a new cube, an
        empty history, stopped at move 0. */
    method StartFrom(cube: Cube)
      modifies this
      ensures Valid()
      ensures cubeState == cube && executedMoves == [] && base == cube
      ensures animationState == old(animationState).(currentMoveIndex := 0, isPlaying := false)
      ensures selectedAlgorithm == old(selectedAlgorithm) && currentMoves == old(currentMoves)
    {
      cubeState := cube;
      executedMoves := [];
      animationState := animationState.(currentMoveIndex := 0, isPlaying := false);
      base := cube;
    }

    /** scrambleCube: a fresh 15-move scramble; history cleared, stopped at move 0. */
    method ScrambleCube()
      requires Valid()
      modifies this
      ensures Valid()
      ensures ScrambledBy(cubeState, 15)
      ensures executedMoves == [] && base == cubeState
      ensures animationState == old(animationState).(currentMoveIndex := 0, isPlaying := false)
      ensures selectedAlgorithm == old(selectedAlgorithm) && currentMoves == old(currentMoves)
    {
      var cube := ScrambledCube(15);
      StartFrom(cube);
    }

    /** resetCube: a copy of the solved cube; history cleared, stopped at move 0. */
    method ResetCube()
      requires Valid()
      modifies this
      ensures Valid()
      ensures cubeState == SolvedCube && executedMoves == [] && base == SolvedCube
      ensures animationState == old(animationState).(currentMoveIndex := 0, isPlaying := false)
      ensures selectedAlgorithm == old(selectedAlgorithm) && currentMoves == old(currentMoves)
    {
      StartFrom(SolvedCube);
    }

    /** executeMove: turn the cube and record the move; nothing else changes. */
    method ExecuteMove(move: Move)
      requires Valid()
      modifies this
      ensures Valid()
      ensures cubeState == Apply(old(cubeState), move)
      ensures executedMoves == old(executedMoves) + [move]
      ensures animationState == old(animationState) && base == old(base)
      ensures selectedAlgorithm == old(selectedAlgorithm) && currentMoves == old(currentMoves)
    {
      var next := ApplyMove(cubeState, move);
      cubeState := next;
      executedMoves := executedMoves + [move];
      assert (executedMoves)[..|executedMoves| - 1] == old(executedMoves);
    }

    /** executeNextMove: perform the algorithm's next move and advance, or stop
        playing when the algorithm is done. */
    method ExecuteNextMove()
      requires Valid()
      modifies this
      ensures Valid()
      ensures old(animationState.currentMoveIndex) < |currentMoves| ==>
        cubeState == Apply(old(cubeState), currentMoves[old(animationState.currentMoveIndex)]) &&
        executedMoves == old(executedMoves) + [currentMoves[old(animationState.currentMoveIndex)]] &&
        animationState == old(animationState).(currentMoveIndex := old(animationState.currentMoveIndex) + 1)
      ensures old(animationState.currentMoveIndex) >= |currentMoves| ==>
        cubeState == old(cubeState) && executedMoves == old(executedMoves) &&
        animationState == old(animationState).(isPlaying := false)
      ensures base == old(base) && selectedAlgorithm == old(selectedAlgorithm) && currentMoves == old(currentMoves)
    {
      if animationState.currentMoveIndex < |currentMoves| {
        var move := currentMoves[animationState.currentMoveIndex];
        ExecuteMove(move);
        animationState := animationState.(currentMoveIndex := animationState.currentMoveIndex + 1);
      } else {
        animationState := animationState.(isPlaying := false);
      }
    }

    /** play: restart from move 0 when the algorithm is done, and start playing. */
    method Play()
      requires Valid()
      modifies this
      ensures Valid()
      ensures animationState.isPlaying && animationState.speed == old(animationState.speed)
      ensures animationState.currentMoveIndex ==
        if old(animationState.currentMoveIndex) >= |currentMoves| then 0 else old(animationState.currentMoveIndex)
      ensures cubeState == old(cubeState) && executedMoves == old(executedMoves) && base == old(base)
      ensures selectedAlgorithm == old(selectedAlgorithm) && currentMoves == old(currentMoves)
    {
      if animationState.currentMoveIndex >= |currentMoves| {
        animationState := animationState.(currentMoveIndex := 0);
      }
      animationState := animationState.(isPlaying := true);
    }

    /** pause: stop playing; nothing else changes. */
    method Pause()
      requires Valid()
      modifies this
      ensures Valid()
      ensures animationState == old(animationState).(isPlaying := false)
      ensures cubeState == old(cubeState) && executedMoves == old(executedMoves) && base == old(base)
      ensures selectedAlgorithm == old(selectedAlgorithm) && currentMoves == old(currentMoves)
    {
      animationState := animationState.(isPlaying := false);
    }

    /** rewind: apply the inverse of everything executed, clear the history and
        stop at move 0.  The cube is back where it was when the history was
        last emptied. */
    method Rewind()
      requires Valid()
      modifies this
      ensures Valid()
      ensures cubeState == ApplyAll(old(cubeState), GetInverseMoves(old(executedMoves)))
      ensures cubeState == old(base) && base == old(base)
      ensures executedMoves == []
      ensures animationState == old(animationState).(currentMoveIndex := 0, isPlaying := false)
      ensures selectedAlgorithm == old(selectedAlgorithm) && currentMoves == old(currentMoves)
    {
      var inverseMoves := GetInverseMoves(executedMoves);
      var newState := ApplyMoves(cubeState, inverseMoves);
      ApplyAllInverse(base, executedMoves);
      cubeState := newState;
      executedMoves := [];
      animationState := animationState.(currentMoveIndex := 0, isPlaying := false);
    }

    /** setSpeed: change the delay between moves; nothing else changes. */
    method SetSpeed(speed: int)
      requires Valid()
      modifies this
      ensures Valid()
      ensures animationState == old(animationState).(speed := speed)
      ensures cubeState == old(cubeState) && executedMoves == old(executedMoves) && base == old(base)
      ensures selectedAlgorithm == old(selectedAlgorithm) && currentMoves == old(currentMoves)
    {
      animationState := animationState.(speed := speed);
    }

    /** The animation effect: while playing, a timer runs executeNextMove and
        the changed state re-runs the effect (the delay itself is not
        modelled).  Playing performs the rest of the algorithm, in order, and
        then stops at its end. */
    method Animate()
      requires Valid()
      modifies this
      ensures Valid()
      ensures base == old(base) && selectedAlgorithm == old(selectedAlgorithm) && currentMoves == old(currentMoves)
      ensures old(animationState.isPlaying) ==>
        executedMoves == old(executedMoves) + currentMoves[old(animationState.currentMoveIndex)..] &&
        cubeState == ApplyAll(old(cubeState), currentMoves[old(animationState.currentMoveIndex)..]) &&
        animationState == old(animationState).(currentMoveIndex := |currentMoves|, isPlaying := false)
      ensures !old(animationState.isPlaying) ==>
        cubeState == old(cubeState) && executedMoves == old(executedMoves) && animationState == old(animationState)
      decreases |currentMoves| - animationState.currentMoveIndex, animationState.isPlaying
    {
      if !animationState.isPlaying {
        return;
      }
      ghost var k := animationState.currentMoveIndex;
      ghost var c0 := cubeState;
      ghost var e0 := executedMoves;
      ExecuteNextMove();
      Animate();
      if k < |currentMoves| {
        ReplayStep(c0, e0, currentMoves, k);
      } else {
        assert currentMoves[k..] == [];
      }
    }
  }
}
