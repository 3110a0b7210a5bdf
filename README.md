# cuborubik core, modelled in Dafny

cuborubik is a web app for learning the 3×3 Rubik's cube. This project models its cube logic and the state it keeps around it:

- **the cube state**: six faces of nine stickers, indices 0–8 row by row;
- **moves**: `U D F B L R`, each plain, primed (`'`) or doubled (`2`);
- **`applyMove`**: clones the state, rotates the turned face's own stickers, then shifts the four neighbouring edge strips once, or twice for a half turn;
- **the move-list utilities**: `applyMoves`, `generateScramble`, `getScrambledCube` and `isSolved`;
- **the algorithm catalogue and its helpers**: `parseAlgorithmString` and `getInverseMoves`;
- **the tutorial's flat step index**;
- **the history navigation helper** exercised by the navigation tests;
- **the provider object holding the app's cube state**: its cube, executed moves and playback state, with the actions that update them;
- **the integer part of the 3D view**: which cubie shows which sticker, and how the cubies split into a rotating and a static group.

| file | module | what |
|---|---|---|
| `cube_types.dfy` | `CubeTypes` | colours, faces, moves and their symbols, the value `Cube` |
| `cube_logic.dfy` | `CubeLogic` | face rotations, `rotateEdges` as a declarative ring of four strips, `Apply`/`ApplyAll` specifications, the in-place `CubeArrays` class (the clone `applyMove` mutates), the methods `ApplyMove`, `ApplyMoves`, `GenerateScramble`, `GetScrambledCube`, `IsSolved` |
| `cube_laws.dfy` | `CubeLaws` | inverses, orders, frame and centre laws of moves |
| `cube_positions.dfy` | `CubePositions` | a move as a permutation of the 54 sticker positions |
| `cube_sexy.dfy` | `SexyMoveOrder` | R U R' U' has order six on every cube |
| `algorithms.dfy` | `Algorithms` | `trim`/`split(/\s+/)`, token validity, parsing, inverse lists, the catalogue |
| `tutorial.dfy` | `Tutorial` | total step count and global-index lookup |
| `history_navigation.dfy` | `HistoryNavigation` | `buildNavigationMoves` and what the navigation does to the cube |
| `cube_context.dfy` | `CubeContext` | the `CubeProvider` state as a class with one method per action |
| `cube3d.dfy` | `Cube3D` | layer membership, sticker indexing, cubie layout |

Every in-place operation is a method proved against a specification function:

- `CubeArrays.RotateEdgesX` against `EdgesStep`;
- `ApplyMove` against `Apply`;
- `ApplyMoves` against `ApplyAll`;
- `BuildNavigationMoves` against `Navigation`;
- `GetStepByGlobalIndex` against `AllSteps`;
- `LayoutCubies` against `Group`.

The laws are then proved about those functions. They include:

- inverse moves undo moves;
- a half turn is two quarter turns;
- quarter turns have order four;
- the sexy move has order six;
- centres never move;
- parsing recovers the joined symbols;
- navigation reaches the target history point;
- every sticker a face's moves change is drawn on a cubie of that face's layer, and so is the sticker it comes from.

## Model

| member | source | states |
|---|---|---|
| CubeTypes.With | src/lib/rubik/cubeLogic.ts:52-58 | the replaced face holds the new stickers; every other face is unchanged |
| CubeTypes.Symbol | src/lib/rubik/types.ts:7-13 | a move's symbol is one or two characters and starts with its face letter |
| CubeTypes.SymbolDecodes | src/lib/rubik/cubeLogic.ts:47-49 | removing the first `'` and the first `2` leaves exactly the face letter; the symbol contains `'` iff the move is primed and `2` iff it is a half turn |
| CubeTypes.SymbolInjective | src/lib/rubik/types.ts:7-13 | the 18 move symbols are pairwise distinct |
| CubeLogic.RotateFaceCW | src/lib/rubik/cubeLogic.ts:17-23 | the centre sticker stays in place |
| CubeLogic.RotateFaceCCW | src/lib/rubik/cubeLogic.ts:26-32 | the centre sticker stays in place |
| CubeLogic.RotateFace180 | src/lib/rubik/cubeLogic.ts:35-41 | the centre sticker stays in place |
| CubeLogic.RingOf | src/lib/rubik/cubeLogic.ts:70-170 | the four strips each face's rotateEdges case cycles; `RingOfOk` proves them well formed and `EdgesStepTableU`..`R` prove their steps equal to the literal cases |
| CubeLogic.EdgesStep | src/lib/rubik/cubeLogic.ts:70-170 | one call of rotateEdges(face, dir); `EdgesStepIsStep` proves it is one ring step, `EdgesStepRoundTrip` that the two directions undo each other, `EdgesStepFour` that four clockwise calls are the identity |
| CubeLogic.Apply | src/lib/rubik/cubeLogic.ts:44-68 | the state applyMove returns; `ApplyQuarterRoundTrip`, `ApplyDoubleTwice` and `ApplyQuarterFour` give its inverses and orders, and `ApplyAt` shows it permutes the 54 stickers |
| CubeLogic.ApplyAll | src/lib/rubik/cubeLogic.ts:173-179 | the state applyMoves returns, the moves applied first to last; `ApplyAllAppend` and `ApplyAllInverse` characterise it |
| CubeLogic.CycleCwWrites | src/lib/rubik/cubeLogic.ts:76-80 | a clockwise ring step is four strip writes in the source's order: s0 takes s1's old stickers, s1 takes s2's, s2 takes s3's, s3 takes the saved stickers of s0 |
| CubeLogic.CycleCcwWrites | src/lib/rubik/cubeLogic.ts:82-86 | a counter-clockwise ring step is four strip writes: s1 takes s0's old stickers, s2 takes s1's, s3 takes s2's, s0 takes s3's |
| CubeLogic.CycleCwGet | src/lib/rubik/cubeLogic.ts:70-170 | after the four clockwise writes, each ring face holds its strip overwritten by the next strip's old stickers; every other face is unchanged |
| CubeLogic.CycleCcwGet | src/lib/rubik/cubeLogic.ts:70-170 | after the four counter-clockwise writes, each ring face holds its strip overwritten by the previous strip's old stickers; every other face is unchanged |
| CubeLogic.CycleCwFaces | src/lib/rubik/cubeLogic.ts:70-170 | the clockwise writes are one clockwise step of a well-formed ring (`CwStep`) |
| CubeLogic.CycleCcwFaces | src/lib/rubik/cubeLogic.ts:70-170 | the counter-clockwise writes are one counter-clockwise step of a well-formed ring (`CcwStep`) |
| CubeLogic.EdgesStepTableU | src/lib/rubik/cubeLogic.ts:74-88 | the U ring step in both directions equals the source's literal sticker assignments for `U` |
| CubeLogic.EdgesStepTableD | src/lib/rubik/cubeLogic.ts:90-104 | the same for `D` |
| CubeLogic.EdgesStepTableF | src/lib/rubik/cubeLogic.ts:106-120 | the same for `F` |
| CubeLogic.EdgesStepTableB | src/lib/rubik/cubeLogic.ts:122-136 | the same for `B` |
| CubeLogic.EdgesStepTableL | src/lib/rubik/cubeLogic.ts:138-152 | the same for `L` |
| CubeLogic.EdgesStepTableR | src/lib/rubik/cubeLogic.ts:154-168 | the same for `R` |
| CubeLogic.CubeArrays.Clone | src/lib/rubik/cubeLogic.ts:5-14 | cloneCubeState: six fresh arrays holding the given state |
| CubeLogic.CopyFace | src/lib/rubik/cubeLogic.ts:7-12 | `[...face]`: a fresh array holding the face's stickers |
| CubeLogic.CubeArrays.SetFace | src/lib/rubik/cubeLogic.ts:52-58 | `newState[face] = s`: the face refers to a fresh array holding `s`, and the other five arrays are unchanged |
| CubeLogic.CubeArrays.RotateEdges | src/lib/rubik/cubeLogic.ts:70-170 | the arrays afterwards hold one ring step of the face in the given direction, and stay six distinct arrays of nine |
| CubeLogic.CubeArrays.RotateEdgesU | src/lib/rubik/cubeLogic.ts:74-88 | the in-place assignments for `U` leave the arrays holding the U ring step |
| CubeLogic.CubeArrays.RotateEdgesD | src/lib/rubik/cubeLogic.ts:90-104 | the same for `D` |
| CubeLogic.CubeArrays.RotateEdgesF | src/lib/rubik/cubeLogic.ts:106-120 | the same for `F` |
| CubeLogic.CubeArrays.RotateEdgesB | src/lib/rubik/cubeLogic.ts:122-136 | the same for `B` |
| CubeLogic.CubeArrays.RotateEdgesL | src/lib/rubik/cubeLogic.ts:138-152 | the same for `L` |
| CubeLogic.CubeArrays.RotateEdgesR | src/lib/rubik/cubeLogic.ts:154-168 | the same for `R` |
| CubeLogic.CopyStrip | src/lib/rubik/cubeLogic.ts:77 | three assignments from one face's array to another's change exactly those three stickers |
| CubeLogic.WriteStrip | src/lib/rubik/cubeLogic.ts:80 | three assignments from the saved buffer change exactly those three stickers |
| CubeLogic.CubeArrays.RotateEdgesTimes | src/lib/rubik/cubeLogic.ts:61-65 | the loop of applyMove: after `times` calls of rotateEdges the arrays hold `times` ring steps of the original state |
| CubeLogic.ApplyMove | src/lib/rubik/cubeLogic.ts:44-68 | the returned state is `Apply(state, move)`: the face rotated by the turn, then the edge step once in the turn's direction, or twice clockwise for a half turn |
| CubeLogic.ApplyMoves | src/lib/rubik/cubeLogic.ts:173-179 | the result is the moves applied first to last (`ApplyAll`) |
| CubeLogic.GenerateScramble | src/lib/rubik/cubeLogic.ts:182-201 | the scramble has `length` moves (none when `length` is negative), and no two consecutive moves turn the same face |
| CubeLogic.GetScrambledCube | src/lib/rubik/cubeLogic.ts:204-208 | the cube is the solved cube with the returned scramble applied, and the scramble has the requested length without repeated faces |
| CubeLogic.IsSolved | src/lib/rubik/cubeLogic.ts:211-220 | true exactly when every face's nine stickers have its centre's colour |
| CubeLaws.RotateFaceRoundTrip | src/lib/rubik/cubeLogic.ts:17-32 | rotateFaceCCW undoes rotateFaceCW and the other way round |
| CubeLaws.RotateFaceHalf | src/lib/rubik/cubeLogic.ts:17-41 | two clockwise rotations are rotateFace180, and rotateFace180 is its own inverse |
| CubeLaws.UpdRestore | src/lib/rubik/cubeLogic.ts:76-80 | writing back a strip's saved stickers restores the face |
| CubeLaws.ReadUpd | src/lib/rubik/cubeLogic.ts:76-80 | reading a strip just written gives the written stickers |
| CubeLaws.RingOfOk | src/lib/rubik/cubeLogic.ts:70-170 | each face's ring has four strips on four distinct neighbouring faces, none of them the turned face, each naming three distinct non-centre stickers |
| CubeLaws.CcwStepUndoesCw | src/lib/rubik/cubeLogic.ts:70-170 | for any well-formed ring, a counter-clockwise step undoes a clockwise one |
| CubeLaws.CwStepUndoesCcw | src/lib/rubik/cubeLogic.ts:70-170 | for any well-formed ring, a clockwise step undoes a counter-clockwise one |
| CubeLaws.CwStepTwice | src/lib/rubik/cubeLogic.ts:61-65 | two clockwise steps swap opposite strips |
| CubeLaws.HalfStepTwice | src/lib/rubik/cubeLogic.ts:61-65 | swapping opposite strips twice restores the cube |
| CubeLaws.EdgesStepIsStep | src/lib/rubik/cubeLogic.ts:70-170 | rotateEdges(face, dir) is one step of that face's ring in that direction |
| CubeLaws.EdgesStepRoundTrip | src/lib/rubik/cubeLogic.ts:70-170 | for every face, rotateEdges 'ccw' undoes 'cw' and 'cw' undoes 'ccw' |
| CubeLaws.EdgesStepFour | src/lib/rubik/cubeLogic.ts:70-170 | four clockwise calls of rotateEdges restore the cube |
| CubeLaws.CwStepFrame | src/lib/rubik/cubeLogic.ts:52-65 | a clockwise ring step commutes with replacing a face outside the ring |
| CubeLaws.CcwStepFrame | src/lib/rubik/cubeLogic.ts:52-65 | a counter-clockwise ring step commutes with replacing a face outside the ring |
| CubeLaws.EdgesStepFrame | src/lib/rubik/cubeLogic.ts:52-65 | the edge step leaves the turned face as it is, so it commutes with rotating that face's own stickers |
| CubeLaws.StepCentres | src/lib/rubik/cubeLogic.ts:70-170 | a ring step keeps every centre sticker |
| CubeLaws.UpdCentre | src/lib/rubik/cubeLogic.ts:70-170 | no strip write touches index 4 |
| CubeLaws.EdgesStepCentres | src/lib/rubik/cubeLogic.ts:70-170 | rotateEdges keeps every face's centre sticker |
| CubeLaws.ApplyQuarterForm | src/lib/rubik/cubeLogic.ts:44-68 | a quarter turn is the edge step of the old cube, with the turned face's stickers replaced by their rotation |
| CubeLaws.ApplyDoubleForm | src/lib/rubik/cubeLogic.ts:44-68 | a half turn is two clockwise edge steps of the old cube, with the turned face replaced by its half rotation |
| CubeLaws.ApplyQuarterRoundTrip | src/lib/rubik/__tests__/cubeLogic.test.ts:25-30 | X followed by X' gives back every state, and so does X' followed by X |
| CubeLaws.ApplyDoubleIsTwoQuarters | src/lib/rubik/cubeLogic.ts:52-65 | applyMove with X2 equals applyMove with X done twice |
| CubeLaws.EdgesTwiceFrame | src/lib/rubik/cubeLogic.ts:52-65 | two clockwise edge steps commute with replacing the turned face |
| CubeLaws.ApplyDoubleTwice | src/lib/rubik/__tests__/cubeLogic.test.ts:32-37 | X2 followed by X2 gives back every state |
| CubeLaws.ApplyQuarterFour | src/lib/rubik/cubeLogic.ts:44-68 | four clockwise quarter turns of a face give back every state |
| CubeLaws.ApplyKeepsCentres | src/lib/rubik/cubeLogic.ts:44-68 | no move changes any face's centre sticker, which isSolved uses as the face's colour |
| CubeLaws.ApplyAllAppend | src/lib/rubik/cubeLogic.ts:173-179 | applying `a + b` is applying `a` and then `b` |
| CubeLaws.ApplyAllKeepsCentres | src/lib/rubik/cubeLogic.ts:173-179 | no move list changes any centre sticker |
| CubeLaws.SolvedCubeIsSolved | src/lib/rubik/__tests__/cubeLogic.test.ts:14-16 | every face of SOLVED_CUBE is one colour |
| CubeLaws.OneTurnUnsolves | src/lib/rubik/__tests__/cubeLogic.test.ts:18-21 | on any cube whose U and F faces are each a single colour, different from each other, one R turn leaves U not uniform |
| CubeLaws.SolvedCubeUnsolvedByOneTurn | src/lib/rubik/__tests__/cubeLogic.test.ts:18-21 | applyMove(SOLVED_CUBE, 'R') is not solved: its U face is not uniform |
| CubePositions.StepAt | src/lib/rubik/cubeLogic.ts:70-170 | after a ring step each position holds the sticker from its ring source position |
| CubePositions.RingSrcInverse | src/lib/rubik/cubeLogic.ts:70-170 | stepping back undoes stepping forward, position by position, and no sticker moves onto or off the turned face |
| CubePositions.EdgesStepAt | src/lib/rubik/cubeLogic.ts:70-170 | rotateEdges moves each sticker to the next slot of its ring and leaves all other stickers in place |
| CubePositions.FaceTurnedAt | src/lib/rubik/cubeLogic.ts:17-41 | each face rotation takes index `i`'s sticker from index `FaceSrc(t, i)` |
| CubePositions.FaceSrcDst | src/lib/rubik/cubeLogic.ts:17-41 | the index maps of the face rotations are bijections on 0..8 |
| CubePositions.ApplyAt | src/lib/rubik/cubeLogic.ts:44-68 | applyMove only permutes stickers: each position of the result holds the input's sticker at `Src(m, p)` |
| CubePositions.SrcBijective | src/lib/rubik/cubeLogic.ts:44-68 | `Src(m, ·)` is a bijection of the 54 positions, with inverse `Dst(m, ·)` |
| CubePositions.SrcInjective | src/lib/rubik/cubeLogic.ts:44-68 | no two positions take their sticker from the same place |
| CubePositions.ApplyAllAt | src/lib/rubik/cubeLogic.ts:173-179 | applyMoves permutes stickers by the composition of its moves' maps |
| SexyMoveOrder.SexySrcTab | src/lib/rubik/__tests__/cubeLogic.test.ts:39-46 | the position map of R U R' U' equals its written-out table, and that table applied six times is the identity |
| SexyMoveOrder.SexyAt | src/lib/rubik/__tests__/cubeLogic.test.ts:39-46 | one sexy move moves each sticker as its table says |
| SexyMoveOrder.SexyMoveSixTimes | src/lib/rubik/__tests__/cubeLogic.test.ts:39-46 | applying R U R' U' six times returns every cube state, the solved one included, to itself |
| SexyMoveOrder.SexyMoveIsCatalogued | src/lib/rubik/algorithms.ts:3-12 | the catalogue's first algorithm, "sexy-move", is R U R' U' |
| Algorithms.MoveOf | src/lib/rubik/algorithms.ts:82-86 | `token as Move`: the move of a valid token has that token as its symbol |
| Algorithms.IsValidMove | src/lib/rubik/algorithms.ts:91-101 | `validMoves.includes(move)` over the 18 listed symbols; `IsValidMoveIff` proves it holds exactly for the symbols of moves |
| Algorithms.SymbolListed | src/lib/rubik/algorithms.ts:91-101 | every move's symbol is on the list of valid moves |
| Algorithms.IsValidMoveIff | src/lib/rubik/algorithms.ts:91-101 | a token is valid exactly when it is the symbol of some move |
| Algorithms.DropWs | src/lib/rubik/algorithms.ts:80 | without its leading white space the string is no longer, strictly shorter when it started with white space, does not start with white space, and ends as before |
| Algorithms.TrimEnd | src/lib/rubik/algorithms.ts:80 | trimming the end keeps a prefix that does not end in white space, and what was removed is all white space |
| Algorithms.TakeWord | src/lib/rubik/algorithms.ts:80 | the first word is the longest white-space-free prefix |
| Algorithms.Trim | src/lib/rubik/algorithms.ts:80 | `trim()`: leading and trailing white space removed (`DropWs`, `TrimEnd`); `TokensAreWords` uses it |
| Algorithms.Split | src/lib/rubik/algorithms.ts:80 | `split(/\s+/)`: the pieces between maximal white-space runs, one empty piece for the empty string; `SplitTrimmed` and `TokensAreWords` prove it gives the words |
| Algorithms.Words | src/lib/rubik/algorithms.ts:80 | every word of the reference reading is non-empty and free of white space |
| Algorithms.DropWsEmpty | src/lib/rubik/algorithms.ts:80 | dropping leading white space leaves nothing iff the string is all white space |
| Algorithms.SplitTrimmed | src/lib/rubik/algorithms.ts:80 | `split(/\s+/)` of a string with no white space at either end gives its words, or `[""]` for the empty string |
| Algorithms.TokensAreWords | src/lib/rubik/algorithms.ts:80 | `trim().split(/\s+/)` gives exactly the words, or a single empty token when there are none |
| Algorithms.WhitespaceOnlyHasNoWords | src/lib/rubik/algorithms.ts:80 | a string of white space only has no words |
| Algorithms.WordsIgnoreOuterWs | src/lib/rubik/algorithms.ts:80 | leading and trailing white space change no word |
| Algorithms.WordsSeparated | src/lib/rubik/algorithms.ts:80 | any non-empty run of white space, newlines included, separates the words on its two sides |
| Algorithms.ValidOnly | src/lib/rubik/algorithms.ts:82-86 | the filter keeps only valid tokens, and keeps all of them when all are valid |
| Algorithms.ValidTokensAreValidWords | src/lib/rubik/algorithms.ts:78-89 | filtering the split tokens gives the same list as filtering the words |
| Algorithms.ParseAlgorithmString | src/lib/rubik/algorithms.ts:78-89 | the symbols of the parsed moves are exactly the valid words of the input, in input order |
| Algorithms.WordsJoin | src/lib/rubik/algorithms.ts:80 | splitting words joined by single spaces gives the words back |
| Algorithms.ReparseJoined | src/lib/rubik/algorithms.ts:78-89 | parsing the space-joined symbols of any move list gives back exactly those symbols |
| Algorithms.SymbolsInjective | src/lib/rubik/types.ts:7-13 | move lists with equal symbol lists are equal |
| Algorithms.InverseSymbol | src/lib/rubik/algorithms.ts:104-111 | the per-move string step of getInverseMoves; `InverseSymbolAgrees` proves it is the symbol of `InverseMove` |
| Algorithms.InverseMove | src/lib/rubik/algorithms.ts:104-111 | X' to X, X2 to X2, X to X'; `ApplyInverseMove` proves it undoes the move on every cube |
| Algorithms.InverseSymbolAgrees | src/lib/rubik/algorithms.ts:104-111 | the string step (drop a trailing `'`, keep a trailing `2`, else append `'`) is the symbol of the inverse move |
| Algorithms.ApplyInverseMove | src/lib/rubik/algorithms.ts:104-111 | the inverse move undoes the move on every cube state |
| Algorithms.GetInverseMoves | src/lib/rubik/algorithms.ts:103-113 | position `i` of the result is the inverse of move `n-1-i`, and the length is unchanged |
| Algorithms.GetInverseMovesInvolution | src/lib/rubik/algorithms.ts:103-113 | inverting twice gives the list back |
| Algorithms.GetInverseMovesAppend | src/lib/rubik/algorithms.ts:103-113 | the inverse of `a + b` is the inverse of `b` followed by the inverse of `a` |
| Algorithms.ApplyAllInverse | src/lib/rubik/__tests__/cubeLogic.test.ts:50-59 | applying a list and then getInverseMoves of it gives back every cube state |
| Algorithms.Moves | src/lib/rubik/algorithms.ts:3-76 | the moves built from a catalogue entry's valid symbols have exactly those symbols, in order |
| Algorithms.DoubleSuneIsSuneTwice | src/lib/rubik/algorithms.ts:67-75 | the Double Sune's moves are the Sune's moves twice |
| Tutorial.AllSteps | src/lib/rubik/tutorial.ts:199-201 | the flat list of all steps has getTotalTutorialSteps() entries |
| Tutorial.TotalSteps | src/lib/rubik/tutorial.ts:199-201 | getTotalTutorialSteps: the phases' step counts summed; `TotalStepsNext`, `TotalStepsMonotone` and `AllSteps` relate it to the flat step list |
| Tutorial.TotalStepsNext | src/lib/rubik/tutorial.ts:199-201 | the running total grows by each phase's step count |
| Tutorial.TotalStepsMonotone | src/lib/rubik/tutorial.ts:199-201 | the number of steps before a phase grows with the phase |
| Tutorial.AllStepsAt | src/lib/rubik/tutorial.ts:203-215 | each (phase, step) pair sits at its global index in the flat list, below the total |
| Tutorial.FlatIndexInjective | src/lib/rubik/tutorial.ts:203-215 | distinct (phase, step) pairs have distinct global indices |
| Tutorial.GetStepByGlobalIndex | src/lib/rubik/tutorial.ts:203-215 | a result comes back iff `0 <= index < total`; it is the valid pair at that global index, with that phase and step |
| Tutorial.FirstStepAtZero | src/lib/rubik/__tests__/tutorial.test.ts:10-16 | when the first phase has steps, the only pair at index 0 is step 0 of phase 0 |
| Tutorial.LastStepAtTotalMinusOne | src/lib/rubik/__tests__/tutorial.test.ts:18-29 | when the last phase has steps, the only pair at index total-1 is the last step of the last phase |
| HistoryNavigation.Recorded | src/lib/rubik/__tests__/historyNavigation.test.ts:26-29 | a stretch of history records at most one move per entry |
| HistoryNavigation.RecordedAppend | src/lib/rubik/__tests__/historyNavigation.test.ts:26-38 | the moves recorded in `a + b` are those of `a` followed by those of `b` |
| HistoryNavigation.RecordedAllPresent | src/lib/rubik/__tests__/historyNavigation.test.ts:46-56 | when every entry has a move, the recorded list is exactly those moves |
| HistoryNavigation.BuildNavigationMoves | src/lib/rubik/__tests__/historyNavigation.test.ts:16-42 | the result is `Navigation`: inverses of the moves after target up to current, last first, when going back; the moves after current up to target when going forward; nothing otherwise |
| HistoryNavigation.WalkBack | src/lib/rubik/__tests__/historyNavigation.test.ts:23-30 | the backward loop yields getInverseMoves of the moves recorded after target up to current |
| HistoryNavigation.WalkForward | src/lib/rubik/__tests__/historyNavigation.test.ts:31-39 | the forward loop yields the moves recorded after current up to target |
| HistoryNavigation.BackStep | src/lib/rubik/__tests__/historyNavigation.test.ts:25-30 | stepping back over entry `i` appends the inverse of its move, if it has one |
| HistoryNavigation.ForwardStep | src/lib/rubik/__tests__/historyNavigation.test.ts:33-38 | stepping forward over entry `i` appends its move, if it has one |
| HistoryNavigation.BackIsInverseOfForward | src/lib/rubik/__tests__/historyNavigation.test.ts:23-39 | the moves from c back to t are getInverseMoves of the moves from t forward to c, and the other way round |
| HistoryNavigation.NavigationLength | src/lib/rubik/__tests__/historyNavigation.test.ts:104-113 | when every entry after the initial one has a move, navigating yields one move per point crossed |
| HistoryNavigation.CubeAtSplit | src/lib/rubik/__tests__/historyNavigation.test.ts:16-42 | the cube at a later point is the cube at an earlier point with the moves between applied |
| HistoryNavigation.NavigationReachesTarget | src/lib/rubik/__tests__/historyNavigation.test.ts:16-42 | applying the navigation moves to the cube at the current point gives the cube at the target point, in either direction |
| HistoryNavigation.SampleNavigation | src/lib/rubik/__tests__/historyNavigation.test.ts:63-73 | on the sample history, 8 to 5 gives D' L B2 and 0 to 3 gives R U R' |
| CubeContext.ScrambledCube | src/contexts/CubeContext.tsx:66-68 | the provider's cube is a scramble of `n` moves of the solved cube |
| CubeContext.ReplayStep | src/contexts/CubeContext.tsx:84-95 | performing move `k` and then the rest of the algorithm is performing the algorithm from move `k` |
| CubeContext.CubeProvider.constructor | src/contexts/CubeContext.tsx:44-58 | the initial state: a 15-move scramble, the first catalogued algorithm selected, no executed moves, paused at move 0 at the default speed of 500 ms |
| CubeContext.CubeProvider.SelectAlgorithm | src/contexts/CubeContext.tsx:60-64 | the algorithm and its moves are loaded, playback stops at move 0, and the cube and history are untouched |
| CubeContext.CubeProvider.StartFrom | src/contexts/CubeContext.tsx:66-77 | the state scrambleCube and resetCube share: new cube, empty history, stopped at move 0 |
| CubeContext.CubeProvider.ScrambleCube | src/contexts/CubeContext.tsx:66-71 | the cube is a new 15-move scramble, the history is empty, and playback stops at move 0 |
| CubeContext.CubeProvider.ResetCube | src/contexts/CubeContext.tsx:73-77 | the cube is the solved cube, the history is empty, and playback stops at move 0 |
| CubeContext.CubeProvider.ExecuteMove | src/contexts/CubeContext.tsx:79-82 | the cube takes the move, the move is appended to the history, and nothing else changes |
| CubeContext.CubeProvider.ExecuteNextMove | src/contexts/CubeContext.tsx:84-95 | with moves left, the next move is executed and the index advances; otherwise playback stops |
| CubeContext.CubeProvider.Play | src/contexts/CubeContext.tsx:97-102 | playback starts, at move 0 when the index had reached the end of the algorithm and at the same move otherwise; nothing else changes |
| CubeContext.CubeProvider.Pause | src/contexts/CubeContext.tsx:104-106 | playback stops and nothing else changes |
| CubeContext.CubeProvider.Rewind | src/contexts/CubeContext.tsx:108-118 | the cube takes getInverseMoves of the history, which brings it back to where the history was last emptied; the history is cleared and playback stops at move 0 |
| CubeContext.CubeProvider.SetSpeed | src/contexts/CubeContext.tsx:120-122 | only the speed changes |
| CubeContext.CubeProvider.Animate | src/contexts/CubeContext.tsx:124-133 | while playing, the timer performs the rest of the algorithm in order and then stops at its end; when paused, nothing happens |
| Cube3D.AffectedIsLayerAcrossAxis | src/components/cube/Cube3D.tsx:170-211 | a cubie turns with a face iff its coordinate along the face's rotation axis is the face's end of that axis |
| Cube3D.OppositeFacesShareAxis | src/components/cube/Cube3D.tsx:194-211 | opposite faces have the same rotation axis, at opposite ends, and their layers share no cubie |
| Cube3D.IsAffectedByRotation | src/components/cube/Cube3D.tsx:170-191 | the per-face coordinate test; `AffectedIsLayerAcrossAxis` proves it is the layer across the face's rotation axis |
| Cube3D.GetRotationAxis | src/components/cube/Cube3D.tsx:194-211 | the face's axis as an integer unit vector; `OppositeFacesShareAxis` proves opposite faces share it |
| Cube3D.StickerIndex | src/components/cube/Cube3D.tsx:274-310 | `getIndex(row, col)` for a cubie's side; `StickerIndexInRange`, `StickerIndexInjective` and `CubieForShowsSticker` prove it maps a face's layer one-to-one onto the indices 0..8 |
| Cube3D.StickerIndexInRange | src/components/cube/Cube3D.tsx:274-310 | every index computed for a cubie of a face's layer is a valid sticker index 0..8 |
| Cube3D.CubieForShowsSticker | src/components/cube/Cube3D.tsx:274-310 | every sticker of a face is shown by a cubie of that face's layer |
| Cube3D.StickerIndexShownBy | src/components/cube/Cube3D.tsx:274-310 | a cubie of a face's layer is the one shown for the sticker it displays |
| Cube3D.StickerIndexInjective | src/components/cube/Cube3D.tsx:274-310 | no two cubies of a layer display the same sticker of its face |
| Cube3D.CentreShowsIndexFour | src/components/cube/Cube3D.tsx:274-310 | the middle cubie of each face shows that face's centre sticker, index 4 |
| Cube3D.RingStepOnRing | src/lib/rubik/cubeLogic.ts:70-170 | a ring step moves only ring stickers, and brings them from the ring |
| Cube3D.RingInLayer | src/components/cube/Cube3D.tsx:170-191 | every sticker of a face's edge ring is drawn on a cubie of that face's layer |
| Cube3D.MovesStayInTurningLayer | src/components/cube/Cube3D.tsx:170-191 | every sticker a move changes is drawn on a cubie of the turning layer, and comes from a sticker drawn on that layer too |
| Cube3D.Shown | src/components/cube/Cube3D.tsx:276-310 | a cubie shows a colour on a side exactly when it lies in that face's layer |
| Cube3D.GridIndexBijective | src/components/cube/Cube3D.tsx:265-267 | the three nested loops visit the 27 grid cells once each |
| Cube3D.ComputeColors | src/components/cube/Cube3D.tsx:270-310 | the colours object of one loop iteration is the cubie's colours as `Shown` defines them |
| Cube3D.VisitCell | src/components/cube/Cube3D.tsx:268-321 | one pass of the loop body extends the groups to one more visited cell |
| Cube3D.LayoutCubies | src/components/cube/Cube3D.tsx:249-327 | the static and rotating lists are the two groups after all 27 cells |
| Cube3D.GroupGrows | src/components/cube/Cube3D.tsx:268-321 | visiting a cell adds its cubie, unless it is the core, to the group it belongs to, and leaves the other group as it was |
| Cube3D.GroupMembers | src/components/cube/Cube3D.tsx:312-321 | every member of a group is a drawn cubie from an already visited cell, and belongs to that group |
| Cube3D.GroupOrdered | src/components/cube/Cube3D.tsx:265-324 | each group lists its cubies in visiting order |
| Cube3D.GroupComplete | src/components/cube/Cube3D.tsx:312-321 | every cubie of a group from an already visited cell is in the group |
| Cube3D.LayoutPartition | src/components/cube/Cube3D.tsx:314-321 | a cubie is in the rotating group iff an animation is running and the cubie lies in the animated face's layer; otherwise it is in the static group |
| Cube3D.LayoutOnce | src/components/cube/Cube3D.tsx:265-324 | neither group holds the same position twice |
| Cube3D.NothingRotatesWhenIdle | src/components/cube/Cube3D.tsx:314-316 | without a running animation the rotating group is empty |
| Cube3D.GroupSizes | src/components/cube/Cube3D.tsx:264-268 | the two groups together hold one cubie per visited cell except the core: 26 at the end |

## Left out

- GenerateScramble: the default argument `length = 20` of generateScramble and getScrambledCube is not modelled; every caller passes a length, which the model takes as a parameter.
- BuildNavigationMoves: a walk that reaches past either end of the history, where the source reads `.move` of `undefined` and throws a TypeError, is excluded by the precondition (every index it walks over must be an entry), as are `WalkBack` and `WalkForward`; the thrown error is not modelled.
- Randomness: `Math.random` in generateScramble is a nondeterministic choice of a move whose face differs from the previous one. The do/while redraw is that choice.
- `length` in generateScramble and `index` in getStepByGlobalIndex are JavaScript numbers. They are modelled as integers; fractional or NaN inputs are not modelled.
- React: `useState`, `useCallback`, `useMemo` and the context object are not modelled. The provider is a class whose fields are the state variables, and each action is a method applied at once. The batching of state updates is not modelled.
- The animation timer (`setTimeout`, `clearTimeout`) is not modelled. `CubeProvider.Animate` is the effect re-running until playback stops; the delay is left out.
- `setRenderMode`, `setLanguage` and `useCube` are plain setters and a guard; the render mode and language are not modelled.
- Names, descriptions, tips and titles of the algorithm catalogue and of the tutorial are free text and are left out. So are the built-in `TUTORIAL_PHASES` data: the tutorial functions take the phase list as a parameter.
- The 3D view's rendering, camera, face labels, floating-point angles, `THREE.Vector3` values and `FACE_COLORS` hex strings are left out. `GetRotationAxis` is the integer unit vector, and cubie colours are the `Color` values, not their hex strings.
- `RotationAnimation` is modelled only by the two fields the layout reads: `isAnimating` and `face`.
- Strings are sequences of characters: no UTF-16 surrogate handling. `IsWs` lists the white-space and line-terminator characters that `trim` and `\s` both accept.
- The tests' `getInverseMove` helper is the same per-move step as getInverseMoves and is modelled once, as `InverseMove`.
- The clone-independence test in `src/lib/rubik/__tests__/cubeLogic.test.ts:78-89` writes `'R'` into a face and expects `'W'`, and colours are never single letters; it is not modelled. `CubeArrays.Clone` states the independence instead: the arrays are fresh.
- CubeArrays.RotateEdgesX: the three-element `temp` array is three local variables. Each line of three assignments is one call of `CopyStrip` or `WriteStrip`.
- CubeArrays.RotateEdgesTimes: the loop of applyMove is a method of its own, called by `ApplyMove`, with the same iteration count and direction.
- CubeProvider.Rewind: the loop over the inverse moves is a call of `ApplyMoves`, which is the same loop.
- CycleCcw: the counter-clockwise writes run s1, s2, s3, s0, while the source's tables run s0, s3, s2, s1 with s0 saved first. The four strips lie on four distinct faces, so the result is the same; `CubeArrays.RotateEdgesX` keeps the source's order.
