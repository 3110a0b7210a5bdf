/** The cube's data model: sticker colours, faces, the 18 move symbols and the
    six-face, nine-sticker cube state (src/lib/rubik/types.ts), with the solved
    reference state (src/lib/rubik/constants.ts). */
module CubeTypes {

  datatype Option<T> = None | Some(value: T)

  datatype Color = White | Yellow | Red | Orange | Blue | Green

  /** Up, Down, Front, Back, Left, Right. */
  datatype Face = U | D | F | B | L | R

  /** The suffix of a move symbol: none (a clockwise quarter turn), `'` or `2`. */
  datatype Turn = Clockwise | Prime | Double

  datatype Move = Move(face: Face, turn: Turn)

  /** A sticker index on a face: rows of three, index 4 is the centre. */
  type Idx = i: nat | i < 9

  /** The nine stickers of one face in row-major order. */
  type Stickers = s: seq<Color> | |s| == 9
    witness [White, White, White, White, White, White, White, White, White]

  datatype Cube = Cube(U: Stickers, D: Stickers, F: Stickers, B: Stickers, L: Stickers, R: Stickers)

  const Faces: seq<Face> := [Face.U, Face.D, Face.F, Face.B, Face.L, Face.R]

  function Get(c: Cube, face: Face): Stickers
  {
    match face
    case U => c.U
    case D => c.D
    case F => c.F
    case B => c.B
    case L => c.L
    case R => c.R
  }

  /** The cube with one face's stickers replaced. */
  function With(c: Cube, face: Face, s: Stickers): (r: Cube)
    ensures Get(r, face) == s
    ensures forall g :: g != face ==> Get(r, g) == Get(c, g)
  {
    match face
    case U => c.(U := s)
    case D => c.(D := s)
    case F => c.(F := s)
    case B => c.(B := s)
    case L => c.(L := s)
    case R => c.(R := s)
  }

  /** Two cubes are equal when all six faces are. */
  lemma CubeExt(a: Cube, b: Cube)
    requires forall g :: Get(a, g) == Get(b, g)
    ensures a == b
  {
    assert Get(a, Face.U) == Get(b, Face.U);
    assert Get(a, Face.D) == Get(b, Face.D);
    assert Get(a, Face.F) == Get(b, Face.F);
    assert Get(a, Face.B) == Get(b, Face.B);
    assert Get(a, Face.L) == Get(b, Face.L);
    assert Get(a, Face.R) == Get(b, Face.R);
  }

  function Nine(col: Color): (s: Stickers)
    ensures forall i: Idx :: s[i] == col
  {
    [col, col, col, col, col, col, col, col, col]
  }

  /** SOLVED_CUBE: U white, D yellow, F green, B blue, L orange, R red. */
  const SolvedCube: Cube := Cube(Nine(White), Nine(Yellow), Nine(Green), Nine(Blue), Nine(Orange), Nine(Red))

  function FaceLetter(face: Face): char
  {
    match face
    case U => 'U'
    case D => 'D'
    case F => 'F'
    case B => 'B'
    case L => 'L'
    case R => 'R'
  }

  /** The move's symbol as the source spells it: `R`, `R'` or `R2`. */
  function Symbol(m: Move): (s: string)
    ensures 1 <= |s| <= 2 && s[0] == FaceLetter(m.face)
  {
    [FaceLetter(m.face)] + match m.turn
      case Clockwise => ""
      case Prime => "'"
      case Double => "2"
  }

  /** `move.replace("'", "").replace("2", "")`: the symbol with its first `'` and its first `2` removed. */
  function RemoveFirst(s: string, ch: char): string
  {
    if s == [] then [] else if s[0] == ch then s[1..] else [s[0]] + RemoveFirst(s[1..], ch)
  }

  /** The three facts applyMove reads off a move symbol (its face letter, whether it
      contains `'`, whether it contains `2`) are exactly the face and turn of the
      datatype, so a `Move` value carries the same information as its symbol. */
  lemma SymbolDecodes(m: Move)
    ensures RemoveFirst(RemoveFirst(Symbol(m), '\''), '2') == [FaceLetter(m.face)]
    ensures ('\'' in Symbol(m)) <==> m.turn == Prime
    ensures ('2' in Symbol(m)) <==> m.turn == Double
  {
    var c := FaceLetter(m.face);
    match m.turn
    case Clockwise =>
      assert Symbol(m) == [c];
    case Prime =>
      assert Symbol(m) == [c, '\''];
      assert RemoveFirst([c, '\''], '\'') == [c] + RemoveFirst(['\''], '\'');
    case Double =>
      assert Symbol(m) == [c, '2'];
      assert RemoveFirst([c, '2'], '\'') == [c] + RemoveFirst(['2'], '\'');
      assert RemoveFirst([c, '2'], '2') == [c] + RemoveFirst(['2'], '2');
  }

  /** Distinct moves have distinct symbols. */
  lemma SymbolInjective(m: Move, n: Move)
    requires Symbol(m) == Symbol(n)
    ensures m == n
  {
    assert Symbol(m)[0] == Symbol(n)[0];
    if |Symbol(m)| == 2 {
      assert Symbol(m)[1] == Symbol(n)[1];
    }
  }
}
