/** Move-list utilities of src/lib/rubik/algorithms.ts: the algorithm catalogue,
    the permissive tokenizer that turns an algorithm string into moves, and the
    inverse of a move list. */
module Algorithms {
  import opened CubeTypes
  import opened CubeLogic
  import opened CubeLaws

  // ---------------------------------------------------------------------------
  // isValidMove

  /** The eighteen move symbols, in the order the source lists them. */
  const ValidMoves: seq<string> := [
    "U", "U'", "U2",
    "D", "D'", "D2",
    "F", "F'", "F2",
    "B", "B'", "B2",
    "L", "L'", "L2",
    "R", "R'", "R2"
  ]

  predicate IsValidMove(t: string)
  {
    t in ValidMoves
  }

  function FaceOfLetter(ch: char): Face
  {
    match ch
    case 'U' => Face.U
    case 'D' => Face.D
    case 'F' => Face.F
    case 'B' => Face.B
    case 'L' => Face.L
    case _ => Face.R
  }

  /** The move a valid symbol denotes (the source's `token as Move`). */
  function MoveOf(t: string): (m: Move)
    requires IsValidMove(t)
    ensures Symbol(m) == t
  {
    Move(FaceOfLetter(t[0]), if |t| == 1 then Clockwise else if t[1] == '\'' then Prime else Double)
  }

  /** Every move's symbol is on the list. */
  lemma SymbolListed(m: Move)
    ensures IsValidMove(Symbol(m))
  {
    match m.face
    case U =>
      match m.turn { case Clockwise => assert Symbol(m) == ValidMoves[0]; case Prime => assert Symbol(m) == ValidMoves[1]; case Double => assert Symbol(m) == ValidMoves[2]; }
    case D =>
      match m.turn { case Clockwise => assert Symbol(m) == ValidMoves[3]; case Prime => assert Symbol(m) == ValidMoves[4]; case Double => assert Symbol(m) == ValidMoves[5]; }
    case F =>
      match m.turn { case Clockwise => assert Symbol(m) == ValidMoves[6]; case Prime => assert Symbol(m) == ValidMoves[7]; case Double => assert Symbol(m) == ValidMoves[8]; }
    case B =>
      match m.turn { case Clockwise => assert Symbol(m) == ValidMoves[9]; case Prime => assert Symbol(m) == ValidMoves[10]; case Double => assert Symbol(m) == ValidMoves[11]; }
    case L =>
      match m.turn { case Clockwise => assert Symbol(m) == ValidMoves[12]; case Prime => assert Symbol(m) == ValidMoves[13]; case Double => assert Symbol(m) == ValidMoves[14]; }
    case R =>
      match m.turn { case Clockwise => assert Symbol(m) == ValidMoves[15]; case Prime => assert Symbol(m) == ValidMoves[16]; case Double => assert Symbol(m) == ValidMoves[17]; }
  }

  /** A token is valid exactly when it is the symbol of some move. */
  lemma IsValidMoveIff(t: string)
    ensures IsValidMove(t) <==> exists m: Move :: Symbol(m) == t
  {
    if IsValidMove(t) {
      assert Symbol(MoveOf(t)) == t;
    }
    if m: Move :| Symbol(m) == t {
      SymbolListed(m);
    }
  }

  function Symbols(ms: seq<Move>): (r: seq<string>)
    ensures |r| == |ms| && forall i | 0 <= i < |ms| :: r[i] == Symbol(ms[i])
  {
    seq(|ms|, i requires 0 <= i < |ms| => Symbol(ms[i]))
  }

  // ---------------------------------------------------------------------------
  // Tokenizing: `algString.trim().split(/\s+/)`

  /** The characters JavaScript's `trim` and `\s` treat as white space. */
  predicate IsWs(ch: char)
  {
    ch == '\t' || ch == '\n' || ch == '\U{000B}' || ch == '\U{000C}' || ch == '\r' || ch == ' ' ||
    ch == '\U{00A0}' || ch == '\U{1680}' || ('\U{2000}' <= ch <= '\U{200A}') ||
    ch == '\U{2028}' || ch == '\U{2029}' || ch == '\U{202F}' || ch == '\U{205F}' ||
    ch == '\U{3000}' || ch == '\U{FEFF}'
  }

  predicate AllWs(s: string)
  {
    forall i | 0 <= i < |s| :: IsWs(s[i])
  }

  predicate NoWs(s: string)
  {
    forall i | 0 <= i < |s| :: !IsWs(s[i])
  }

  /** A non-empty run of non-white-space characters. */
  predicate IsWord(w: string)
  {
    w != [] && NoWs(w)
  }

  /** `s` without its leading white space. */
  function DropWs(s: string): (r: string)
    ensures |r| <= |s|
    ensures s != [] && IsWs(s[0]) ==> |r| < |s|
    ensures r == [] || !IsWs(r[0])
    ensures r != [] ==> r[|r| - 1] == s[|s| - 1]
  {
    if s != [] && IsWs(s[0]) then DropWs(s[1..]) else s
  }

  /** `s` without its trailing white space. */
  function TrimEnd(s: string): (r: string)
    ensures |r| <= |s| && r == s[..|r|]
    ensures AllWs(s[|r|..])
    ensures r == [] || !IsWs(r[|r| - 1])
  {
    if s != [] && IsWs(s[|s| - 1]) then TrimEnd(s[..|s| - 1]) else s
  }

  /** `String.prototype.trim`. */
  function Trim(s: string): string
  {
    TrimEnd(DropWs(s))
  }

  /** The longest prefix of `s` without white space. */
  function TakeWord(s: string): (w: string)
    ensures |w| <= |s| && w == s[..|w|]
    ensures NoWs(w)
    ensures |w| < |s| ==> IsWs(s[|w|])
  {
    if s == [] || IsWs(s[0]) then [] else [s[0]] + TakeWord(s[1..])
  }

  /** `s.split(/\s+/)`: the pieces between maximal runs of white space; an
      empty string gives one empty piece. */
  function Split(s: string): seq<string>
    decreases |s|
  {
    var w := TakeWord(s);
    if |w| == |s| then [s]
    else
      var rest := s[|w|..];
      assert IsWs(rest[0]);
      [w] + Split(DropWs(rest))
  }

  /** The reference reading of an algorithm string: its maximal runs of
      non-white-space characters, left to right. */
  function Words(s: string): (r: seq<string>)
    ensures forall k | 0 <= k < |r| :: IsWord(r[k])
    decreases |s|
  {
    var t := DropWs(s);
    if t == [] then []
    else
      var w := TakeWord(t);
      [w] + Words(t[|w|..])
  }

  lemma {:induction false} DropWsEmpty(s: string)
    ensures DropWs(s) == [] <==> AllWs(s)
  {
    if s != [] && IsWs(s[0]) {
      DropWsEmpty(s[1..]);
      assert AllWs(s[1..]) ==> AllWs(s) by {
        if AllWs(s[1..]) {
          forall i | 0 <= i < |s| ensures IsWs(s[i]) {
            if i > 0 { assert s[i] == s[1..][i - 1]; }
          }
        }
      }
    }
  }

  lemma WordsDropWs(s: string)
    ensures Words(DropWs(s)) == Words(s)
  {
  }

  lemma {:induction false} DropWsAppend(y: string, w: string)
    requires DropWs(y) != []
    ensures DropWs(y + w) == DropWs(y) + w
  {
    if IsWs(y[0]) {
      assert (y + w)[1..] == y[1..] + w;
      DropWsAppend(y[1..], w);
    }
  }

  lemma {:induction false} TakeWordAppend(t: string, w: string)
    requires w == [] || IsWs(w[0])
    ensures TakeWord(t + w) == TakeWord(t)
  {
    if t != [] && !IsWs(t[0]) {
      assert (t + w)[1..] == t[1..] + w;
      TakeWordAppend(t[1..], w);
    }
  }

  /** Trailing white space adds no word. */
  lemma {:induction false} WordsAppendWs(y: string, w: string)
    requires AllWs(w)
    ensures Words(y + w) == Words(y)
    decreases |y|
  {
    var t := DropWs(y);
    if t == [] {
      DropWsEmpty(y);
      assert AllWs(y + w);
      DropWsEmpty(y + w);
    } else {
      DropWsAppend(y, w);
      var tw := TakeWord(t);
      TakeWordAppend(t, w);
      assert (t + w)[|tw|..] == t[|tw|..] + w;
      WordsAppendWs(t[|tw|..], w);
    }
  }

  /** On a string with no white space at either end, splitting gives exactly
      its words. */
  lemma {:induction false} SplitTrimmed(x: string)
    requires x == [] || (!IsWs(x[0]) && !IsWs(x[|x| - 1]))
    ensures Split(x) == if x == [] then [""] else Words(x)
    decreases |x|
  {
    if x != [] {
      var w := TakeWord(x);
      assert DropWs(x) == x;
      if |w| < |x| {
        var rest := x[|w|..];
        var r := DropWs(rest);
        assert rest[|rest| - 1] == x[|x| - 1];
        DropWsEmpty(rest);
        assert r != [];
        assert r[|r| - 1] == x[|x| - 1];
        SplitTrimmed(r);
        WordsDropWs(rest);
        assert Split(x) == [w] + Split(r);
        assert Words(x) == [w] + Words(rest);
      } else {
        assert w == x;
        assert x[|w|..] == [];
        assert Words(x) == [w] + Words([]);
      }
    }
  }

  /** `algString.trim().split(/\s+/)` yields exactly the words of the string,
      or a single empty token when it has none. */
  lemma TokensAreWords(s: string)
    ensures Split(Trim(s)) == if Words(s) == [] then [""] else Words(s)
  {
    var t := DropWs(s);
    var x := TrimEnd(t);
    assert x == [] || x[0] == t[0];
    SplitTrimmed(x);
    assert Words(s) == Words(x) by {
      TakeDrop(t, |x|);
      WordsAppendWs(x, t[|x|..]);
      WordsDropWs(s);
    }
    assert x != [] ==> Words(x) != [] by {
      if x != [] {
        assert DropWs(x) == x;
      }
    }
  }

  /** White space alone, however it is laid out, holds no word. */
  lemma WhitespaceOnlyHasNoWords(s: string)
    requires AllWs(s)
    ensures Words(s) == []
  {
    DropWsEmpty(s);
  }

  /** Leading and trailing white space change nothing. */
  lemma WordsIgnoreOuterWs(a: string, s: string, b: string)
    requires AllWs(a) && AllWs(b)
    ensures Words(a + s + b) == Words(s)
  {
    WordsAppendWs(a + s, b);
    LeadingWs(a, s);
  }

  lemma {:induction false} DropWsLeading(a: string, s: string)
    requires AllWs(a)
    ensures DropWs(a + s) == DropWs(s)
    decreases |a|
  {
    if a == [] {
      assert a + s == s;
    } else {
      assert IsWs((a + s)[0]);
      assert (a + s)[1..] == a[1..] + s;
      DropWsLeading(a[1..], s);
    }
  }

  lemma LeadingWs(a: string, s: string)
    requires AllWs(a)
    ensures Words(a + s) == Words(s)
  {
    DropWsLeading(a, s);
    WordsDropWs(a + s);
    WordsDropWs(s);
  }

  /** One step of `Words` on a string that still holds a word. */
  lemma WordsUnfold(s: string, t: string, tw: string)
    requires t == DropWs(s) && t != [] && tw == TakeWord(t)
    ensures Words(s) == [tw] + Words(t[|tw|..])
  {
  }

  /** A string starting with white space ends the last word before it. */
  lemma {:induction false} WordsGap(x: string, z: string)
    requires z != [] && IsWs(z[0])
    ensures Words(x + z) == Words(x) + Words(z)
    decreases |x|
  {
    var t := DropWs(x);
    DropWsEmpty(x);
    if t == [] {
      LeadingWs(x, z);
    } else {
      var tw := TakeWord(t);
      var rest := t[|tw|..];
      assert Words(x + z) == [tw] + Words(rest + z) by {
        DropWsAppend(x, z);
        TakeWordAppend(t, z);
        assert (t + z)[|tw|..] == rest + z;
        WordsUnfold(x + z, t + z, tw);
      }
      assert Words(x) == [tw] + Words(rest) by {
        WordsUnfold(x, t, tw);
      }
      calc {
        Words(x + z);
        [tw] + Words(rest + z);
        { WordsGap(rest, z); }
        [tw] + (Words(rest) + Words(z));
        { AppendAssoc([tw], Words(rest), Words(z)); }
        ([tw] + Words(rest)) + Words(z);
        Words(x) + Words(z);
      }
    }
  }

  lemma TakeDrop<T>(s: seq<T>, n: int)
    requires 0 <= n <= |s|
    ensures s == s[..n] + s[n..]
  {
  }

  lemma AppendAssoc<T>(a: seq<T>, b: seq<T>, c: seq<T>)
    ensures a + (b + c) == (a + b) + c
  {
  }

  /** Any non-empty run of white space, of any length and made of any white
      space characters (newlines included), separates the words on its two sides. */
  lemma WordsSeparated(x: string, w: string, y: string)
    requires w != [] && AllWs(w)
    ensures Words(x + w + y) == Words(x) + Words(y)
  {
    assert x + w + y == x + (w + y);
    WordsGap(x, w + y);
    LeadingWs(w, y);
  }

  // ---------------------------------------------------------------------------
  // parseAlgorithmString

  /** The valid tokens of `ts`, in order. */
  function ValidOnly(ts: seq<string>): (r: seq<string>)
    ensures forall k | 0 <= k < |r| :: IsValidMove(r[k])
    ensures (forall k | 0 <= k < |ts| :: IsValidMove(ts[k])) ==> r == ts
    decreases |ts|
  {
    if ts == [] then []
    else
      var last := ts[|ts| - 1];
      assert ts == ts[..|ts| - 1] + [last];
      ValidOnly(ts[..|ts| - 1]) + if IsValidMove(last) then [last] else []
  }

  /** Filtering the tokens keeps the same symbols as filtering the words. */
  lemma ValidTokensAreValidWords(s: string)
    ensures ValidOnly(Split(Trim(s))) == ValidOnly(Words(s))
  {
    TokensAreWords(s);
    if Words(s) == [] {
      assert !IsValidMove("");
      assert ValidOnly([""]) == [];
    }
  }

  /** Appending a move appends its symbol. */
  lemma SymbolsSnoc(ms: seq<Move>, m: Move)
    ensures Symbols(ms + [m]) == Symbols(ms) + [Symbol(m)]
  {
    assert Symbols(ms + [m])[|ms|] == Symbol(m);
  }

  /** Filtering one more token keeps it exactly when it is valid. */
  lemma ValidOnlySnoc(ts: seq<string>, i: int)
    requires 0 <= i < |ts|
    ensures ValidOnly(ts[..i + 1]) == ValidOnly(ts[..i]) + if IsValidMove(ts[i]) then [ts[i]] else []
  {
    assert ts[..i + 1][..i] == ts[..i];
  }

  /** parseAlgorithmString: the moves are exactly the valid words of the input,
      in input order; every other token is dropped. */
  method ParseAlgorithmString(algString: string) returns (moves: seq<Move>)
    ensures Symbols(moves) == ValidOnly(Words(algString))
  {
    moves := [];
    var tokens := Split(Trim(algString));
    for i := 0 to |tokens|
      invariant Symbols(moves) == ValidOnly(tokens[..i])
    {
      var token := tokens[i];
      ValidOnlySnoc(tokens, i);
      if IsValidMove(token) {
        SymbolsSnoc(moves, MoveOf(token));
        moves := moves + [MoveOf(token)];
      }
    }
    assert tokens[..|tokens|] == tokens;
    ValidTokensAreValidWords(algString);
  }

  /** The symbols separated by single spaces. */
  function JoinSpaces(ws: seq<string>): string
  {
    if |ws| == 0 then "" else if |ws| == 1 then ws[0] else ws[0] + " " + JoinSpaces(ws[1..])
  }

  lemma TakeWordWhole(w: string)
    requires NoWs(w)
    ensures TakeWord(w) == w
  {
  }

  /** A word followed by white space or nothing is the first word. */
  lemma WordsPrefixWord(w: string, rest: string)
    requires IsWord(w) && (rest == [] || IsWs(rest[0]))
    ensures Words(w + rest) == [w] + Words(rest)
  {
    assert (w + rest)[0] == w[0];
    assert DropWs(w + rest) == w + rest;
    TakeWordAppend(w, rest);
    TakeWordWhole(w);
    assert (w + rest)[|w|..] == rest;
  }

  lemma {:induction false} JoinSpacesHead(ws: seq<string>)
    requires |ws| > 0 && IsWord(ws[0])
    ensures JoinSpaces(ws) != [] && JoinSpaces(ws)[0] == ws[0][0]
  {
  }

  /** Splitting space-joined words gives the words back. */
  lemma {:induction false} WordsJoin(ws: seq<string>)
    requires forall k | 0 <= k < |ws| :: IsWord(ws[k])
    ensures Words(JoinSpaces(ws)) == ws
  {
    if |ws| == 1 {
      assert ws[0] + [] == ws[0];
      WordsPrefixWord(ws[0], []);
    } else if |ws| > 1 {
      var tail := ws[1..];
      var j := JoinSpaces(tail);
      assert forall k | 0 <= k < |tail| :: IsWord(tail[k]) by {
        forall k | 0 <= k < |tail| ensures IsWord(tail[k]) { assert tail[k] == ws[k + 1]; }
      }
      calc {
        Words(JoinSpaces(ws));
        Words(ws[0] + " " + j);
        { AppendAssoc(ws[0], " ", j); }
        Words(ws[0] + (" " + j));
        { JoinSpacesHead(tail); WordsPrefixWord(ws[0], " " + j); }
        [ws[0]] + Words(" " + j);
        { assert AllWs(" "); LeadingWs(" ", j); }
        [ws[0]] + Words(j);
        { WordsJoin(tail); }
        [ws[0]] + tail;
        ws;
      }
    }
  }

  lemma SymbolHasNoWs(m: Move)
    ensures IsWord(Symbol(m))
  {
  }

  /** Re-parsing the space-joined symbols of a move list gives the list back;
      in particular parseAlgorithmString applied to its own joined output
      returns the same moves. */
  lemma ReparseJoined(ms: seq<Move>)
    ensures ValidOnly(Words(JoinSpaces(Symbols(ms)))) == Symbols(ms)
  {
    forall k | 0 <= k < |ms| ensures IsValidMove(Symbols(ms)[k]) {
      IsValidMoveIff(Symbol(ms[k]));
    }
    forall k | 0 <= k < |ms| ensures IsWord(Symbols(ms)[k]) {
      SymbolHasNoWs(ms[k]);
    }
    WordsJoin(Symbols(ms));
  }

  /** Distinct move lists have distinct symbol lists, so the symbols fix the moves. */
  lemma SymbolsInjective(ms: seq<Move>, ns: seq<Move>)
    requires Symbols(ms) == Symbols(ns)
    ensures ms == ns
  {
    forall i | 0 <= i < |ms| ensures ms[i] == ns[i] {
      SymbolInjective(ms[i], ns[i]);
    }
  }

  // ---------------------------------------------------------------------------
  // getInverseMoves

  /** The per-move step of getInverseMoves on the symbol: drop a trailing `'`,
      keep a trailing `2`, otherwise append `'`. */
  function InverseSymbol(s: string): string
  {
    if |s| > 0 && s[|s| - 1] == '\'' then s[..|s| - 1]
    else if |s| > 0 && s[|s| - 1] == '2' then s
    else s + "'"
  }

  function InverseTurn(t: Turn): Turn
  {
    match t
    case Clockwise => Prime
    case Prime => Clockwise
    case Double => Double
  }

  function InverseMove(m: Move): Move
  {
    Move(m.face, InverseTurn(m.turn))
  }

  /** X' becomes X, X2 stays X2 and X becomes X': the string step of the
      source agrees with the move-level inverse. */
  lemma InverseSymbolAgrees(m: Move)
    ensures InverseSymbol(Symbol(m)) == Symbol(InverseMove(m))
  {
  }

  /** The inverse move undoes the move on every cube state. */
  lemma ApplyInverseMove(c: Cube, m: Move)
    ensures Apply(Apply(c, m), InverseMove(m)) == c
  {
    match m.turn
    case Clockwise => ApplyQuarterRoundTrip(c, m.face);
    case Prime => ApplyQuarterRoundTrip(c, m.face);
    case Double => ApplyDoubleTwice(c, m.face);
  }

  /** getInverseMoves: each move inverted, in reverse order. */
  function GetInverseMoves(ms: seq<Move>): (r: seq<Move>)
    ensures |r| == |ms|
    ensures forall i | 0 <= i < |ms| :: r[i] == InverseMove(ms[|ms| - 1 - i])
    decreases |ms|
  {
    if ms == [] then [] else [InverseMove(ms[|ms| - 1])] + GetInverseMoves(ms[..|ms| - 1])
  }

  lemma GetInverseMovesInvolution(ms: seq<Move>)
    ensures GetInverseMoves(GetInverseMoves(ms)) == ms
  {
    var r := GetInverseMoves(GetInverseMoves(ms));
    forall i | 0 <= i < |ms| ensures r[i] == ms[i] {
      assert InverseTurn(InverseTurn(ms[i].turn)) == ms[i].turn;
    }
  }

  lemma GetInverseMovesAppend(a: seq<Move>, b: seq<Move>)
    ensures GetInverseMoves(a + b) == GetInverseMoves(b) + GetInverseMoves(a)
  {
  }

  /** Applying a list and then its inverse restores every cube state. */
  lemma {:induction false} ApplyAllInverse(c: Cube, ms: seq<Move>)
    ensures ApplyAll(ApplyAll(c, ms), GetInverseMoves(ms)) == c
    decreases |ms|
  {
    if ms != [] {
      var p := ms[..|ms| - 1];
      var x := ms[|ms| - 1];
      var d := ApplyAll(c, p);
      assert GetInverseMoves(ms) == [InverseMove(x)] + GetInverseMoves(p);
      ApplyAllAppend(Apply(d, x), [InverseMove(x)], GetInverseMoves(p));
      assert [InverseMove(x)][..0] == [];
      assert ApplyAll(Apply(d, x), [InverseMove(x)]) == Apply(Apply(d, x), InverseMove(x));
      ApplyInverseMove(d, x);
      ApplyAllInverse(c, p);
    }
  }

  // ---------------------------------------------------------------------------
  // The ALGORITHMS catalogue (names and descriptions left out)

  datatype Category = Beginner | F2l | Oll | Pll

  datatype Algorithm = Algorithm(id: string, moves: seq<Move>, category: Category)

  /** The moves of a list of valid symbols. */
  function Moves(symbols: seq<string>): (ms: seq<Move>)
    requires forall k | 0 <= k < |symbols| :: IsValidMove(symbols[k])
    ensures Symbols(ms) == symbols
  {
    seq(|symbols|, i requires 0 <= i < |symbols| => MoveOf(symbols[i]))
  }

  const SexyMoveMoves: seq<Move> := Moves(["R", "U", "R'", "U'"])
  const SuneMoves: seq<Move> := Moves(["R", "U", "R'", "U", "R", "U2", "R'"])
  const DoubleSuneMoves: seq<Move> := Moves(["R", "U", "R'", "U", "R", "U2", "R'", "R", "U", "R'", "U", "R", "U2", "R'"])

  const AllAlgorithms: seq<Algorithm> := [
    Algorithm("sexy-move", SexyMoveMoves, Beginner),
    Algorithm("sledgehammer", Moves(["R'", "F", "R", "F'"]), Beginner),
    Algorithm("sune", SuneMoves, Oll),
    Algorithm("anti-sune", Moves(["R'", "U'", "R", "U'", "R'", "U2", "R"]), Oll),
    Algorithm("t-perm", Moves(["R", "U", "R'", "U'", "R'", "F", "R2", "U'", "R'", "U'", "R", "U", "R'", "F'"]), Pll),
    Algorithm("u-perm-a", Moves(["R", "U'", "R", "U", "R", "U", "R", "U'", "R'", "U'", "R2"]), Pll),
    Algorithm("niklas", Moves(["R'", "U", "L'", "U2", "R", "U'", "L'"]), Beginner),
    Algorithm("double-sune", DoubleSuneMoves, Oll)
  ]

  /** The Double Sune is the Sune performed twice. */
  lemma DoubleSuneIsSuneTwice()
    ensures DoubleSuneMoves == SuneMoves + SuneMoves
  {
    SymbolsInjective(DoubleSuneMoves, SuneMoves + SuneMoves);
  }
}
