/**
 * The rules that look at the whole board (BoardUtils and
 * ChessPiece.isValidMove): legal moves, checkmate, stalemate, the shortcut
 * the controller uses while a king is in check, and dead positions.
 */
module Legality {
  import opened Wrappers
  import opened Colors
  import opened Positions
  import opened Moves
  import opened Pieces
  import opened PieceMaps
  import opened Attacks
  import opened Kings

  /** generateValidMoves of the piece on s, dispatched on its kind. */
  function GeneratedMoves(b: Board, s: Position, lastMove: Option<Move>): seq<Move>
    requires s in b
  {
    if b[s].kind == King then KingMoves(b, s, lastMove) else NonKingMoves(b, s, b[s], lastMove)
  }

  /** Every generated move starts on the square it was generated for. */
  lemma GeneratedStart(b: Board, s: Position, lastMove: Option<Move>)
    requires s in b
    ensures forall m | m in GeneratedMoves(b, s, lastMove) :: m.start == s
    ensures StartsIn(b, GeneratedMoves(b, s, lastMove))
  {
    var moves := GeneratedMoves(b, s, lastMove);
    forall m | m in moves
      ensures m.start == s
    {
      if b[s].kind == King {
        KingMovesExact(b, s, lastMove, m);
      } else {
        NonKingMovesStart(b, s, b[s], lastMove, m);
      }
    }
    assert forall i :: 0 <= i < |moves| ==> moves[i] in moves;
  }

  method GenerateValidMoves(pm: ChessPieceMap, s: Position, lastMove: Option<Move>) returns (moves: seq<Move>)
    requires s in pm.squares
    ensures moves == GeneratedMoves(pm.squares, s, lastMove)
  {
    var piece := pm.squares[s];
    if piece.kind == King {
      moves := GenerateKingMoves(pm, s, lastMove);
    } else {
      moves := GenerateNonKingMoves(pm, s, piece, lastMove);
    }
  }

  /**
   * isValidMove, asked of the piece standing on m.start: m is one of its
   * generated moves and playing it leaves that piece's colour out of check.
   */
  predicate ValidMove(b: Board, m: Move, lastMove: Option<Move>)
    requires m.start in b
  {
    m in GeneratedMoves(b, m.start, lastMove) && !InCheck(b[m.start].color, Simulate(m, b), lastMove)
  }

  /** The generated moves of the piece on s after which colour c is not in check. */
  function SafeGenerated(b: Board, s: Position, c: Color, lastMove: Option<Move>): seq<Move>
    requires s in b
  {
    GeneratedStart(b, s, lastMove);
    SafeMoves(b, c, lastMove, GeneratedMoves(b, s, lastMove))
  }

  /** A valid move is one the check-safety filter keeps from the piece's generated moves. */
  lemma ValidMoveIsSafeMove(b: Board, m: Move, lastMove: Option<Move>)
    requires m.start in b
    ensures ValidMove(b, m, lastMove) <==>
            m in SafeGenerated(b, m.start, b[m.start].color, lastMove)
  {
    GeneratedStart(b, m.start, lastMove);
    SafeMovesExact(b, b[m.start].color, lastMove, GeneratedMoves(b, m.start, lastMove), m);
  }

  method IsValidMove(pm: ChessPieceMap, m: Move, lastMove: Option<Move>) returns (r: bool)
    requires m.start in pm.squares
    ensures r == ValidMove(pm.squares, m, lastMove)
  {
    var color := pm.squares[m.start].color;
    var moves := GenerateValidMoves(pm, m.start, lastMove);
    GeneratedStart(pm.squares, m.start, lastMove);
    ValidMoveIsSafeMove(pm.squares, m, lastMove);
    for i := 0 to |moves|
      invariant StartsIn(pm.squares, moves[..i])
      invariant m !in SafeMoves(pm.squares, color, lastMove, moves[..i])
    {
      var temp := SimulateMove(moves[i], pm);
      var check := IsKingInCheck(color, temp, lastMove);
      SafeMovesSnoc(pm.squares, color, lastMove, moves, i);
      if !check && moves[i] == m {
        SafeMovesExact(pm.squares, color, lastMove, moves, m);
        return true;
      }
    }
    assert moves[..|moves|] == moves;
    r := false;
  }

  /** Some generated move of the piece on q leaves colour c out of check. */
  predicate PieceEscapes(b: Board, q: Position, c: Color, lastMove: Option<Move>)
    requires q in b
  {
    SafeGenerated(b, q, c, lastMove) != []
  }

  /** Some piece of colour c has a move after which c is not in check. */
  predicate HasEscape(b: Board, c: Color, lastMove: Option<Move>)
  {
    exists q {:trigger PieceEscapes(b, q, c, lastMove)} | q in b && b[q].color == c :: PieceEscapes(b, q, c, lastMove)
  }

  /** isCheckmate */
  predicate Checkmate(c: Color, b: Board, lastMove: Option<Move>)
  {
    InCheck(c, b, lastMove) && !HasEscape(b, c, lastMove)
  }

  /** isStalemate */
  predicate Stalemate(c: Color, b: Board, lastMove: Option<Move>)
  {
    !InCheck(c, b, lastMove) && !HasEscape(b, c, lastMove)
  }

  /** An escape exists exactly when some piece of colour c has a valid move. */
  lemma EscapeExact(b: Board, c: Color, lastMove: Option<Move>)
    ensures HasEscape(b, c, lastMove) <==>
            exists m: Move :: m.start in b && b[m.start].color == c && ValidMove(b, m, lastMove)
  {
    if HasEscape(b, c, lastMove) {
      var q :| q in b && b[q].color == c && PieceEscapes(b, q, c, lastMove);
      var moves := GeneratedMoves(b, q, lastMove);
      GeneratedStart(b, q, lastMove);
      var m := SafeMoves(b, c, lastMove, moves)[0];
      SafeMovesExact(b, c, lastMove, moves, m);
      assert m.start == q;
      assert ValidMove(b, m, lastMove);
    }
    if exists m: Move :: m.start in b && b[m.start].color == c && ValidMove(b, m, lastMove) {
      var m: Move :| m.start in b && b[m.start].color == c && ValidMove(b, m, lastMove);
      GeneratedStart(b, m.start, lastMove);
      SafeMovesExact(b, c, lastMove, GeneratedMoves(b, m.start, lastMove), m);
      assert PieceEscapes(b, m.start, c, lastMove);
    }
  }

  /**
   * Checkmate is check with no valid move for the side, stalemate is no
   * valid move without check, and the two never hold together.
   */
  lemma MateAndStalemateMeaning(c: Color, b: Board, lastMove: Option<Move>)
    ensures Checkmate(c, b, lastMove) <==>
            InCheck(c, b, lastMove) &&
            forall m: Move :: m.start in b && b[m.start].color == c ==> !ValidMove(b, m, lastMove)
    ensures Stalemate(c, b, lastMove) <==>
            !InCheck(c, b, lastMove) &&
            forall m: Move :: m.start in b && b[m.start].color == c ==> !ValidMove(b, m, lastMove)
    ensures !(Checkmate(c, b, lastMove) && Stalemate(c, b, lastMove))
  {
    EscapeExact(b, c, lastMove);
  }

  /** The inner loops of isCheckmate and isStalemate, for one piece. */
  method PieceEscape(pm: ChessPieceMap, q: Position, c: Color, lastMove: Option<Move>) returns (r: bool)
    requires q in pm.squares
    ensures r == PieceEscapes(pm.squares, q, c, lastMove)
  {
    var moves := GenerateValidMoves(pm, q, lastMove);
    GeneratedStart(pm.squares, q, lastMove);
    for i := 0 to |moves|
      invariant StartsIn(pm.squares, moves[..i])
      invariant SafeMoves(pm.squares, c, lastMove, moves[..i]) == []
    {
      var temp := SimulateMove(moves[i], pm);
      var check := IsKingInCheck(c, temp, lastMove);
      if !check {
        SafeMovesExact(pm.squares, c, lastMove, moves, moves[i]);
        return true;
      }
      SafeMovesSnoc(pm.squares, c, lastMove, moves, i);
    }
    assert moves[..|moves|] == moves;
    r := false;
  }

  /** The outer loops of isCheckmate and isStalemate, over the pieces of colour c. */
  method AnyEscape(pm: ChessPieceMap, c: Color, lastMove: Option<Move>) returns (r: bool)
    ensures r == HasEscape(pm.squares, c, lastMove)
  {
    var todo := pm.squares.Keys;
    while todo != {}
      invariant todo <= pm.squares.Keys
      invariant forall q | q in pm.squares.Keys - todo && pm.squares[q].color == c :: !PieceEscapes(pm.squares, q, c, lastMove)
      decreases todo
    {
      var q :| q in todo;
      if pm.squares[q].color == c {
        var escapes := PieceEscape(pm, q, c, lastMove);
        if escapes {
          return true;
        }
      }
      todo := todo - {q};
    }
    r := false;
  }

  method IsCheckmate(c: Color, pm: ChessPieceMap, lastMove: Option<Move>) returns (r: bool)
    ensures r == Checkmate(c, pm.squares, lastMove)
  {
    var check := IsKingInCheck(c, pm, lastMove);
    if !check {
      return false;
    }
    var escape := AnyEscape(pm, c, lastMove);
    r := !escape;
  }

  /**
   * isCheckmate generates moves only for a side in check, and the written
   * castling probe never runs for a king in check; so on that path the
   * king's generator as written never throws and gives the intended moves.
   */
  lemma CheckmatePathNeverOverruns(b: Board, c: Color, lastMove: Option<Move>, s: Position)
    requires InCheck(c, b, lastMove) && s in b && b[s].color == c && b[s].kind == King
    ensures !ProbeOverruns(b, s, lastMove)
    ensures KingMovesAsWritten(b, s, lastMove) == Ok(KingMoves(b, s, lastMove))
  {
    KingMovesAsWrittenAgrees(b, s, lastMove);
  }

  method IsStalemate(c: Color, pm: ChessPieceMap, lastMove: Option<Move>) returns (r: bool)
    ensures r == Stalemate(c, pm.squares, lastMove)
  {
    var check := IsKingInCheck(c, pm, lastMove);
    if check {
      return false;
    }
    var escape := AnyEscape(pm, c, lastMove);
    r := !escape;
  }

  /**
   * isMoveValidUnderCheck: false without a piece on the start square; when
   * its side is not in check, isValidMove; when it is, only whether the
   * simulated board gets it out of check.
   */
  predicate ValidUnderCheck(b: Board, m: Move, lastMove: Option<Move>)
  {
    m.start in b &&
    if !InCheck(b[m.start].color, b, lastMove) then ValidMove(b, m, lastMove)
    else !InCheck(b[m.start].color, Simulate(m, b), lastMove)
  }

  /**
   * Every valid move passes the shortcut, and on the piece's own generated
   * moves the shortcut agrees with isValidMove whether or not its side is
   * in check.
   */
  lemma ValidUnderCheckAgrees(b: Board, m: Move, lastMove: Option<Move>)
    ensures m.start in b && ValidMove(b, m, lastMove) ==> ValidUnderCheck(b, m, lastMove)
    ensures m.start in b && m in GeneratedMoves(b, m.start, lastMove) ==>
              (ValidUnderCheck(b, m, lastMove) <==> ValidMove(b, m, lastMove))
    ensures m.start !in b ==> !ValidUnderCheck(b, m, lastMove)
  {
  }

  method IsMoveValidUnderCheck(m: Move, pm: ChessPieceMap, lastMove: Option<Move>) returns (r: bool)
    ensures r == ValidUnderCheck(pm.squares, m, lastMove)
  {
    var piece := pm.GetPiece(m.start);
    if piece.None? {
      return false;
    }
    var color := piece.value.color;
    var check := IsKingInCheck(color, pm, lastMove);
    if !check {
      r := IsValidMove(pm, m, lastMove);
      return;
    }
    var temp := SimulateMove(m, pm);
    var after := IsKingInCheck(color, temp, lastMove);
    r := !after;
  }

  // ---------------------------------------------------------------- dead position

  /** The six counters of isDeadPosition. */
  datatype Tally = Tally(whiteKnights: nat, whiteBishops: nat, blackKnights: nat, blackBishops: nat,
                         whiteOther: nat, blackOther: nat)

  const NoPieces := Tally(0, 0, 0, 0, 0, 0)

  /** One piece counted: knights and bishops per colour, and every kind but the king as "other". */
  function Count(t: Tally, p: Piece): Tally
  {
    if p.color == White then
      if p.kind == Knight then t.(whiteKnights := t.whiteKnights + 1)
      else if p.kind == Bishop then t.(whiteBishops := t.whiteBishops + 1)
      else if p.kind != King then t.(whiteOther := t.whiteOther + 1)
      else t
    else
      if p.kind == Knight then t.(blackKnights := t.blackKnights + 1)
      else if p.kind == Bishop then t.(blackBishops := t.blackBishops + 1)
      else if p.kind != King then t.(blackOther := t.blackOther + 1)
      else t
  }

  /** The counters after the first n squares of the scan. */
  function TallyUpTo(b: Board, n: nat): Tally
    requires n <= 64
  {
    if n == 0 then NoPieces
    else
      var p := SquareAt(n - 1);
      if p in b then Count(TallyUpTo(b, n - 1), b[p]) else TallyUpTo(b, n - 1)
  }

  /** The bishop of colour c the scan meets last among its first n squares. */
  function LastBishop(b: Board, c: Color, n: nat): Option<Position>
    requires n <= 64
  {
    if n == 0 then None
    else
      var p := SquareAt(n - 1);
      if p in b && b[p].kind == Bishop && b[p].color == c then Some(p) else LastBishop(b, c, n - 1)
  }

  predicate SameShade(p: Position, q: Position)
  {
    (p.col + p.row) % 2 == (q.col + q.row) % 2
  }

  /**
   * isDeadPosition, in the source's order: any pawn, rook or queen rules it
   * out; two bare kings, king and one knight against king, king and one
   * bishop against king, and king and bishop against king and bishop with
   * the bishops on squares of one shade are dead.
   */
  function DeadPosition(b: Board): bool
  {
    var t := TallyUpTo(b, 64);
    var total := |b|;
    var minors := t.whiteKnights + t.whiteBishops + t.blackKnights + t.blackBishops;
    if t.whiteOther > 0 || t.blackOther > 0 then false
    else if total == 2 && minors == 0 then true
    else if total == 3 && minors == 1 && t.whiteKnights + t.blackKnights == 1 then true
    else if total == 3 && minors == 1 && t.whiteBishops + t.blackBishops == 1 then true
    else if total == 4 && t.whiteBishops == 1 && t.blackBishops == 1 && t.whiteKnights == 0 && t.blackKnights == 0 then
      var w := LastBishop(b, White, 64);
      var k := LastBishop(b, Black, 64);
      w.Some? && k.Some? && SameShade(w.value, k.value)
    else false
  }

  /** A kind isDeadPosition counts as "other". */
  predicate Heavy(k: Kind)
  {
    k == Pawn || k == Rook || k == Queen
  }

  /** Square j of the scan is p exactly when p's index is j. */
  lemma ScanStepAt(p: Position, j: int)
    requires 0 <= j < 64
    ensures SquareAt(j) == p <==> IndexOf(p) == j
  {
    ScanCoversBoard(p);
    SquareAtIndex(j);
  }

  lemma SquareAtIndex(j: int)
    requires 0 <= j < 64
    ensures IndexOf(SquareAt(j)) == j
  {
  }

  /** The "other" counters are zero exactly when the squares counted hold no pawn, rook or queen of that colour. */
  lemma {:induction false} OthersCountHeavy(b: Board, n: nat)
    requires n <= 64
    ensures TallyUpTo(b, n).whiteOther == 0 <==>
            forall j :: 0 <= j < n && SquareAt(j) in b && b[SquareAt(j)].color == White ==> !Heavy(b[SquareAt(j)].kind)
    ensures TallyUpTo(b, n).blackOther == 0 <==>
            forall j :: 0 <= j < n && SquareAt(j) in b && b[SquareAt(j)].color == Black ==> !Heavy(b[SquareAt(j)].kind)
  {
    if n > 0 {
      OthersCountHeavy(b, n - 1);
    }
  }

  /** Any pawn, rook or queen on the board rules out a dead position. */
  lemma HeavyPieceNotDead(b: Board, q: Position)
    requires q in b && Heavy(b[q].kind)
    ensures !DeadPosition(b)
  {
    ScanCoversBoard(q);
    OthersCountHeavy(b, 64);
  }

  /** A dead position holds only kings, knights and bishops, two to four pieces. */
  lemma DeadShape(b: Board)
    requires DeadPosition(b)
    ensures forall q | q in b :: !Heavy(b[q].kind)
    ensures 2 <= |b| <= 4
  {
    forall q | q in b
      ensures !Heavy(b[q].kind)
    {
      if Heavy(b[q].kind) {
        HeavyPieceNotDead(b, q);
      }
    }
  }

  /** On a board of kings alone, nothing is counted. */
  lemma {:induction false} TallyOfKings(b: Board, n: nat)
    requires n <= 64
    requires forall q | q in b :: b[q].kind == King
    ensures TallyUpTo(b, n) == NoPieces
  {
    if n > 0 {
      TallyOfKings(b, n - 1);
    }
  }

  /** Two bare kings are a dead position. */
  lemma BareKingsDead(b: Board)
    requires |b| == 2 && forall q | q in b :: b[q].kind == King
    ensures DeadPosition(b)
  {
    TallyOfKings(b, 64);
  }

  /** With one piece x besides kings, the counters hold x once the scan has passed it. */
  lemma {:induction false} TallyOfOne(b: Board, x: Position, n: nat)
    requires n <= 64 && x in b
    requires forall q | q in b :: q == x || b[q].kind == King
    ensures TallyUpTo(b, n) == if IndexOf(x) < n then Count(NoPieces, b[x]) else NoPieces
  {
    if n > 0 {
      TallyOfOne(b, x, n - 1);
      ScanStepAt(x, n - 1);
    }
  }

  /** King and one knight, or king and one bishop, against a bare king is a dead position. */
  lemma OneMinorDead(b: Board, x: Position)
    requires |b| == 3 && x in b && (b[x].kind == Knight || b[x].kind == Bishop)
    requires forall q | q in b :: q == x || b[q].kind == King
    ensures DeadPosition(b)
  {
    ScanCoversBoard(x);
    TallyOfOne(b, x, 64);
  }

  /** With one white and one black bishop besides kings, the scan counts both once it has passed them. */
  lemma {:induction false} TallyOfBishops(b: Board, w: Position, k: Position, n: nat)
    requires n <= 64 && w in b && k in b
    requires b[w].kind == Bishop && b[w].color == White && b[k].kind == Bishop && b[k].color == Black
    requires forall q | q in b :: q == w || q == k || b[q].kind == King
    ensures TallyUpTo(b, n) ==
            NoPieces.(whiteBishops := if IndexOf(w) < n then 1 else 0, blackBishops := if IndexOf(k) < n then 1 else 0)
  {
    if n > 0 {
      TallyOfBishops(b, w, k, n - 1);
      ScanStepAt(w, n - 1);
      ScanStepAt(k, n - 1);
      var p := SquareAt(n - 1);
      var t := TallyUpTo(b, n - 1);
      if p == w {
        assert TallyUpTo(b, n) == t.(whiteBishops := t.whiteBishops + 1);
      } else if p == k {
        assert TallyUpTo(b, n) == t.(blackBishops := t.blackBishops + 1);
      } else {
        assert TallyUpTo(b, n) == t;
      }
    }
  }

  /** When x holds the only bishop of colour c, the scan remembers x once it has passed it. */
  lemma {:induction false} LastBishopOfOne(b: Board, c: Color, x: Position, n: nat)
    requires n <= 64 && x in b && b[x].kind == Bishop && b[x].color == c
    requires forall q | q in b && b[q].kind == Bishop && b[q].color == c :: q == x
    ensures LastBishop(b, c, n) == if IndexOf(x) < n then Some(x) else None
  {
    if n > 0 {
      LastBishopOfOne(b, c, x, n - 1);
      ScanStepAt(x, n - 1);
    }
  }

  /** King and bishop against king and bishop is dead exactly when the bishops share a shade. */
  lemma OppositeBishopsDeadIffSameShade(b: Board, w: Position, k: Position)
    requires |b| == 4 && w in b && k in b
    requires b[w].kind == Bishop && b[w].color == White && b[k].kind == Bishop && b[k].color == Black
    requires forall q | q in b :: q == w || q == k || b[q].kind == King
    ensures DeadPosition(b) <==> SameShade(w, k)
  {
    ScanCoversBoard(w);
    ScanCoversBoard(k);
    TallyOfBishops(b, w, k, 64);
    LastBishopOfOne(b, White, w, 64);
    LastBishopOfOne(b, Black, k, 64);
  }

  /** The counting loop of isDeadPosition, over the scan. */
  method CountPieces(pm: ChessPieceMap) returns (t: Tally)
    ensures t == TallyUpTo(pm.squares, 64)
  {
    t := NoPieces;
    for i := 0 to 64
      invariant t == TallyUpTo(pm.squares, i)
    {
      var p := SquareAt(i);
      if p in pm.squares {
        var piece := pm.squares[p];
        if piece.color == White {
          if piece.kind == Knight {
            t := t.(whiteKnights := t.whiteKnights + 1);
          } else if piece.kind == Bishop {
            t := t.(whiteBishops := t.whiteBishops + 1);
          } else if piece.kind != King {
            t := t.(whiteOther := t.whiteOther + 1);
          }
        } else {
          if piece.kind == Knight {
            t := t.(blackKnights := t.blackKnights + 1);
          } else if piece.kind == Bishop {
            t := t.(blackBishops := t.blackBishops + 1);
          } else if piece.kind != King {
            t := t.(blackOther := t.blackOther + 1);
          }
        }
      }
    }
  }

  /** The bishop-finding loop of isDeadPosition: the last bishop of each colour wins. */
  method FindBishops(pm: ChessPieceMap) returns (white: Option<Position>, black: Option<Position>)
    ensures white == LastBishop(pm.squares, White, 64)
    ensures black == LastBishop(pm.squares, Black, 64)
  {
    white, black := None, None;
    for i := 0 to 64
      invariant white == LastBishop(pm.squares, White, i)
      invariant black == LastBishop(pm.squares, Black, i)
    {
      var p := SquareAt(i);
      if p in pm.squares && pm.squares[p].kind == Bishop {
        if pm.squares[p].color == White {
          white := Some(p);
        } else {
          black := Some(p);
        }
      }
    }
  }

  method IsDeadPosition(pm: ChessPieceMap) returns (r: bool)
    ensures r == DeadPosition(pm.squares)
  {
    var t := CountPieces(pm);
    var total := |pm.squares|;
    if t.whiteOther > 0 || t.blackOther > 0 {
      return false;
    }
    var minors := t.whiteKnights + t.whiteBishops + t.blackKnights + t.blackBishops;
    if total == 2 && t.whiteKnights == 0 && t.whiteBishops == 0 && t.blackKnights == 0 && t.blackBishops == 0 {
      return true;
    }
    if total == 3 && minors == 1 && t.whiteKnights + t.blackKnights == 1 {
      return true;
    }
    if total == 3 && minors == 1 && t.whiteBishops + t.blackBishops == 1 {
      return true;
    }
    if total == 4 && t.whiteBishops == 1 && t.blackBishops == 1 && t.whiteKnights == 0 && t.blackKnights == 0 {
      var white, black := FindBishops(pm);
      if white.Some? && black.Some? && SameShade(white.value, black.value) {
        return true;
      }
    }
    r := false;
  }
}
