/**
 * King: one step in each of eight directions, plus castling, with every
 * candidate kept only if the king is then not in check.
 */
module Kings {
  import opened Wrappers
  import opened Colors
  import opened Positions
  import opened Moves
  import opened Pieces
  import opened PieceMaps
  import opened Movement
  import opened Attacks

  const KingDirections: seq<Vec> :=
    [Vec(0, 1), Vec(0, -1), Vec(1, 0), Vec(-1, 0), Vec(1, 1), Vec(1, -1), Vec(-1, 1), Vec(-1, -1)]

  /** The one-square steps onto empty or enemy squares, before the check filter. */
  function KingSteps(b: Board, s: Position, p: Piece): seq<Move>
  {
    Leaps(b, s, p.color, KingDirections)
  }

  /** An unmoved piece of kind Rook stands on q; its colour is not examined. */
  predicate RookReady(b: Board, q: Position)
  {
    q in b && b[q].kind == Rook && !b[q].moved
  }

  /** The squares of row from column lo up to, but not including, hi are empty. */
  predicate EmptyRun(b: Board, row: int, lo: int, hi: int)
  {
    forall col | lo <= col < hi :: Pos(col, row) !in b
  }

  /** Moving the king from s to column col of its row would not leave it in check. */
  predicate SafeStop(b: Board, s: Position, lastMove: Option<Move>, col: int)
    requires s in b && 0 <= col < 8
  {
    !InCheck(b[s].color, Simulate(Move(s, Pos(col, s.row)), b), lastMove)
  }

  /**
   * The king on s would be safe on its own square and on the next two in
   * direction dir, which must be on the board.
   */
  predicate PathSafe(b: Board, s: Position, lastMove: Option<Move>, dir: int)
    requires s in b && (dir == 1 || dir == -1)
  {
    0 <= s.col + 2 * dir < 8 && SafeStop(b, s, lastMove, s.col)
    && SafeStop(b, s, lastMove, s.col + dir) && SafeStop(b, s, lastMove, s.col + 2 * dir)
  }

  /**
   * canCastleKingside as intended: not in check, king unmoved, an unmoved
   * rook on column 7 of the king's row, the squares between empty, and the
   * king safe on its own square and on the next two, which must be on the
   * board.
   */
  predicate CanCastleKingside(b: Board, s: Position, lastMove: Option<Move>)
    requires s in b
  {
    !InCheck(b[s].color, b, lastMove) && !b[s].moved
    && RookReady(b, Pos(7, s.row)) && EmptyRun(b, s.row, s.col + 1, 7)
    && PathSafe(b, s, lastMove, 1)
  }

  /** canCastleQueenside as intended, mirrored onto column 0. */
  predicate CanCastleQueenside(b: Board, s: Position, lastMove: Option<Move>)
    requires s in b
  {
    !InCheck(b[s].color, b, lastMove) && !b[s].moved
    && RookReady(b, Pos(0, s.row)) && EmptyRun(b, s.row, 1, s.col)
    && PathSafe(b, s, lastMove, -1)
  }

  /**
   * The simulation loop of canCastleKingside as written: columns col up to
   * s.col + 2, where `new ChessPosition(8, row)` throws once the loop
   * passes the last column.
   */
  function ProbeRight(b: Board, s: Position, lastMove: Option<Move>, col: int): Result<bool>
    requires s in b && s.col <= col
    decreases s.col + 3 - col
  {
    if col > s.col + 2 then Ok(true)
    else if col > 7 then Err(InvalidPosition)
    else if !SafeStop(b, s, lastMove, col) then Ok(false)
    else ProbeRight(b, s, lastMove, col + 1)
  }

  /** The simulation loop of canCastleQueenside as written, leaving the board at column -1. */
  function ProbeLeft(b: Board, s: Position, lastMove: Option<Move>, col: int): Result<bool>
    requires s in b && col <= s.col
    decreases col - (s.col - 3)
  {
    if col < s.col - 2 then Ok(true)
    else if col < 0 then Err(InvalidPosition)
    else if !SafeStop(b, s, lastMove, col) then Ok(false)
    else ProbeLeft(b, s, lastMove, col - 1)
  }

  /** canCastleKingside exactly as written, thrown exception included. */
  function KingsideAsWritten(b: Board, s: Position, lastMove: Option<Move>): Result<bool>
    requires s in b
  {
    if InCheck(b[s].color, b, lastMove) || b[s].moved then Ok(false)
    else if !RookReady(b, Pos(7, s.row)) || !EmptyRun(b, s.row, s.col + 1, 7) then Ok(false)
    else ProbeRight(b, s, lastMove, s.col)
  }

  /** canCastleQueenside exactly as written, thrown exception included. */
  function QueensideAsWritten(b: Board, s: Position, lastMove: Option<Move>): Result<bool>
    requires s in b
  {
    if InCheck(b[s].color, b, lastMove) || b[s].moved then Ok(false)
    else if !RookReady(b, Pos(0, s.row)) || !EmptyRun(b, s.row, 1, s.col) then Ok(false)
    else ProbeLeft(b, s, lastMove, s.col)
  }

  /** The written kingside probe throws only when it passes column 7 with every square so far safe. */
  lemma ProbeRightMeaning(b: Board, s: Position, lastMove: Option<Move>)
    requires s in b
    ensures s.col + 2 < 8 ==> ProbeRight(b, s, lastMove, s.col) == Ok(PathSafe(b, s, lastMove, 1))
    ensures ProbeRight(b, s, lastMove, s.col).Err? ==> s.col >= 6
  {
    var c := s.col;
    if c <= 7 && SafeStop(b, s, lastMove, c) {
      if c + 1 <= 7 && SafeStop(b, s, lastMove, c + 1) {
        if c + 2 <= 7 && SafeStop(b, s, lastMove, c + 2) {
          assert ProbeRight(b, s, lastMove, c + 3) == Ok(true);
        }
      }
    }
  }

  /** The written queenside probe throws only when it passes column 0 with every square so far safe. */
  lemma ProbeLeftMeaning(b: Board, s: Position, lastMove: Option<Move>)
    requires s in b
    ensures 0 <= s.col - 2 ==> ProbeLeft(b, s, lastMove, s.col) == Ok(PathSafe(b, s, lastMove, -1))
    ensures ProbeLeft(b, s, lastMove, s.col).Err? ==> s.col <= 1
  {
    var c := s.col;
    if 0 <= c && SafeStop(b, s, lastMove, c) {
      if 0 <= c - 1 && SafeStop(b, s, lastMove, c - 1) {
        if 0 <= c - 2 && SafeStop(b, s, lastMove, c - 2) {
          assert ProbeLeft(b, s, lastMove, c - 3) == Ok(true);
        }
      }
    }
  }

  /**
   * Where the written kingside check returns a value it is the intended
   * one; it throws only for an unmoved king on the g-file, where the
   * intended answer is no.
   */
  lemma KingsideAsWrittenAgrees(b: Board, s: Position, lastMove: Option<Move>)
    requires s in b && b[s].kind == King
    ensures KingsideAsWritten(b, s, lastMove).Ok? ==> KingsideAsWritten(b, s, lastMove).value == CanCastleKingside(b, s, lastMove)
    ensures KingsideAsWritten(b, s, lastMove).Err? ==> s.col == 6 && !CanCastleKingside(b, s, lastMove)
  {
    var ready := !InCheck(b[s].color, b, lastMove) && !b[s].moved
      && RookReady(b, Pos(7, s.row)) && EmptyRun(b, s.row, s.col + 1, 7);
    if ready {
      assert KingsideAsWritten(b, s, lastMove) == ProbeRight(b, s, lastMove, s.col);
      ProbeRightMeaning(b, s, lastMove);
    }
  }

  /**
   * Where the written queenside check returns a value it is the intended
   * one; it throws only for an unmoved king on the b-file, where the
   * intended answer is no.
   */
  lemma QueensideAsWrittenAgrees(b: Board, s: Position, lastMove: Option<Move>)
    requires s in b && b[s].kind == King
    ensures QueensideAsWritten(b, s, lastMove).Ok? ==> QueensideAsWritten(b, s, lastMove).value == CanCastleQueenside(b, s, lastMove)
    ensures QueensideAsWritten(b, s, lastMove).Err? ==> s.col == 1 && !CanCastleQueenside(b, s, lastMove)
  {
    var ready := !InCheck(b[s].color, b, lastMove) && !b[s].moved
      && RookReady(b, Pos(0, s.row)) && EmptyRun(b, s.row, 1, s.col);
    if ready {
      assert QueensideAsWritten(b, s, lastMove) == ProbeLeft(b, s, lastMove, s.col);
      ProbeLeftMeaning(b, s, lastMove);
    }
  }

  /**
   * The written checks throw exactly when the king is unmoved and not in
   * check, has an unmoved rook in the corner with the path between empty,
   * and stays safe on its own square and on the last one before the edge:
   * on the g-file for kingside, on the b-file for queenside.
   */
  predicate ProbeOverruns(b: Board, s: Position, lastMove: Option<Move>)
    requires s in b
  {
    !InCheck(b[s].color, b, lastMove) && !b[s].moved &&
    ((s.col == 6 && RookReady(b, Pos(7, s.row)) && SafeStop(b, s, lastMove, 6) && SafeStop(b, s, lastMove, 7))
     || (s.col == 1 && RookReady(b, Pos(0, s.row)) && SafeStop(b, s, lastMove, 1) && SafeStop(b, s, lastMove, 0)))
  }

  lemma CastleThrowsExactly(b: Board, s: Position, lastMove: Option<Move>)
    requires s in b && b[s].kind == King
    ensures KingsideAsWritten(b, s, lastMove).Err? || QueensideAsWritten(b, s, lastMove).Err? <==> ProbeOverruns(b, s, lastMove)
    ensures KingsideAsWritten(b, s, lastMove).Err? ==> KingsideAsWritten(b, s, lastMove).error == InvalidPosition
    ensures QueensideAsWritten(b, s, lastMove).Err? ==> QueensideAsWritten(b, s, lastMove).error == InvalidPosition
  {
    KingsideAsWrittenAgrees(b, s, lastMove);
    QueensideAsWrittenAgrees(b, s, lastMove);
    if s.col == 6 {
      assert EmptyRun(b, s.row, 7, 7);
      var p6 := ProbeRight(b, s, lastMove, 6);
      var p7 := ProbeRight(b, s, lastMove, 7);
      assert ProbeRight(b, s, lastMove, 8) == Err(InvalidPosition);
    }
    if s.col == 1 {
      assert EmptyRun(b, s.row, 1, 1);
      var p1 := ProbeLeft(b, s, lastMove, 1);
      var p0 := ProbeLeft(b, s, lastMove, 0);
      assert ProbeLeft(b, s, lastMove, -1) == Err(InvalidPosition);
    }
  }

  /** White king on g1 and white rook on h1, both unmoved, nothing else. */
  function GFileBoard(): Board
  {
    map[Pos(6, 0) := Piece(King, White, false), Pos(7, 0) := Piece(Rook, White, false)]
  }

  /** White king on b1 and white rook on a1, both unmoved, nothing else. */
  function BFileBoard(): Board
  {
    map[Pos(1, 0) := Piece(King, White, false), Pos(0, 0) := Piece(Rook, White, false)]
  }

  lemma NoBlackPieceNoWhiteCheck(b: Board, lastMove: Option<Move>)
    requires forall q | q in b :: b[q].color == White
    ensures !InCheck(White, b, lastMove)
  {
    KingPositionExact(b, Black);
  }

  /** The written kingside check throws InvalidPositionException for the g-file king; the intended one answers no. */
  lemma KingsideThrowsOnGFile()
    ensures KingsideAsWritten(GFileBoard(), Pos(6, 0), None) == Err(InvalidPosition)
    ensures !CanCastleKingside(GFileBoard(), Pos(6, 0), None)
  {
    var b := GFileBoard();
    var s: Position := Pos(6, 0);
    NoBlackPieceNoWhiteCheck(b, None);
    assert EmptyRun(b, 0, 7, 7);
    var b6 := Simulate(Move(s, Pos(6, 0)), b);
    var b7 := Simulate(Move(s, Pos(7, 0)), b);
    NoBlackPieceNoWhiteCheck(b6, None);
    NoBlackPieceNoWhiteCheck(b7, None);
    assert SafeStop(b, s, None, 6) && SafeStop(b, s, None, 7);
    assert ProbeRight(b, s, None, 8) == Err(InvalidPosition);
  }

  /** The written queenside check throws for the b-file king; the intended one answers no. */
  lemma QueensideThrowsOnBFile()
    ensures QueensideAsWritten(BFileBoard(), Pos(1, 0), None) == Err(InvalidPosition)
    ensures !CanCastleQueenside(BFileBoard(), Pos(1, 0), None)
  {
    var b := BFileBoard();
    var s: Position := Pos(1, 0);
    NoBlackPieceNoWhiteCheck(b, None);
    assert EmptyRun(b, 0, 1, 1);
    var b1 := Simulate(Move(s, Pos(1, 0)), b);
    var b0 := Simulate(Move(s, Pos(0, 0)), b);
    NoBlackPieceNoWhiteCheck(b1, None);
    NoBlackPieceNoWhiteCheck(b0, None);
    assert SafeStop(b, s, None, 1) && SafeStop(b, s, None, 0);
    assert ProbeLeft(b, s, None, -1) == Err(InvalidPosition);
  }

  /** The candidates: steps, then the castling moves to columns 6 and 2 when allowed. */
  function KingCandidates(b: Board, s: Position, lastMove: Option<Move>): seq<Move>
    requires s in b
  {
    KingSteps(b, s, b[s])
    + (if CanCastleKingside(b, s, lastMove) then [Move(s, Pos(6, s.row))] else [])
    + (if CanCastleQueenside(b, s, lastMove) then [Move(s, Pos(2, s.row))] else [])
  }

  predicate StartsIn(b: Board, moves: seq<Move>)
  {
    forall i :: 0 <= i < |moves| ==> moves[i].start in b
  }

  /** The moves after which colour c is not in check, in their order. */
  function SafeMoves(b: Board, c: Color, lastMove: Option<Move>, moves: seq<Move>): seq<Move>
    requires StartsIn(b, moves)
    decreases |moves|
  {
    if |moves| == 0 then []
    else
      var m := moves[|moves| - 1];
      SafeMoves(b, c, lastMove, moves[..|moves| - 1])
      + (if !InCheck(c, Simulate(m, b), lastMove) then [m] else [])
  }

  /** The filter over one more move keeps what it kept and adds that move when it is safe. */
  lemma SafeMovesSnoc(b: Board, c: Color, lastMove: Option<Move>, moves: seq<Move>, i: nat)
    requires StartsIn(b, moves) && i < |moves|
    ensures StartsIn(b, moves[..i]) && StartsIn(b, moves[..i + 1])
    ensures SafeMoves(b, c, lastMove, moves[..i + 1]) ==
            SafeMoves(b, c, lastMove, moves[..i]) + (if !InCheck(c, Simulate(moves[i], b), lastMove) then [moves[i]] else [])
  {
    assert moves[..i + 1][..i] == moves[..i];
  }

  lemma {:induction false} SafeMovesExact(b: Board, c: Color, lastMove: Option<Move>, moves: seq<Move>, m: Move)
    requires StartsIn(b, moves)
    ensures m in SafeMoves(b, c, lastMove, moves) <==> m in moves && !InCheck(c, Simulate(m, b), lastMove)
    decreases |moves|
  {
    if |moves| > 0 {
      var n := |moves| - 1;
      SafeMovesExact(b, c, lastMove, moves[..n], m);
      assert moves == moves[..n] + [moves[n]];
    }
  }

  lemma CandidatesStart(b: Board, s: Position, lastMove: Option<Move>)
    requires s in b
    ensures StartsIn(b, KingCandidates(b, s, lastMove))
  {
    var cs := KingCandidates(b, s, lastMove);
    forall i | 0 <= i < |cs| ensures cs[i].start in b {
      LeapsExact(b, s, b[s].color, KingDirections, cs[i]);
    }
  }

  /** generateValidMoves for the king on s. */
  function KingMoves(b: Board, s: Position, lastMove: Option<Move>): seq<Move>
    requires s in b
  {
    CandidatesStart(b, s, lastMove);
    SafeMoves(b, b[s].color, lastMove, KingCandidates(b, s, lastMove))
  }

  /** q is one square away from s. */
  predicate KingStep(s: Position, q: Position)
  {
    Adjacent(s, q) && q != s
  }

  /** The candidates are the steps onto empty or enemy squares and the allowed castling moves. */
  lemma KingCandidatesExact(b: Board, s: Position, lastMove: Option<Move>, m: Move)
    requires s in b
    ensures m in KingCandidates(b, s, lastMove) <==>
            m.start == s &&
            ((KingStep(s, m.end) && Enterable(b, m.end, b[s].color))
             || (m.end == Pos(6, s.row) && CanCastleKingside(b, s, lastMove))
             || (m.end == Pos(2, s.row) && CanCastleQueenside(b, s, lastMove)))
  {
    LeapsExact(b, s, b[s].color, KingDirections, m);
    if m.start == s && KingStep(s, m.end) {
      var dc, dr := m.end.col - s.col, m.end.row - s.row;
      var i :=
        if dc == 0 && dr == 1 then 0 else if dc == 0 && dr == -1 then 1
        else if dc == 1 && dr == 0 then 2 else if dc == -1 && dr == 0 then 3
        else if dc == 1 && dr == 1 then 4 else if dc == 1 && dr == -1 then 5
        else if dc == -1 && dr == 1 then 6 else 7;
      assert m.end == Offset(s, KingDirections[i]);
    }
    if m in KingSteps(b, s, b[s]) {
      var i :| 0 <= i < 8 && m.end == Offset(s, KingDirections[i]);
    }
  }

  /**
   * The king's moves are exactly the one-square steps onto empty or enemy
   * squares and the allowed castling moves, after which it is not in check.
   */
  lemma KingMovesExact(b: Board, s: Position, lastMove: Option<Move>, m: Move)
    requires s in b
    ensures m in KingMoves(b, s, lastMove) <==>
            m.start == s && !InCheck(b[s].color, Simulate(m, b), lastMove) &&
            ((KingStep(s, m.end) && Enterable(b, m.end, b[s].color))
             || (m.end == Pos(6, s.row) && CanCastleKingside(b, s, lastMove))
             || (m.end == Pos(2, s.row) && CanCastleQueenside(b, s, lastMove)))
  {
    CandidatesStart(b, s, lastMove);
    SafeMovesExact(b, b[s].color, lastMove, KingCandidates(b, s, lastMove), m);
    KingCandidatesExact(b, s, lastMove, m);
  }

  /**
   * generateValidMoves for the king on s as written: the kingside test runs
   * first, so either written test throwing makes the whole call throw.
   */
  function KingMovesAsWritten(b: Board, s: Position, lastMove: Option<Move>): Result<seq<Move>>
    requires s in b && b[s].kind == King
  {
    match KingsideAsWritten(b, s, lastMove)
    case Err(e) => Err(e)
    case Ok(kingside) =>
      match QueensideAsWritten(b, s, lastMove)
      case Err(e) => Err(e)
      case Ok(queenside) =>
        var candidates := KingSteps(b, s, b[s])
          + (if kingside then [Move(s, Pos(6, s.row))] else [])
          + (if queenside then [Move(s, Pos(2, s.row))] else []);
        assert candidates == KingCandidates(b, s, lastMove) by {
          KingsideAsWrittenAgrees(b, s, lastMove);
          QueensideAsWrittenAgrees(b, s, lastMove);
        }
        CandidatesStart(b, s, lastMove);
        Ok(SafeMoves(b, b[s].color, lastMove, candidates))
  }

  /**
   * The written generator agrees with the intended one wherever it returns,
   * and throws InvalidPositionException exactly on the boards where a
   * written castling probe runs off the board.
   */
  lemma KingMovesAsWrittenAgrees(b: Board, s: Position, lastMove: Option<Move>)
    requires s in b && b[s].kind == King
    ensures KingMovesAsWritten(b, s, lastMove).Err? <==> ProbeOverruns(b, s, lastMove)
    ensures KingMovesAsWritten(b, s, lastMove).Err? ==> KingMovesAsWritten(b, s, lastMove).error == InvalidPosition
    ensures KingMovesAsWritten(b, s, lastMove).Ok? ==> KingMovesAsWritten(b, s, lastMove).value == KingMoves(b, s, lastMove)
  {
    CastleThrowsExactly(b, s, lastMove);
    KingsideAsWrittenAgrees(b, s, lastMove);
    QueensideAsWrittenAgrees(b, s, lastMove);
  }

  /** The emptiness loop of the castling checks: columns lo up to, but not including, hi. */
  method RunIsEmpty(pm: ChessPieceMap, row: int, lo: int, hi: int) returns (r: bool)
    requires 0 <= row < 8 && 0 <= lo && hi <= 8
    ensures r == EmptyRun(pm.squares, row, lo, hi)
  {
    var col := lo;
    while col < hi
      invariant lo <= col && (col <= hi || col == lo)
      invariant EmptyRun(pm.squares, row, lo, col)
      decreases hi - col
    {
      var occupied := pm.HasPiece(Pos(col, row));
      if occupied {
        return false;
      }
      col := col + 1;
    }
    return true;
  }

  /**
   * The simulation loop of the castling checks: the king's own square and
   * the next two in direction dir, with the intended stop (answering no)
   * where the written loop would step off the board and throw.
   */
  method PathIsSafe(pm: ChessPieceMap, s: Position, lastMove: Option<Move>, dir: int) returns (r: bool)
    requires s in pm.squares && (dir == 1 || dir == -1)
    ensures r == PathSafe(pm.squares, s, lastMove, dir)
  {
    var color := pm.squares[s].color;
    for k := 0 to 3
      invariant k > 0 ==> SafeStop(pm.squares, s, lastMove, s.col)
      invariant k > 1 ==> 0 <= s.col + dir < 8 && SafeStop(pm.squares, s, lastMove, s.col + dir)
    {
      var col := s.col + k * dir;
      if col < 0 || col > 7 {
        return false;
      }
      var temp := SimulateMove(Move(s, Pos(col, s.row)), pm);
      var check := IsKingInCheck(color, temp, lastMove);
      if check {
        assert !SafeStop(pm.squares, s, lastMove, col);
        return false;
      }
      assert SafeStop(pm.squares, s, lastMove, col);
      if k == 2 {
        return true;
      }
    }
  }

  /** canCastleKingside, with the intended bound on the simulation loop. */
  method CastleKingside(pm: ChessPieceMap, s: Position, lastMove: Option<Move>) returns (r: bool)
    requires s in pm.squares
    ensures r == CanCastleKingside(pm.squares, s, lastMove)
  {
    var king := pm.squares[s];
    var inCheck := IsKingInCheck(king.color, pm, lastMove);
    if inCheck || king.moved {
      return false;
    }
    var rook := pm.GetPiece(Pos(7, s.row));
    if !(rook.Some? && rook.value.kind == Rook) || rook.value.moved {
      return false;
    }
    var empty := RunIsEmpty(pm, s.row, s.col + 1, 7);
    if !empty {
      return false;
    }
    r := PathIsSafe(pm, s, lastMove, 1);
  }

  /** canCastleQueenside, with the intended bound on the simulation loop. */
  method CastleQueenside(pm: ChessPieceMap, s: Position, lastMove: Option<Move>) returns (r: bool)
    requires s in pm.squares
    ensures r == CanCastleQueenside(pm.squares, s, lastMove)
  {
    var king := pm.squares[s];
    var inCheck := IsKingInCheck(king.color, pm, lastMove);
    if inCheck || king.moved {
      return false;
    }
    var rook := pm.GetPiece(Pos(0, s.row));
    if !(rook.Some? && rook.value.kind == Rook) || rook.value.moved {
      return false;
    }
    var empty := RunIsEmpty(pm, s.row, 1, s.col);
    if !empty {
      return false;
    }
    r := PathIsSafe(pm, s, lastMove, -1);
  }

  /** The simulation loop of canCastleKingside as written: the square past column 7 throws. */
  method ProbeRightLoop(pm: ChessPieceMap, s: Position, lastMove: Option<Move>) returns (r: Result<bool>)
    requires s in pm.squares
    ensures r == ProbeRight(pm.squares, s, lastMove, s.col)
  {
    var color := pm.squares[s].color;
    var col := s.col;
    while col <= s.col + 2
      invariant s.col <= col <= s.col + 3
      invariant ProbeRight(pm.squares, s, lastMove, s.col) == ProbeRight(pm.squares, s, lastMove, col)
      decreases s.col + 3 - col
    {
      var q := MakePosition(col, s.row);
      if q.Err? {
        return Err(q.error);
      }
      var temp := SimulateMove(Move(s, q.value), pm);
      var check := IsKingInCheck(color, temp, lastMove);
      if check {
        return Ok(false);
      }
      col := col + 1;
    }
    return Ok(true);
  }

  /** The simulation loop of canCastleQueenside as written: the square before column 0 throws. */
  method ProbeLeftLoop(pm: ChessPieceMap, s: Position, lastMove: Option<Move>) returns (r: Result<bool>)
    requires s in pm.squares
    ensures r == ProbeLeft(pm.squares, s, lastMove, s.col)
  {
    var color := pm.squares[s].color;
    var col := s.col;
    while col >= s.col - 2
      invariant s.col - 3 <= col <= s.col
      invariant ProbeLeft(pm.squares, s, lastMove, s.col) == ProbeLeft(pm.squares, s, lastMove, col)
      decreases col - (s.col - 3)
    {
      var q := MakePosition(col, s.row);
      if q.Err? {
        return Err(q.error);
      }
      var temp := SimulateMove(Move(s, q.value), pm);
      var check := IsKingInCheck(color, temp, lastMove);
      if check {
        return Ok(false);
      }
      col := col - 1;
    }
    return Ok(true);
  }

  /** canCastleKingside as written, as the map constructor of BoardState runs it. */
  method CastleKingsideAsWritten(pm: ChessPieceMap, s: Position, lastMove: Option<Move>) returns (r: Result<bool>)
    requires s in pm.squares
    ensures r == KingsideAsWritten(pm.squares, s, lastMove)
  {
    var king := pm.squares[s];
    var inCheck := IsKingInCheck(king.color, pm, lastMove);
    if inCheck || king.moved {
      return Ok(false);
    }
    var rook := pm.GetPiece(Pos(7, s.row));
    if !(rook.Some? && rook.value.kind == Rook) || rook.value.moved {
      return Ok(false);
    }
    var empty := RunIsEmpty(pm, s.row, s.col + 1, 7);
    if !empty {
      return Ok(false);
    }
    r := ProbeRightLoop(pm, s, lastMove);
  }

  /** canCastleQueenside as written, as the map constructor of BoardState runs it. */
  method CastleQueensideAsWritten(pm: ChessPieceMap, s: Position, lastMove: Option<Move>) returns (r: Result<bool>)
    requires s in pm.squares
    ensures r == QueensideAsWritten(pm.squares, s, lastMove)
  {
    var king := pm.squares[s];
    var inCheck := IsKingInCheck(king.color, pm, lastMove);
    if inCheck || king.moved {
      return Ok(false);
    }
    var rook := pm.GetPiece(Pos(0, s.row));
    if !(rook.Some? && rook.value.kind == Rook) || rook.value.moved {
      return Ok(false);
    }
    var empty := RunIsEmpty(pm, s.row, 1, s.col);
    if !empty {
      return Ok(false);
    }
    r := ProbeLeftLoop(pm, s, lastMove);
  }

  /** The filter of generateValidMoves: keeps the moves after which colour c is not in check. */
  method FilterSafe(pm: ChessPieceMap, c: Color, lastMove: Option<Move>, moves: seq<Move>) returns (valid: seq<Move>)
    requires StartsIn(pm.squares, moves)
    ensures valid == SafeMoves(pm.squares, c, lastMove, moves)
  {
    valid := [];
    for i := 0 to |moves|
      invariant valid == SafeMoves(pm.squares, c, lastMove, moves[..i])
    {
      assert moves[..i + 1][..i] == moves[..i];
      var temp := SimulateMove(moves[i], pm);
      var check := IsKingInCheck(c, temp, lastMove);
      if !check {
        valid := valid + [moves[i]];
      }
    }
    assert moves[..|moves|] == moves;
  }

  method GenerateKingMoves(pm: ChessPieceMap, s: Position, lastMove: Option<Move>) returns (valid: seq<Move>)
    requires s in pm.squares
    ensures valid == KingMoves(pm.squares, s, lastMove)
  {
    var king := pm.squares[s];
    var moves := LeapAll(pm, s, king.color, KingDirections);
    var kingside := CastleKingside(pm, s, lastMove);
    if kingside {
      moves := moves + [Move(s, Pos(6, s.row))];
    }
    var queenside := CastleQueenside(pm, s, lastMove);
    if queenside {
      moves := moves + [Move(s, Pos(2, s.row))];
    }
    assert moves == KingCandidates(pm.squares, s, lastMove);
    CandidatesStart(pm.squares, s, lastMove);
    valid := FilterSafe(pm, king.color, lastMove, moves);
  }
}
