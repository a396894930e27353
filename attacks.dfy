/**
 * Check detection and move simulation (BoardUtils.simulateMove and
 * BoardUtils.isKingInCheck). A king is in check when the opposing king
 * stands next to it, or when the move list of some opposing piece other
 * than the king ends on its square. Opposing kings are never asked for
 * their moves here, which is what keeps king move generation, castling
 * and check detection from calling one another forever.
 */
module Attacks {
  import opened Wrappers
  import opened Colors
  import opened Positions
  import opened Moves
  import opened Pieces
  import opened PieceMaps
  import opened Movement
  import opened Pawns
  import opened Knights
  import opened Bishops
  import opened Rooks
  import opened Queens

  /** generateValidMoves for every kind but the king, dispatched on the kind. */
  function NonKingMoves(b: Board, s: Position, p: Piece, lastMove: Option<Move>): seq<Move>
    requires p.kind != King
  {
    match p.kind
    case Pawn => PawnMoves(b, s, p, lastMove)
    case Knight => KnightMoves(b, s, p)
    case Bishop => BishopMoves(b, s, p)
    case Rook => RookMoves(b, s, p)
    case Queen => QueenMoves(b, s, p)
  }

  /** Every generated move starts on the square it was generated for. */
  lemma NonKingMovesStart(b: Board, s: Position, p: Piece, lastMove: Option<Move>, m: Move)
    requires p.kind != King && m in NonKingMoves(b, s, p, lastMove)
    ensures m.start == s
  {
    match p.kind
    case Pawn => PawnMovesExact(b, s, p, lastMove, m);
    case Knight => KnightMovesExact(b, s, p, m);
    case Bishop => BishopMovesExact(b, s, p, m);
    case Rook => RookMovesExact(b, s, p, m);
    case Queen => QueenIsRookThenBishop(b, s, p); RookMovesExact(b, s, p, m); BishopMovesExact(b, s, p, m);
  }

  method GenerateNonKingMoves(pm: ChessPieceMap, s: Position, p: Piece, lastMove: Option<Move>) returns (moves: seq<Move>)
    requires p.kind != King
    ensures moves == NonKingMoves(pm.squares, s, p, lastMove)
  {
    match p.kind {
      case Pawn => moves := GeneratePawnMoves(pm, s, p, lastMove);
      case Knight => moves := GenerateKnightMoves(pm, s, p);
      case Bishop => moves := GenerateBishopMoves(pm, s, p);
      case Rook => moves := GenerateRookMoves(pm, s, p);
      case Queen => moves := GenerateQueenMoves(pm, s, p);
    }
  }

  /**
   * The square simulateMove clears as an en-passant capture: a pawn moving
   * to another column onto a square that was empty.
   */
  function SimulatedVictim(m: Move, b: Board): Option<Position>
    requires m.start in b
  {
    if b[m.start].kind == Pawn && m.start.col != m.end.col && m.end !in b
    then Some(Pos(m.end.col, m.start.row)) else None
  }

  /**
   * simulateMove: a copy of the board with the piece moved from start to
   * end (capturing whatever stood there) and, for an en-passant shape, the
   * pawn beside the start removed. The input board is left as it was.
   */
  function Simulate(m: Move, b: Board): Board
    requires m.start in b
  {
    var piece := b[m.start];
    var t := (b - {m.end} - {m.start})[m.end := piece];
    match SimulatedVictim(m, b)
    case Some(v) => t - {v}
    case None => t
  }

  /**
   * The simulated board holds the moved piece on the end square, nothing on
   * the start square or the en-passant victim's square, and is otherwise
   * the input board.
   */
  lemma SimulateExact(m: Move, b: Board)
    requires m.start in b
    ensures forall q: Position :: q in Simulate(m, b) <==>
              (q == m.end || (q in b && q != m.start)) && SimulatedVictim(m, b) != Some(q)
    ensures forall q: Position :: q in Simulate(m, b) ==> Simulate(m, b)[q] == if q == m.end then b[m.start] else b[q]
  {
  }

  /** Two squares touch (or coincide). */
  predicate Adjacent(p: Position, q: Position)
  {
    Abs(p.col - q.col) <= 1 && Abs(p.row - q.row) <= 1
  }

  /** The piece on q is not a king and one of its generated moves ends on k. */
  predicate AttacksSquare(b: Board, q: Position, k: Position, lastMove: Option<Move>)
  {
    q in b && b[q].kind != King &&
    exists m | m in NonKingMoves(b, q, b[q], lastMove) :: m.end == k
  }

  /** Some piece of colour attacker, other than a king, attacks k. */
  predicate Attacked(b: Board, k: Position, attacker: Color, lastMove: Option<Move>)
  {
    exists q {:trigger AttacksSquare(b, q, k, lastMove)} | q in b && b[q].color == attacker :: AttacksSquare(b, q, k, lastMove)
  }

  /** isKingInCheck: no king means no check. */
  function InCheck(c: Color, b: Board, lastMove: Option<Move>): bool
  {
    match KingPosition(b, c)
    case None => false
    case Some(k) =>
      var opp := KingPosition(b, Opponent(c));
      (opp.Some? && Adjacent(k, opp.value)) || Attacked(b, k, Opponent(c), lastMove)
  }

  /** The king found for c is in check exactly when the opposing king touches it or a non-king enemy attacks it. */
  lemma InCheckExact(c: Color, b: Board, lastMove: Option<Move>, k: Position)
    requires KingPosition(b, c) == Some(k)
    ensures InCheck(c, b, lastMove) <==>
            (exists q: Position :: IsKingOf(b, q, Opponent(c)) && Adjacent(k, q) && KingPosition(b, Opponent(c)) == Some(q))
            || exists q | q in b && b[q].color == Opponent(c) :: AttacksSquare(b, q, k, lastMove)
  {
  }

  /** A board without a king of colour c never has c in check. */
  lemma NoKingNoCheck(c: Color, b: Board, lastMove: Option<Move>)
    requires forall p: Position :: !IsKingOf(b, p, c)
    ensures !InCheck(c, b, lastMove)
  {
    KingPositionExact(b, c);
  }

  method SimulateMove(m: Move, pm: ChessPieceMap) returns (temp: ChessPieceMap)
    requires m.start in pm.squares
    ensures fresh(temp)
    ensures temp.squares == Simulate(m, pm.squares)
  {
    temp := new ChessPieceMap();
    var todo := pm.squares.Keys;
    while todo != {}
      invariant todo <= pm.squares.Keys
      invariant temp.squares == map p | p in pm.squares.Keys - todo :: pm.squares[p]
      decreases todo
    {
      var p :| p in todo;
      temp.SetPiece(p, pm.squares[p]);
      todo := todo - {p};
    }
    assert temp.squares == pm.squares;
    var piece := temp.GetPiece(m.start);
    temp.RemovePiece(m.end);
    temp.RemovePiece(m.start);
    temp.SetPiece(m.end, piece.value);
    var targetWasOccupied := pm.HasPiece(m.end);
    if piece.value.kind == Pawn && m.start.col != m.end.col && !targetWasOccupied {
      var captured: Position := Pos(m.end.col, m.start.row);
      temp.RemovePiece(captured);
    }
  }

  /** The inner loop of isKingInCheck: does one enemy piece's move list end on k? */
  method PieceAttacks(pm: ChessPieceMap, q: Position, k: Position, lastMove: Option<Move>) returns (r: bool)
    requires q in pm.squares && pm.squares[q].kind != King
    ensures r == AttacksSquare(pm.squares, q, k, lastMove)
  {
    var attacks := GenerateNonKingMoves(pm, q, pm.squares[q], lastMove);
    for i := 0 to |attacks|
      invariant forall j :: 0 <= j < i ==> attacks[j].end != k
    {
      if attacks[i].end == k {
        return true;
      }
    }
    r := false;
  }

  method IsKingInCheck(c: Color, pm: ChessPieceMap, lastMove: Option<Move>) returns (r: bool)
    ensures r == InCheck(c, pm.squares, lastMove)
  {
    var kingPos := pm.GetKingPosition(c);
    if kingPos.None? {
      return false;
    }
    var k := kingPos.value;
    var opponent := if c == White then Black else White;
    var opponentKingPos := pm.GetKingPosition(opponent);
    if opponentKingPos.Some? && Abs(k.col - opponentKingPos.value.col) <= 1 && Abs(k.row - opponentKingPos.value.row) <= 1 {
      return true;
    }
    r := AnyAttacker(pm, k, opponent, lastMove);
  }

  /** The outer loop of isKingInCheck, over the board's entries. */
  method AnyAttacker(pm: ChessPieceMap, k: Position, attacker: Color, lastMove: Option<Move>) returns (r: bool)
    ensures r == Attacked(pm.squares, k, attacker, lastMove)
  {
    var todo := pm.squares.Keys;
    while todo != {}
      invariant todo <= pm.squares.Keys
      invariant forall q | q in pm.squares.Keys - todo && pm.squares[q].color == attacker :: !AttacksSquare(pm.squares, q, k, lastMove)
      decreases todo
    {
      var q :| q in todo;
      var enemy := pm.squares[q];
      if enemy.color == attacker && enemy.kind != King {
        var hit := PieceAttacks(pm, q, k, lastMove);
        if hit {
          return true;
        }
      }
      todo := todo - {q};
    }
    r := false;
  }
}
