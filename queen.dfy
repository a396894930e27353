/** Queen: slides along rows, columns and diagonals. */
module Queens {
  import opened Colors
  import opened Positions
  import opened Moves
  import opened Pieces
  import opened PieceMaps
  import opened Movement
  import opened Rooks
  import opened Bishops

  /** The rook directions then the bishop directions, as listed in the generator. */
  const QueenDirections: seq<Vec> :=
    [Vec(0, 1), Vec(0, -1), Vec(1, 0), Vec(-1, 0), Vec(1, 1), Vec(1, -1), Vec(-1, 1), Vec(-1, -1)]

  /** generateValidMoves for a queen of p's colour on s. */
  function QueenMoves(b: Board, s: Position, p: Piece): seq<Move>
  {
    Slide(b, s, p.color, QueenDirections)
  }

  /** A queen's list is the rook's list followed by the bishop's, from the same square. */
  lemma QueenIsRookThenBishop(b: Board, s: Position, p: Piece)
    ensures QueenMoves(b, s, p) == RookMoves(b, s, p) + BishopMoves(b, s, p)
  {
    assert QueenDirections == RookDirections + BishopDirections;
    SlideConcat(b, s, p.color, RookDirections, BishopDirections);
  }

  method GenerateQueenMoves(pm: ChessPieceMap, s: Position, p: Piece) returns (moves: seq<Move>)
    ensures moves == QueenMoves(pm.squares, s, p)
  {
    moves := SlideAll(pm, s, p.color, QueenDirections);
  }
}
