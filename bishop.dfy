/** Bishop: slides along the four diagonals. */
module Bishops {
  import opened Colors
  import opened Positions
  import opened Moves
  import opened Pieces
  import opened PieceMaps
  import opened Movement

  const BishopDirections: seq<Vec> := [Vec(1, 1), Vec(1, -1), Vec(-1, 1), Vec(-1, -1)]

  /** generateValidMoves for a bishop of p's colour on s. */
  function BishopMoves(b: Board, s: Position, p: Piece): seq<Move>
  {
    Slide(b, s, p.color, BishopDirections)
  }

  /** The bishop reaches exactly the slide targets of its four diagonals. */
  lemma BishopMovesExact(b: Board, s: Position, p: Piece, m: Move)
    ensures m in BishopMoves(b, s, p) <==>
            m.start == s && exists i :: 0 <= i < 4 && SlideTarget(b, s, p.color, BishopDirections[i], m.end)
  {
    SlideExact(b, s, p.color, BishopDirections, m);
  }

  /** Every bishop move changes column and row by the same non-zero amount, so it keeps the square colour. */
  lemma BishopMovesDiagonal(b: Board, s: Position, p: Piece, m: Move)
    requires m in BishopMoves(b, s, p)
    ensures DiagonalFrom(s, m.end)
  {
    SlideDiagonal(b, s, p.color, BishopDirections, m);
  }

  method GenerateBishopMoves(pm: ChessPieceMap, s: Position, p: Piece) returns (moves: seq<Move>)
    ensures moves == BishopMoves(pm.squares, s, p)
  {
    moves := SlideAll(pm, s, p.color, BishopDirections);
  }
}
