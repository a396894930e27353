/** Rook: slides along its row and column. */
module Rooks {
  import opened Colors
  import opened Positions
  import opened Moves
  import opened Pieces
  import opened PieceMaps
  import opened Movement

  const RookDirections: seq<Vec> := [Vec(0, 1), Vec(0, -1), Vec(1, 0), Vec(-1, 0)]

  /** generateValidMoves for a rook of p's colour on s. */
  function RookMoves(b: Board, s: Position, p: Piece): seq<Move>
  {
    Slide(b, s, p.color, RookDirections)
  }

  /** The rook reaches exactly the slide targets of its four directions. */
  lemma RookMovesExact(b: Board, s: Position, p: Piece, m: Move)
    ensures m in RookMoves(b, s, p) <==>
            m.start == s && exists i :: 0 <= i < 4 && SlideTarget(b, s, p.color, RookDirections[i], m.end)
  {
    SlideExact(b, s, p.color, RookDirections, m);
  }

  /** Every rook move stays on its row or on its column, and goes somewhere else. */
  lemma RookMovesStraight(b: Board, s: Position, p: Piece, m: Move)
    requires m in RookMoves(b, s, p)
    ensures (m.end.col == s.col) != (m.end.row == s.row)
  {
    RookMovesExact(b, s, p, m);
    var i :| 0 <= i < 4 && SlideTarget(b, s, p.color, RookDirections[i], m.end);
    var k :| 1 <= k && m.end == Ray(s, RookDirections[i], k);
    StraightRay(s, RookDirections[i], k);
  }

  /** On an empty board a rook has fourteen moves from any square. */
  lemma RookOnEmptyBoard(s: Position, p: Piece)
    ensures |RookMoves(map[], s, p)| == 14
  {
    var dirs := RookDirections;
    var c := p.color;
    var b: Board := map[];
    SlideOfFour(b, s, c, dirs);
    WalkOnEmptyBoard(s, c, dirs[0], 1);
    WalkOnEmptyBoard(s, c, dirs[1], 1);
    WalkOnEmptyBoard(s, c, dirs[2], 1);
    WalkOnEmptyBoard(s, c, dirs[3], 1);
  }

  method GenerateRookMoves(pm: ChessPieceMap, s: Position, p: Piece) returns (moves: seq<Move>)
    ensures moves == RookMoves(pm.squares, s, p)
  {
    moves := SlideAll(pm, s, p.color, RookDirections);
  }
}
