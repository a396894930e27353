/**
 * Pawn: one step forward onto an empty square, two from its start row,
 * diagonal captures, and en passant judged from the last move played
 * (which Java reads from the BoardState the pawn holds, passed here as
 * `lastMove`).
 */
module Pawns {
  import opened Wrappers
  import opened Colors
  import opened Positions
  import opened Moves
  import opened Pieces
  import opened PieceMaps
  import opened Movement

  /** White pawns move up the rows, Black pawns down. */
  function Direction(c: Color): (d: int)
    ensures d == 1 || d == -1
    ensures d == 1 <==> c == White
  {
    if IsWhite(c) then 1 else -1
  }

  function StartRow(c: Color): int
  {
    if c == White then 1 else 6
  }

  /** The forward steps: one square if empty, then two from the start row of an unmoved pawn. */
  function Pushes(b: Board, s: Position, p: Piece): seq<Move>
  {
    var dir := Direction(p.color);
    var newRow := s.row + dir;
    if 0 <= newRow <= 7 && Pos(s.col, newRow) !in b then
      [Move(s, Pos(s.col, newRow))]
      + (if !p.moved && s.row == StartRow(p.color) && Pos(s.col, s.row + 2 * dir) !in b
         then [Move(s, Pos(s.col, s.row + 2 * dir))] else [])
    else []
  }

  /** The diagonal capture onto column col, if it holds an opposing piece. */
  function CaptureOn(b: Board, s: Position, p: Piece, col: int): seq<Move>
  {
    var q := Pos(col, s.row + Direction(p.color));
    if IsWithinBoard(q.col, q.row) && q in b && b[q].color != p.color then [Move(s, q)] else []
  }

  /**
   * En passant: the last move put a pawn two rows from its start, beside
   * this one on the same row; the pawn moves behind it. The colour of that
   * pawn is not examined.
   */
  function EnPassant(b: Board, s: Position, p: Piece, lastMove: Option<Move>): seq<Move>
  {
    match lastMove
    case None => []
    case Some(m) =>
      var row := s.row + Direction(p.color);
      if m.end in b && b[m.end].kind == Pawn && Abs(m.start.row - m.end.row) == 2
         && m.end.row == s.row && Abs(m.end.col - s.col) == 1 && 0 <= row <= 7
      then [Move(s, Pos(m.end.col, row))]
      else []
  }

  /** generateValidMoves for a pawn. */
  function PawnMoves(b: Board, s: Position, p: Piece, lastMove: Option<Move>): seq<Move>
  {
    Pushes(b, s, p) + CaptureOn(b, s, p, s.col - 1) + CaptureOn(b, s, p, s.col + 1) + EnPassant(b, s, p, lastMove)
  }

  ghost predicate SinglePush(b: Board, s: Position, p: Piece, q: Position)
  {
    q == Pos(s.col, s.row + Direction(p.color)) && q !in b
  }

  ghost predicate DoublePush(b: Board, s: Position, p: Piece, q: Position)
  {
    !p.moved && s.row == StartRow(p.color)
    && Pos(s.col, s.row + Direction(p.color)) !in b
    && q == Pos(s.col, s.row + 2 * Direction(p.color)) && q !in b
  }

  ghost predicate DiagonalCapture(b: Board, s: Position, p: Piece, q: Position)
  {
    q.row == s.row + Direction(p.color) && Abs(q.col - s.col) == 1 && q in b && b[q].color != p.color
  }

  ghost predicate EnPassantCapture(b: Board, s: Position, p: Piece, lastMove: Option<Move>, q: Position)
  {
    lastMove.Some? &&
    var m := lastMove.value;
    m.end in b && b[m.end].kind == Pawn && Abs(m.start.row - m.end.row) == 2
    && m.end.row == s.row && Abs(m.end.col - s.col) == 1
    && q == Pos(m.end.col, s.row + Direction(p.color))
  }

  /** The pawn's moves are exactly its pushes, captures and en-passant captures. */
  lemma PawnMovesExact(b: Board, s: Position, p: Piece, lastMove: Option<Move>, m: Move)
    ensures m in PawnMoves(b, s, p, lastMove) <==>
            m.start == s &&
            (SinglePush(b, s, p, m.end) || DoublePush(b, s, p, m.end)
             || DiagonalCapture(b, s, p, m.end) || EnPassantCapture(b, s, p, lastMove, m.end))
  {
    var q := m.end;
    if m.start == s && DiagonalCapture(b, s, p, q) {
      if q.col == s.col - 1 {
        assert m in CaptureOn(b, s, p, s.col - 1);
      } else {
        assert m in CaptureOn(b, s, p, s.col + 1);
      }
    }
  }

  /** Every pawn move goes exactly one row forward, or two on the double step. */
  lemma PawnMovesForward(b: Board, s: Position, p: Piece, lastMove: Option<Move>, m: Move)
    requires m in PawnMoves(b, s, p, lastMove)
    ensures m.end.row == s.row + Direction(p.color)
         || (m.end.row == s.row + 2 * Direction(p.color) && !p.moved && m.end.col == s.col)
  {
    PawnMovesExact(b, s, p, lastMove, m);
  }

  /** The forward part of generateValidMoves. */
  method PushMoves(pm: ChessPieceMap, s: Position, p: Piece) returns (moves: seq<Move>)
    ensures moves == Pushes(pm.squares, s, p)
  {
    moves := [];
    var dir := Direction(p.color);
    var newRow := s.row + dir;
    if newRow >= 0 && newRow <= 7 {
      var forward: Position := Pos(s.col, newRow);
      var blocked := pm.HasPiece(forward);
      if !blocked {
        moves := moves + [Move(s, forward)];
        if !p.moved && ((IsWhite(p.color) && s.row == 1) || (IsBlack(p.color) && s.row == 6)) {
          var twoForward: Position := Pos(s.col, s.row + 2 * dir);
          var blocked2 := pm.HasPiece(twoForward);
          if !blocked2 {
            moves := moves + [Move(s, twoForward)];
          }
        }
      }
    }
  }

  /** One diagonal of the capture loop of generateValidMoves. */
  method CaptureMove(pm: ChessPieceMap, s: Position, p: Piece, col: int) returns (step: seq<Move>)
    ensures step == CaptureOn(pm.squares, s, p, col)
  {
    var newRow := s.row + Direction(p.color);
    step := [];
    if IsWithinBoard(col, newRow) {
      var capturePos: Position := Pos(col, newRow);
      var occupied := pm.HasPiece(capturePos);
      if occupied {
        var target := pm.GetPiece(capturePos);
        if target.value.color != p.color {
          step := [Move(s, capturePos)];
        }
      }
    }
  }

  /** The en-passant part of generateValidMoves. */
  method EnPassantMove(pm: ChessPieceMap, s: Position, p: Piece, lastMove: Option<Move>) returns (step: seq<Move>)
    ensures step == EnPassant(pm.squares, s, p, lastMove)
  {
    step := [];
    var dir := Direction(p.color);
    match lastMove {
      case None =>
      case Some(m) =>
        var lastMoved := pm.GetPiece(m.end);
        if lastMoved.Some? && lastMoved.value.kind == Pawn && Abs(m.start.row - m.end.row) == 2
           && m.end.row == s.row && Abs(m.end.col - s.col) == 1 && 0 <= s.row + dir <= 7 {
          var target: Position := Pos(m.end.col, s.row + dir);
          step := [Move(s, target)];
        }
    }
  }

  method GeneratePawnMoves(pm: ChessPieceMap, s: Position, p: Piece, lastMove: Option<Move>) returns (moves: seq<Move>)
    ensures moves == PawnMoves(pm.squares, s, p, lastMove)
  {
    moves := PushMoves(pm, s, p);
    var captureCols := [s.col - 1, s.col + 1];
    for i := 0 to 2
      invariant i == 0 ==> moves == Pushes(pm.squares, s, p)
      invariant i == 1 ==> moves == Pushes(pm.squares, s, p) + CaptureOn(pm.squares, s, p, s.col - 1)
      invariant i == 2 ==> moves == Pushes(pm.squares, s, p) + CaptureOn(pm.squares, s, p, s.col - 1) + CaptureOn(pm.squares, s, p, s.col + 1)
    {
      var step := CaptureMove(pm, s, p, captureCols[i]);
      moves := moves + step;
    }
    var ep := EnPassantMove(pm, s, p, lastMove);
    moves := moves + ep;
  }
}
