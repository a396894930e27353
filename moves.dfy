/** A move from one square to another (ChessMove). */
module Moves {
  import opened Wrappers
  import opened Positions

  datatype Move = Move(start: Position, end: Position)

  /** `new ChessMove(startX, startY, endX, endY)`: both squares must be on the board. */
  function MakeMove(startCol: int, startRow: int, endCol: int, endRow: int): (r: Result<Move>)
    ensures r.Ok? <==> IsWithinBoard(startCol, startRow) && IsWithinBoard(endCol, endRow)
    ensures r.Ok? ==> r.value.start == Pos(startCol, startRow) && r.value.end == Pos(endCol, endRow)
    ensures r.Err? ==> r.error == InvalidPosition
  {
    match MakePosition(startCol, startRow)
    case Err(e) => Err(e)
    case Ok(s) =>
      match MakePosition(endCol, endRow)
      case Err(e) => Err(e)
      case Ok(t) => Ok(Move(s, t))
  }

  /** moveNotation: the two squares in long algebraic form, e.g. "e2e4". */
  function MoveNotation(m: Move): (s: string)
    ensures |s| == 4
    ensures FromNotation(s[..2]) == Ok(m.start) && FromNotation(s[2..]) == Ok(m.end)
  {
    NotationRoundTrip(m.start);
    NotationRoundTrip(m.end);
    var s := ToNotation(m.start) + ToNotation(m.end);
    assert s[..2] == ToNotation(m.start) && s[2..] == ToNotation(m.end);
    s
  }
}
