/**
 * Squares of the board (ChessPosition): a column 0..7 for files a..h and a
 * row 0..7 for ranks 1..8, with algebraic notation both ways.
 */
module Positions {
  import opened Wrappers
  import opened Text

  const BoardSize: int := 8

  /** A pair of coordinates, on the board or not. */
  datatype Pos = Pos(col: int, row: int)

  /** BoardUtils.isWithinBoard. */
  predicate IsWithinBoard(col: int, row: int)
  {
    0 <= col < BoardSize && 0 <= row < BoardSize
  }

  /** A ChessPosition: the constructor refuses coordinates off the board. */
  type Position = p: Pos | IsWithinBoard(p.col, p.row) witness Pos(0, 0)

  /** `new ChessPosition(col, row)`: the square, or the InvalidPositionException it throws. */
  function MakePosition(col: int, row: int): (r: Result<Position>)
    ensures r.Ok? <==> 0 <= col < 8 && 0 <= row < 8
    ensures r.Ok? ==> r.value.col == col && r.value.row == row
    ensures r.Err? ==> r.error == InvalidPosition
  {
    if IsWithinBoard(col, row) then Ok(Pos(col, row)) else Err(InvalidPosition)
  }

  /** toChessNotation: file letter then rank digit. */
  function ToNotation(p: Position): (s: string)
    ensures |s| == 2
    ensures 'a' <= s[0] <= 'h' && '1' <= s[1] <= '8'
    ensures s[0] as int - 'a' as int == p.col && s[1] as int - '1' as int == p.row
  {
    [('a' as int + p.col) as char] + NatToString(p.row + 1)
  }

  /** toChessPosition: exactly two characters, a file a..h and a rank 1..8. */
  function FromNotation(s: string): (r: Result<Position>)
    ensures r.Ok? <==> |s| == 2 && 'a' <= s[0] <= 'h' && '1' <= s[1] <= '8'
    ensures r.Ok? ==> ToNotation(r.value) == s
    ensures r.Err? ==> r.error == IllegalArgument
  {
    if |s| == 2 && 'a' <= s[0] <= 'h' && '1' <= s[1] <= '8' then
      Ok(Pos(s[0] as int - 'a' as int, s[1] as int - '1' as int))
    else
      Err(IllegalArgument)
  }

  lemma NotationRoundTrip(p: Position)
    ensures FromNotation(ToNotation(p)) == Ok(p)
  {
  }

  /**
   * ChessPosition.get: the static table keyed by the upper-cased notation
   * "A1".."H8", so the file letter may be given in either case.
   */
  function Lookup(s: string): (r: Option<Position>)
    ensures r.Some? <==> |s| == 2 && FromNotation([ToLower(s[0]), s[1]]).Ok?
    ensures r.Some? ==> FromNotation([ToLower(s[0]), s[1]]) == Ok(r.value)
  {
    if |s| == 2 && 'A' <= ToUpper(s[0]) <= 'H' && '1' <= s[1] <= '8' then
      Some(Pos(ToUpper(s[0]) as int - 'A' as int, s[1] as int - '1' as int))
    else
      None
  }

  /** Every square is in the table under its own notation, in either case of the file letter. */
  lemma LookupOfNotation(p: Position)
    ensures Lookup(ToNotation(p)) == Some(p)
    ensures Lookup([ToUpper(ToNotation(p)[0]), ToNotation(p)[1]]) == Some(p)
  {
  }

  function MatrixCol(p: Position): (c: int)
    ensures 0 <= c < BoardSize && c == p.col
  {
    p.col
  }

  /** matrixRow: rows counted from the top of the screen, rank 8 first. */
  function MatrixRow(p: Position): (r: int)
    ensures 0 <= r < BoardSize
    ensures r + p.row == BoardSize - 1
  {
    BoardSize - p.row - 1
  }

  lemma MatrixRowInvolutive(p: Position)
    ensures MatrixRow(Pos(p.col, MatrixRow(p))) == p.row
  {
  }
}
