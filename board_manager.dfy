/**
 * BoardManager: the live BoardState with the repetition counts of the
 * positions it has been recorded in, and the standard starting position.
 * BoardUtils.isThreefoldRepetition, which reads those counts, is here too.
 */
module BoardManagers {
  import opened Wrappers
  import opened Colors
  import opened Positions
  import opened Moves
  import opened Pieces
  import opened PieceMaps
  import opened Fen
  import opened NotationUtils
  import opened BoardStates

  /** The back-row pieces of placeInitialPieces, from the a-file to the h-file. */
  const BackRank: seq<Kind> := [Rook, Knight, Bishop, Queen, King, Bishop, Knight, Rook]

  /** The number of files, the loop bound of placeInitialPieces. */
  const Files: nat := 8

  /** The first n files of placeInitialPieces: the back-row piece and a pawn, both not yet moved. */
  function Placed(b: Board, c: Color, backRow: int, pawnRow: int, n: nat): Board
    requires 0 <= backRow < 8 && 0 <= pawnRow < 8 && n <= 8
  {
    if n == 0 then b
    else Placed(b, c, backRow, pawnRow, n - 1)[Pos(n - 1, backRow) := Piece(BackRank[n - 1], c, false)]
                                              [Pos(n - 1, pawnRow) := Piece(Pawn, c, false)]
  }

  /** Square by square: the placed files hold the two rows' pieces, every other square is untouched. */
  lemma {:induction false} PlacedExact(b: Board, c: Color, backRow: int, pawnRow: int, n: nat, p: Position)
    requires 0 <= backRow < 8 && 0 <= pawnRow < 8 && backRow != pawnRow && n <= 8
    ensures Get(Placed(b, c, backRow, pawnRow, n), p) ==
            if p.col < n && p.row == backRow then Some(Piece(BackRank[p.col], c, false))
            else if p.col < n && p.row == pawnRow then Some(Piece(Pawn, c, false))
            else Get(b, p)
  {
    if n > 0 {
      PlacedExact(b, c, backRow, pawnRow, n - 1, p);
    }
  }

  /** The occupied squares: those of b and the two rows of the placed files. */
  lemma {:induction false} PlacedSquares(b: Board, c: Color, backRow: int, pawnRow: int, n: nat, p: Position)
    requires 0 <= backRow < 8 && 0 <= pawnRow < 8 && n <= 8
    ensures p in Placed(b, c, backRow, pawnRow, n) <==> p in b || (p.col < n && (p.row == backRow || p.row == pawnRow))
  {
    if n > 0 {
      PlacedSquares(b, c, backRow, pawnRow, n - 1, p);
    }
  }

  /** Placing onto squares that were empty adds two pieces per file. */
  lemma {:induction false} PlacedSize(b: Board, c: Color, backRow: int, pawnRow: int, n: nat)
    requires 0 <= backRow < 8 && 0 <= pawnRow < 8 && backRow != pawnRow && n <= 8
    requires RowsEmpty(b, backRow, pawnRow)
    ensures |Placed(b, c, backRow, pawnRow, n)| == |b| + 2 * n
  {
    if n > 0 {
      PlacedSize(b, c, backRow, pawnRow, n - 1);
      PlacedStepSize(b, c, backRow, pawnRow, n);
    }
  }

  /** One more file adds two squares that were empty. */
  lemma PlacedStepSize(b: Board, c: Color, backRow: int, pawnRow: int, n: nat)
    requires 0 <= backRow < 8 && 0 <= pawnRow < 8 && backRow != pawnRow && 0 < n <= 8
    requires RowsEmpty(b, backRow, pawnRow)
    ensures |Placed(b, c, backRow, pawnRow, n)| == |Placed(b, c, backRow, pawnRow, n - 1)| + 2
  {
    var before: Board := Placed(b, c, backRow, pawnRow, n - 1);
    var q1: Position, q2: Position := Pos(n - 1, backRow), Pos(n - 1, pawnRow);
    assert q1 !in b && q2 !in b;
    PlacedSquares(b, c, backRow, pawnRow, n - 1, q1);
    PlacedSquares(b, c, backRow, pawnRow, n - 1, q2);
    TwoNewSquares(before, q1, Piece(BackRank[n - 1], c, false), q2, Piece(Pawn, c, false));
  }

  /** No piece stands on either row. */
  predicate RowsEmpty(b: Board, r1: int, r2: int)
  {
    forall p: Position :: p in b ==> p.row != r1 && p.row != r2
  }

  lemma TwoNewSquares(b: Board, p: Position, x: Piece, q: Position, y: Piece)
    requires p !in b && q !in b && p != q
    ensures |b[p := x][q := y]| == |b| + 2
  {
    assert q !in b[p := x];
  }

  /** setupInitialPosition's result: White on rows 0 and 1, Black on rows 7 and 6. */
  function InitialBoard(): Board
  {
    Placed(Placed(map[], White, 0, 1, Files), Black, 7, 6, Files)
  }

  /** The standard starting array, square by square. */
  function StartPiece(p: Position): Option<Piece>
  {
    if p.row == 0 then Some(Piece(BackRank[p.col], White, false))
    else if p.row == 1 then Some(Piece(Pawn, White, false))
    else if p.row == 6 then Some(Piece(Pawn, Black, false))
    else if p.row == 7 then Some(Piece(BackRank[p.col], Black, false))
    else None
  }

  lemma InitialBoardExact(p: Position)
    ensures Get(InitialBoard(), p) == StartPiece(p)
  {
    PlacedExact(Placed(map[], White, 0, 1, Files), Black, 7, 6, Files, p);
    PlacedExact(map[], White, 0, 1, Files, p);
  }

  /** Exactly 32 pieces. */
  lemma InitialBoardSize()
    ensures |InitialBoard()| == 32
  {
    var white := Placed(map[], White, 0, 1, Files);
    PlacedSize(map[], White, 0, 1, Files);
    forall p: Position | p in white
      ensures p.row != 7 && p.row != 6
    {
      PlacedSquares(map[], White, 0, 1, Files, p);
    }
    PlacedSize(white, Black, 7, 6, Files);
  }

  /** The kings start on e1 and e8. */
  lemma InitialKings()
    ensures KingPosition(InitialBoard(), White) == Some(Pos(4, 0))
    ensures KingPosition(InitialBoard(), Black) == Some(Pos(4, 7))
  {
    var b := InitialBoard();
    forall p: Position
      ensures IsKingOf(b, p, White) <==> p == Pos(4, 0)
      ensures IsKingOf(b, p, Black) <==> p == Pos(4, 7)
    {
      InitialBoardExact(p);
    }
    KingPositionOfUniqueKing(b, White, Pos(4, 0));
    KingPositionOfUniqueKing(b, Black, Pos(4, 7));
  }

  /** updatePieceMovement's effect on a board: the piece on q, if any, is marked as moved. */
  function MarkedMoved(b: Board, q: Position): Board
  {
    if q in b then b[q := b[q].(moved := true)] else b
  }

  /** Marking a piece as moved changes neither the squares occupied nor the repetition key. */
  lemma MarkedMovedKeepsKey(b: Board, q: Position, c: Color, r: Rights, ep: Option<Position>)
    ensures MarkedMoved(b, q).Keys == b.Keys
    ensures FenFour(MarkedMoved(b, q), c, r, ep) == FenFour(b, c, r, ep)
  {
    assert FreshBoard(MarkedMoved(b, q)) == FreshBoard(b);
    FenFourEqualIff(MarkedMoved(b, q), c, r, ep, b, c, r, ep);
  }

  class BoardManager {
    const current: BoardState
    var history: multiset<string>

    /** A new manager: an empty board in a default state, and no recorded positions. */
    constructor ()
      ensures fresh(current) && fresh(current.pieceMap)
      ensures current.pieceMap.squares == map[] && history == multiset{}
      ensures current.lastMove == None && current.player == White && current.enPassant == None
      ensures current.halfmoveClock == 0 && current.fullmoveNumber == 1 && current.rights == AllRights
    {
      var pm := new ChessPieceMap();
      var made := BoardState.FromMap(pm, None);
      assert made.Ok?;
      current := made.value;
      history := multiset{};
    }

    method SetPiece(p: Position, x: Piece)
      modifies current.pieceMap
      ensures current.pieceMap.squares == old(current.pieceMap.squares)[p := x]
    {
      current.pieceMap.SetPiece(p, x);
    }

    /** setPiece(int, int, piece): the position constructor throws for coordinates off the board. */
    method SetPieceAt(col: int, row: int, x: Piece) returns (err: Option<Failure>)
      modifies current.pieceMap
      ensures err.Some? <==> MakePosition(col, row).Err?
      ensures err.Some? ==> err.value == InvalidPosition && current.pieceMap.squares == old(current.pieceMap.squares)
      ensures err.None? ==> current.pieceMap.squares == old(current.pieceMap.squares)[Pos(col, row) := x]
    {
      var p := MakePosition(col, row);
      if p.Err? {
        return Some(p.error);
      }
      SetPiece(p.value, x);
      err := None;
    }

    method GetPiece(p: Position) returns (r: Option<Piece>)
      ensures r == Get(current.pieceMap.squares, p)
    {
      r := current.pieceMap.GetPiece(p);
    }

    method GetPieceByNotation(notation: string) returns (r: Result<Option<Piece>>)
      ensures FromNotation(notation).Err? <==> r.Err?
      ensures r.Ok? ==> r.value == Get(current.pieceMap.squares, FromNotation(notation).value)
    {
      r := current.pieceMap.GetPieceByNotation(notation);
    }

    method RemovePiece(p: Position)
      modifies current.pieceMap
      ensures current.pieceMap.squares == old(current.pieceMap.squares) - {p}
    {
      current.pieceMap.RemovePiece(p);
    }

    method UpdatePieceMovement(m: Move)
      modifies current.pieceMap
      ensures current.pieceMap.squares == MarkedMoved(old(current.pieceMap.squares), m.end)
    {
      var piece := GetPiece(m.end);
      if piece.Some? {
        SetPiece(m.end, piece.value.(moved := true));
      }
    }

    /** updateBoardStateHistory: the current position's count goes up by one. */
    method UpdateBoardStateHistory()
      modifies this
      ensures history == old(history) + multiset{current.Key()}
      ensures history[current.Key()] == old(history)[current.Key()] + 1
      ensures forall k :: k != current.Key() ==> history[k] == old(history)[k]
    {
      var fenFourParts := GetFenFourParts(current.pieceMap, current.player, current.rights, current.enPassant);
      var fen := GetFen(current.pieceMap, current.player, current.rights, current.enPassant,
                        current.halfmoveClock, current.fullmoveNumber);
      history := history + multiset{fenFourParts};
    }

    /** setupInitialPosition: clear, then the White and the Black pieces. */
    method SetupInitialPosition()
      modifies current.pieceMap
      ensures current.pieceMap.squares == InitialBoard()
    {
      Clear();
      PlaceInitialPieces(White, 0, 1);
      PlaceInitialPieces(Black, 7, 6);
    }

    method Clear()
      modifies current.pieceMap
      ensures current.pieceMap.squares == map[]
    {
      current.pieceMap.Clear();
    }

    /** placeInitialPieces: file by file, the back-row piece and then a pawn. */
    method PlaceInitialPieces(c: Color, backRow: int, pawnRow: int)
      requires 0 <= backRow < 8 && 0 <= pawnRow < 8
      modifies current.pieceMap
      ensures current.pieceMap.squares == Placed(old(current.pieceMap.squares), c, backRow, pawnRow, 8)
    {
      ghost var b := current.pieceMap.squares;
      var backRowPieces := [Piece(Rook, c, false), Piece(Knight, c, false), Piece(Bishop, c, false), Piece(Queen, c, false),
                            Piece(King, c, false), Piece(Bishop, c, false), Piece(Knight, c, false), Piece(Rook, c, false)];
      for col := 0 to 8
        invariant current.pieceMap.squares == Placed(b, c, backRow, pawnRow, col)
      {
        var e1 := SetPieceAt(col, backRow, backRowPieces[col]);
        var e2 := SetPieceAt(col, pawnRow, Piece(Pawn, c, false));
      }
    }

    method SetLastMove(m: Option<Move>)
      modifies current
      ensures current.lastMove == m
      ensures current.enPassant == EnPassantTarget(current.pieceMap.squares, m)
      ensures current.rights == RightsAfter(old(current.rights), current.pieceMap.squares, m)
      ensures current.player == old(current.player)
      ensures current.halfmoveClock == old(current.halfmoveClock) && current.fullmoveNumber == old(current.fullmoveNumber)
    {
      current.SetLastMove(m);
    }
  }

  /** BoardUtils.isThreefoldRepetition: the current position has been recorded at least three times. */
  method IsThreefoldRepetition(bm: BoardManager) returns (r: bool)
    ensures r <==> bm.history[bm.current.Key()] >= 3
  {
    var current := bm.current;
    var fen := GetFen(current.pieceMap, current.player, current.rights, current.enPassant,
                      current.halfmoveClock, current.fullmoveNumber);
    var key := GetFenFourParts(current.pieceMap, current.player, current.rights, current.enPassant);
    var occurrences := bm.history[key];
    r := occurrences >= 3;
  }
}
