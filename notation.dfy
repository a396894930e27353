/**
 * ChessNotationUtils: the StringBuilder loops that write getFenFourParts
 * and getFEN, each proved to produce the text the Fen module defines.
 * The writers take the fields they read from a BoardState (its piece map,
 * side to move, castling flags, en-passant target and clocks) as
 * parameters, so that BoardState's own equals and hashCode can call them.
 */
module NotationUtils {
  import opened Wrappers
  import opened Colors
  import opened Text
  import opened Positions
  import opened Pieces
  import opened PieceMaps
  import opened Fen

  /** The placement loops: rows 7 down to 0, columns 0 to 7, with the empty-square counter. */
  method WritePlacement(pm: ChessPieceMap) returns (fen: string)
    ensures fen == Placement(pm.squares)
    ensures Split(fen, '/') == Ranks(pm.squares)
  {
    ghost var b := pm.squares;
    fen := "";
    for k := 0 to 8
      invariant fen == PlacementUpTo(b, k)
    {
      var row := 7 - k;
      var emptyCount := 0;
      ghost var before := fen;
      for col := 0 to 8
        invariant fen == before + RankScan(b, row, col).text
        invariant emptyCount == RankScan(b, row, col).empty
      {
        RankScanGap(b, row, col);
        ghost var sc := RankScan(b, row, col);
        assert RankScan(b, row, col + 1) == ScanColumn(b, row, col, sc);
        var piece := pm.GetPiece(Pos(col, row));
        if piece.None? {
          emptyCount := emptyCount + 1;
        } else {
          if emptyCount > 0 {
            fen := fen + [DigitChar(emptyCount)];
            emptyCount := 0;
          }
          assert fen == before + (sc.text + Run(sc.empty));
          fen := fen + Notation(piece.value);
        }
      }
      RankScanGap(b, row, 8);
      ghost var sc := RankScan(b, row, 8);
      if emptyCount > 0 {
        fen := fen + [DigitChar(emptyCount)];
      }
      assert fen == before + RankString(b, row);
      if row > 0 {
        fen := fen + "/";
      }
    }
    PlacementSplits(b);
  }

  /**
   * getFenFourParts: placement, side to move, castling flags ("-" when none
   * holds) and en-passant target ("-" when there is none), separated by
   * single spaces.
   */
  method GetFenFourParts(pm: ChessPieceMap, player: Color, rights: Rights, enPassant: Option<Position>)
    returns (fen: string)
    ensures fen == FenFour(pm.squares, player, rights, enPassant)
    ensures Split(fen, ' ') == [Placement(pm.squares), SideField(player), CastlingField(rights), EnPassantField(enPassant)]
  {
    var placement := WritePlacement(pm);
    fen := placement;
    ghost var parts := [placement];

    var side := if IsWhite(player) then "w" else "b";
    JoinAppend(parts, side, ' ');
    fen := fen + " " + side;
    parts := parts + [side];

    var field := WriteCastling(rights);
    JoinAppend(parts, field, ' ');
    fen := fen + " " + field;
    parts := parts + [field];

    var target := if enPassant.Some? then ToNotation(enPassant.value) else "-";
    JoinAppend(parts, target, ' ');
    fen := fen + " " + target;
    parts := parts + [target];

    assert parts == FenFourParts(pm.squares, player, rights, enPassant);
    FenFourSplits(pm.squares, player, rights, enPassant);
  }

  /** The castling field: K, Q, k and q for the flags that hold, in that order, or "-" when none does. */
  method WriteCastling(rights: Rights) returns (field: string)
    ensures field == CastlingField(rights)
    ensures field != "" && ' ' !in field
  {
    var castling := "";
    if rights.whiteKingside {
      castling := castling + "K";
    }
    ghost var wk := if rights.whiteKingside then "K" else "";
    assert castling == wk;
    if rights.whiteQueenside {
      castling := castling + "Q";
    }
    ghost var wq := if rights.whiteQueenside then "Q" else "";
    assert castling == wk + wq;
    if rights.blackKingside {
      castling := castling + "k";
    }
    ghost var bk := if rights.blackKingside then "k" else "";
    assert castling == wk + wq + bk;
    if rights.blackQueenside {
      castling := castling + "q";
    }
    ghost var bq := if rights.blackQueenside then "q" else "";
    assert castling == wk + wq + bk + bq;
    field := if castling != "" then castling else "-";
    CastlingFieldShape(rights);
  }

  /** getFEN: the four fields of getFenFourParts, then the halfmove clock and the fullmove number. */
  method GetFen(pm: ChessPieceMap, player: Color, rights: Rights, enPassant: Option<Position>,
                halfmoveClock: int, fullmoveNumber: int)
    returns (fen: string)
    ensures fen == FenString(pm.squares, player, rights, enPassant, halfmoveClock, fullmoveNumber)
    ensures Split(fen, ' ') == [Placement(pm.squares), SideField(player), CastlingField(rights), EnPassantField(enPassant),
                                IntToString(halfmoveClock), IntToString(fullmoveNumber)]
  {
    fen := GetFenFourParts(pm, player, rights, enPassant);
    fen := fen + " " + IntToString(halfmoveClock);
    fen := fen + " " + IntToString(fullmoveNumber);
    FenStringSplits(pm.squares, player, rights, enPassant, halfmoveClock, fullmoveNumber);
  }
}
