/**
 * BoardState: the piece map together with the side to move, the two
 * clocks, the castling flags, the en-passant target and the last move.
 * It is compared and hashed by its four-field FEN key.
 */
module BoardStates {
  import opened Wrappers
  import opened JavaInts
  import opened Colors
  import opened Text
  import opened Positions
  import opened Moves
  import opened Pieces
  import opened PieceMaps
  import opened Movement
  import opened Kings
  import opened Fen
  import opened NotationUtils

  const H1: Position := Pos(7, 0)
  const A1: Position := Pos(0, 0)
  const H8: Position := Pos(7, 7)
  const A8: Position := Pos(0, 7)

  /** The squares setLastMove names by ChessPosition.get. */
  lemma CornerNames()
    ensures Lookup("H1") == Some(H1) && Lookup("A1") == Some(A1)
    ensures Lookup("H8") == Some(H8) && Lookup("A8") == Some(A8)
  {
    NotationRoundTrip(H1);
    NotationRoundTrip(A1);
    NotationRoundTrip(H8);
    NotationRoundTrip(A8);
  }

  /**
   * The castling flags the map constructor computes: all four stay true on
   * an empty map; otherwise a missing white king, then White's two written
   * canCastle calls, then a missing black king and Black's two calls can
   * each throw, in that order; each flag is that king's canCastle answer.
   * The pawns on the map see lastMove as their board state's last move.
   */
  function MapRights(b: Board, lastMove: Option<Move>): Result<Rights>
  {
    if |b| == 0 then Ok(AllRights)
    else
      match KingPosition(b, White)
      case None => Err(IllegalState)
      case Some(w) =>
        match KingsideAsWritten(b, w, lastMove)
        case Err(e) => Err(e)
        case Ok(wk) =>
          match QueensideAsWritten(b, w, lastMove)
          case Err(e) => Err(e)
          case Ok(wq) =>
            match KingPosition(b, Black)
            case None => Err(IllegalState)
            case Some(k) =>
              match KingsideAsWritten(b, k, lastMove)
              case Err(e) => Err(e)
              case Ok(bk) =>
                match QueensideAsWritten(b, k, lastMove)
                case Err(e) => Err(e)
                case Ok(bq) => Ok(Rights(wk, wq, bk, bq))
  }

  /**
   * The map constructor fails on a non-empty map that lacks a king of
   * either colour (IllegalStateException) or whose white or black king a
   * written castling probe runs off the board (InvalidPositionException),
   * White examined entirely before Black; otherwise each flag is the
   * intended castling answer.
   */
  lemma MapRightsFails(b: Board, lastMove: Option<Move>)
    ensures MapRights(b, lastMove).Err? <==>
            |b| > 0 &&
            (KingPosition(b, White).None? || ProbeOverruns(b, KingPosition(b, White).value, lastMove)
             || KingPosition(b, Black).None? || ProbeOverruns(b, KingPosition(b, Black).value, lastMove))
    ensures MapRights(b, lastMove).Err? ==>
            MapRights(b, lastMove).error ==
            if KingPosition(b, White).None? then IllegalState
            else if ProbeOverruns(b, KingPosition(b, White).value, lastMove) then InvalidPosition
            else if KingPosition(b, Black).None? then IllegalState
            else InvalidPosition
    ensures KingPosition(b, White).None? <==> forall p: Position :: !IsKingOf(b, p, White)
    ensures KingPosition(b, Black).None? <==> forall p: Position :: !IsKingOf(b, p, Black)
    ensures MapRights(b, lastMove).Ok? && |b| > 0 ==>
            var w, k := KingPosition(b, White).value, KingPosition(b, Black).value;
            MapRights(b, lastMove).value ==
            Rights(CanCastleKingside(b, w, lastMove), CanCastleQueenside(b, w, lastMove),
                   CanCastleKingside(b, k, lastMove), CanCastleQueenside(b, k, lastMove))
  {
    KingPositionExact(b, White);
    KingPositionExact(b, Black);
    if KingPosition(b, White).Some? {
      var w := KingPosition(b, White).value;
      CastleThrowsExactly(b, w, lastMove);
      KingsideAsWrittenAgrees(b, w, lastMove);
      QueensideAsWrittenAgrees(b, w, lastMove);
    }
    if KingPosition(b, Black).Some? {
      var k := KingPosition(b, Black).value;
      CastleThrowsExactly(b, k, lastMove);
      KingsideAsWrittenAgrees(b, k, lastMove);
      QueensideAsWrittenAgrees(b, k, lastMove);
    }
  }

  /**
   * The board of the castling finding, with no black king: the map
   * constructor throws InvalidPositionException from White's kingside
   * probe before it reaches the missing black king.
   */
  lemma GFileBoardConstructorThrows()
    ensures MapRights(GFileBoard(), None) == Err(InvalidPosition)
  {
    var b := GFileBoard();
    KingPositionOfUniqueKing(b, White, Pos(6, 0));
    KingsideThrowsOnGFile();
  }

  /**
   * updateEnPassantTargetSquare: after a pawn (standing on the move's end
   * square) went two rows, the square between its start and end rows on
   * its file; otherwise none.
   */
  function EnPassantTarget(b: Board, lastMove: Option<Move>): Option<Position>
  {
    match lastMove
    case None => None
    case Some(m) =>
      if m.end in b && b[m.end].kind == Pawn && Abs(m.start.row - m.end.row) == 2
      then Some(Pos(m.end.col, JavaDiv(m.start.row + m.end.row, 2)))
      else None
  }

  /** The target exists only after a two-row pawn move, and is the square the pawn passed over. */
  lemma EnPassantTargetMeaning(b: Board, lastMove: Option<Move>)
    ensures EnPassantTarget(b, lastMove).Some? <==>
            lastMove.Some? && lastMove.value.end in b && b[lastMove.value.end].kind == Pawn &&
            (lastMove.value.end.row == lastMove.value.start.row + 2 || lastMove.value.end.row == lastMove.value.start.row - 2)
    ensures EnPassantTarget(b, lastMove).Some? ==>
            var t := EnPassantTarget(b, lastMove).value;
            var m := lastMove.value;
            t.col == m.end.col && 2 * t.row == m.start.row + m.end.row &&
            (t.row == m.start.row + 1 || t.row == m.start.row - 1)
  {
  }

  /** A move whose end square is still empty leaves no en-passant target. */
  lemma NoTargetBeforeRelocation(b: Board, m: Move)
    requires m.end !in b
    ensures EnPassantTarget(b, Some(m)) == None
  {
  }

  /**
   * The flag updates of setLastMove: a king clears both flags of its
   * colour; a rook leaving h1, a1, h8 or a8 clears the flag of that corner,
   * provided the rook's colour matches the corner's side.
   */
  function RightsAfter(r: Rights, b: Board, lastMove: Option<Move>): Rights
  {
    match lastMove
    case None => r
    case Some(m) =>
      if m.start !in b then r
      else
        var p := b[m.start];
        if p.kind == King then
          if p.color == White then r.(whiteKingside := false, whiteQueenside := false)
          else r.(blackKingside := false, blackQueenside := false)
        else if p.kind == Rook then
          if p.color == White then
            if m.start == H1 then r.(whiteKingside := false)
            else if m.start == A1 then r.(whiteQueenside := false)
            else r
          else
            if m.start == H8 then r.(blackKingside := false)
            else if m.start == A8 then r.(blackQueenside := false)
            else r
        else r
  }

  /** Whether the piece leaving the move's start square is a piece of colour c and of kind k. */
  predicate Leaves(b: Board, lastMove: Option<Move>, c: Color, k: Kind)
  {
    lastMove.Some? && lastMove.value.start in b &&
    b[lastMove.value.start].color == c && b[lastMove.value.start].kind == k
  }

  /**
   * Each flag survives a move exactly when it held before and the move
   * neither moved the king of its colour nor moved that colour's rook off
   * its corner; in particular no flag is ever set again.
   */
  lemma RightsAfterMeaning(r: Rights, b: Board, lastMove: Option<Move>)
    ensures RightsAfter(r, b, lastMove).whiteKingside ==
            (r.whiteKingside && !Leaves(b, lastMove, White, King) &&
             !(Leaves(b, lastMove, White, Rook) && lastMove.value.start == H1))
    ensures RightsAfter(r, b, lastMove).whiteQueenside ==
            (r.whiteQueenside && !Leaves(b, lastMove, White, King) &&
             !(Leaves(b, lastMove, White, Rook) && lastMove.value.start == A1))
    ensures RightsAfter(r, b, lastMove).blackKingside ==
            (r.blackKingside && !Leaves(b, lastMove, Black, King) &&
             !(Leaves(b, lastMove, Black, Rook) && lastMove.value.start == H8))
    ensures RightsAfter(r, b, lastMove).blackQueenside ==
            (r.blackQueenside && !Leaves(b, lastMove, Black, King) &&
             !(Leaves(b, lastMove, Black, Rook) && lastMove.value.start == A8))
  {
  }

  class BoardState {
    const pieceMap: ChessPieceMap
    var lastMove: Option<Move>
    var player: Color
    var halfmoveClock: Int32
    var fullmoveNumber: Int32
    var enPassant: Option<Position>
    var rights: Rights

    /** The field initialisers: White to move, clocks 0 and 1, no target, every flag true. */
    constructor WithMap(pm: ChessPieceMap)
      ensures pieceMap == pm && lastMove == None && player == White
      ensures halfmoveClock == 0 && fullmoveNumber == 1 && enPassant == None && rights == AllRights
    {
      pieceMap := pm;
      lastMove := None;
      player := White;
      halfmoveClock := 0;
      fullmoveNumber := 1;
      enPassant := None;
      rights := AllRights;
    }

    /** The four-field FEN that equals and hashCode compare. */
    function Key(): string
      reads this, pieceMap
    {
      FenFour(pieceMap.squares, player, rights, enPassant)
    }

    /** BoardState(ChessPieceMap): the map is shared, and the castling flags are computed from it. */
    static method FromMap(pm: ChessPieceMap, pawnsLastMove: Option<Move>) returns (r: Result<BoardState>)
      ensures r.Err? <==> MapRights(pm.squares, pawnsLastMove).Err?
      ensures r.Err? ==> r.error == MapRights(pm.squares, pawnsLastMove).error
      ensures r.Ok? ==> fresh(r.value) && r.value.pieceMap == pm
      ensures r.Ok? ==> r.value.rights == MapRights(pm.squares, pawnsLastMove).value
      ensures r.Ok? ==> r.value.lastMove == None && r.value.player == White && r.value.enPassant == None
      ensures r.Ok? ==> r.value.halfmoveClock == 0 && r.value.fullmoveNumber == 1
    {
      var state := new BoardState.WithMap(pm);
      if |pm.squares| != 0 {
        var w := pm.GetKingPosition(White);
        if w.None? {
          return Err(IllegalState);
        }
        var wk := CastleKingsideAsWritten(pm, w.value, pawnsLastMove);
        if wk.Err? {
          return Err(wk.error);
        }
        var wq := CastleQueensideAsWritten(pm, w.value, pawnsLastMove);
        if wq.Err? {
          return Err(wq.error);
        }
        var k := pm.GetKingPosition(Black);
        if k.None? {
          return Err(IllegalState);
        }
        var bk := CastleKingsideAsWritten(pm, k.value, pawnsLastMove);
        if bk.Err? {
          return Err(bk.error);
        }
        var bq := CastleQueensideAsWritten(pm, k.value, pawnsLastMove);
        if bq.Err? {
          return Err(bq.error);
        }
        state.rights := Rights(wk.value, wq.value, bk.value, bq.value);
      }
      r := Ok(state);
    }

    /**
     * The inner loop of BoardState(String): the characters of one rank,
     * with the column counter; an error is what the rank read throws.
     */
    static method ReadRank(pm: ChessPieceMap, rankText: string, rank: int) returns (err: Option<Failure>)
      requires 0 <= rank < 8
      modifies pm
      ensures ParseRank(rankText, rank, old(pm.squares)).Err? <==> err.Some?
      ensures err.Some? ==> err.value == ParseRank(rankText, rank, old(pm.squares)).error
      ensures err.None? ==> pm.squares == ParseRank(rankText, rank, old(pm.squares)).value.board
    {
      ghost var acc := pm.squares;
      var col := 0;
      for i := 0 to |rankText|
        invariant ParseRank(rankText[..i], rank, acc) == Ok(Cursor(pm.squares, col))
      {
        var c := rankText[i];
        assert rankText[..i + 1][..i] == rankText[..i];
        if IsDigit(c) {
          col := col + DigitValue(c);
        } else {
          var piece := PieceOfFenChar(c);
          if piece.Some? {
            var q := MakePosition(col, rank);
            if q.Err? {
              ParseRankErrSticks(rankText, i + 1, rank, acc);
              return Some(q.error);
            }
            pm.SetPiece(q.value, piece.value);
          }
          col := col + 1;
        }
      }
      assert rankText[..|rankText|] == rankText;
      err := None;
    }

    /**
     * BoardState(String): a new empty map filled from the placement field,
     * then the side to move and the castling flags; the en-passant field and
     * the clocks are not read.
     */
    static method FromFen(fen: string) returns (r: Result<BoardState>)
      ensures r.Err? <==> ParseFen(fen).Err?
      ensures r.Err? ==> r.error == ParseFen(fen).error
      ensures r.Ok? ==> fresh(r.value) && fresh(r.value.pieceMap)
      ensures r.Ok? ==> r.value.pieceMap.squares == ParseFen(fen).value.board
      ensures r.Ok? ==> r.value.player == ParseFen(fen).value.player && r.value.rights == ParseFen(fen).value.rights
      ensures r.Ok? ==> r.value.lastMove == None && r.value.enPassant == None
      ensures r.Ok? ==> r.value.halfmoveClock == 0 && r.value.fullmoveNumber == 1
    {
      var pm := new ChessPieceMap();
      var parts := Split(fen, ' ');
      if |parts| < 4 {
        return Err(IllegalArgument);
      }
      var ranks := Split(parts[0], '/');
      for rank := 0 to 8
        invariant ParseRanks(ranks, rank) == Ok(pm.squares)
      {
        if 7 - rank >= |ranks| {
          ParseRanksErrSticks(ranks, rank + 1, 8);
          return Err(IndexOutOfBounds);
        }
        var err := ReadRank(pm, ranks[7 - rank], rank);
        if err.Some? {
          ParseRanksErrSticks(ranks, rank + 1, 8);
          return Err(err.value);
        }
      }
      var state := new BoardState.WithMap(pm);
      state.player := if parts[1] == "w" then White else Black;
      var castling := parts[2];
      state.rights := Rights('K' in castling, 'Q' in castling, 'k' in castling, 'q' in castling);
      r := Ok(state);
    }

    /** setLastMove: record the move, recompute the en-passant target, then clear the flags it rules out. */
    method SetLastMove(m: Option<Move>)
      modifies this
      ensures lastMove == m
      ensures enPassant == EnPassantTarget(pieceMap.squares, m)
      ensures rights == RightsAfter(old(rights), pieceMap.squares, m)
      ensures player == old(player) && halfmoveClock == old(halfmoveClock) && fullmoveNumber == old(fullmoveNumber)
    {
      lastMove := m;
      UpdateEnPassantTargetSquare();
      if m.Some? {
        var moved := pieceMap.GetPiece(m.value.start);
        var start := m.value.start;
        if moved.Some? && moved.value.kind == King {
          if moved.value.color == White {
            rights := rights.(whiteKingside := false, whiteQueenside := false);
          } else {
            rights := rights.(blackKingside := false, blackQueenside := false);
          }
        } else if moved.Some? && moved.value.kind == Rook {
          if moved.value.color == White {
            if start == H1 {
              rights := rights.(whiteKingside := false);
            } else if start == A1 {
              rights := rights.(whiteQueenside := false);
            }
          } else {
            if start == H8 {
              rights := rights.(blackKingside := false);
            } else if start == A8 {
              rights := rights.(blackQueenside := false);
            }
          }
        }
      }
    }

    method UpdateEnPassantTargetSquare()
      modifies this
      ensures enPassant == EnPassantTarget(pieceMap.squares, lastMove)
      ensures lastMove == old(lastMove) && rights == old(rights) && player == old(player)
      ensures halfmoveClock == old(halfmoveClock) && fullmoveNumber == old(fullmoveNumber)
    {
      if lastMove.Some? {
        var m := lastMove.value;
        var atEnd := pieceMap.GetPiece(m.end);
        if atEnd.Some? && atEnd.value.kind == Pawn && Abs(m.start.row - m.end.row) == 2 {
          var row := JavaDiv(m.start.row + m.end.row, 2);
          enPassant := Some(Pos(m.end.col, row));
          return;
        }
      }
      enPassant := None;
    }

    method SetCurrentPlayerColor(c: Color)
      modifies this
      ensures player == c
      ensures lastMove == old(lastMove) && rights == old(rights) && enPassant == old(enPassant)
      ensures halfmoveClock == old(halfmoveClock) && fullmoveNumber == old(fullmoveNumber)
    {
      player := c;
    }

    method ClearHalfmoveClock()
      modifies this
      ensures halfmoveClock == 0
      ensures lastMove == old(lastMove) && rights == old(rights) && enPassant == old(enPassant)
      ensures player == old(player) && fullmoveNumber == old(fullmoveNumber)
    {
      halfmoveClock := 0;
    }

    /** halfmoveClock++ on a Java int. */
    method IncrementHalfmoveClock()
      modifies this
      ensures halfmoveClock == Wrap32(old(halfmoveClock) + 1)
      ensures lastMove == old(lastMove) && rights == old(rights) && enPassant == old(enPassant)
      ensures player == old(player) && fullmoveNumber == old(fullmoveNumber)
    {
      halfmoveClock := Wrap32(halfmoveClock + 1);
    }

    /** fullmoveNumber++ on a Java int. */
    method IncrementFullmoveNumber()
      modifies this
      ensures fullmoveNumber == Wrap32(old(fullmoveNumber) + 1)
      ensures lastMove == old(lastMove) && rights == old(rights) && enPassant == old(enPassant)
      ensures player == old(player) && halfmoveClock == old(halfmoveClock)
    {
      fullmoveNumber := Wrap32(fullmoveNumber + 1);
    }

    /**
     * equals: two states are equal exactly when their keys are, that is when
     * they agree on the kind and colour of every piece, the side to move,
     * the castling flags and the en-passant target.
     */
    method Equals(other: BoardState) returns (r: bool)
      ensures r <==> Key() == other.Key()
      ensures r <==> FreshBoard(pieceMap.squares) == FreshBoard(other.pieceMap.squares) &&
                     player == other.player && rights == other.rights && enPassant == other.enPassant
    {
      FenFourEqualIff(pieceMap.squares, player, rights, enPassant,
                      other.pieceMap.squares, other.player, other.rights, other.enPassant);
      if this == other {
        return true;
      }
      var mine := GetFenFourParts(pieceMap, player, rights, enPassant);
      var theirs := GetFenFourParts(other.pieceMap, other.player, other.rights, other.enPassant);
      r := mine == theirs;
    }

    /** hashCode: the String hash of the key, so equal states hash alike. */
    method HashCode() returns (h: Int32)
      ensures h == StringHash(Key())
    {
      var key := GetFenFourParts(pieceMap, player, rights, enPassant);
      h := StringHash(key);
    }

    /**
     * deepCopy: a fresh state over a copy of the map. The copy is built by
     * the map constructor, so it fails where that constructor does; every
     * other field is then copied over.
     */
    method DeepCopy() returns (r: Result<BoardState>)
      ensures r.Err? <==> MapRights(pieceMap.squares, lastMove).Err?
      ensures r.Err? ==> r.error == MapRights(pieceMap.squares, lastMove).error
      ensures r.Ok? ==> fresh(r.value) && fresh(r.value.pieceMap) && r.value.pieceMap.squares == pieceMap.squares
      ensures r.Ok? ==> r.value.lastMove == lastMove && r.value.player == player && r.value.rights == rights
      ensures r.Ok? ==> r.value.halfmoveClock == halfmoveClock && r.value.fullmoveNumber == fullmoveNumber
      ensures r.Ok? ==> r.value.enPassant == enPassant && r.value.Key() == Key()
    {
      var mapCopy := pieceMap.DeepCopy();
      var made := FromMap(mapCopy, lastMove);
      if made.Err? {
        return Err(made.error);
      }
      var copy := made.value;
      copy.lastMove := lastMove;
      copy.player := player;
      copy.halfmoveClock := halfmoveClock;
      copy.fullmoveNumber := fullmoveNumber;
      copy.enPassant := enPassant;
      copy.rights := rights;
      r := Ok(copy);
    }

    /** updateFrom: every field but the map is taken over from other. */
    method UpdateFrom(other: BoardState)
      modifies this
      ensures lastMove == old(other.lastMove) && player == old(other.player) && rights == old(other.rights)
      ensures halfmoveClock == old(other.halfmoveClock) && fullmoveNumber == old(other.fullmoveNumber)
      ensures enPassant == old(other.enPassant)
    {
      lastMove := other.lastMove;
      player := other.player;
      halfmoveClock := other.halfmoveClock;
      fullmoveNumber := other.fullmoveNumber;
      enPassant := other.enPassant;
      rights := other.rights;
    }
  }
}
