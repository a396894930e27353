/**
 * StockfishPlayer: how the engine's best-move string is turned into the
 * move and promotion piece handed to the controller. The engine process
 * is not modelled: its answer is the parameter `best`, None for null.
 */
module Engines {
  import opened Wrappers
  import opened Colors
  import opened Text
  import opened Positions
  import opened Moves
  import opened Pieces
  import opened PieceMaps
  import opened Movement

  /** getPromotionPiece: q, r, b and n in either case name that kind; any other letter gives a queen. */
  function PromotionPiece(promotion: char, c: Color): (p: Piece)
    ensures p.color == c && !p.moved
    ensures p.kind == Rook <==> ToLower(promotion) == 'r'
    ensures p.kind == Bishop <==> ToLower(promotion) == 'b'
    ensures p.kind == Knight <==> ToLower(promotion) == 'n'
    ensures p.kind == Queen <==> ToLower(promotion) !in {'r', 'b', 'n'}
  {
    match ToLower(promotion)
    case 'q' => Piece(Queen, c, false)
    case 'r' => Piece(Rook, c, false)
    case 'b' => Piece(Bishop, c, false)
    case 'n' => Piece(Knight, c, false)
    case _ => Piece(Queen, c, false)
  }

  /** The four promotion kinds are read back from their letters, in lower or upper case. */
  lemma PromotionLetters(k: Kind, c: Color)
    requires k in {Queen, Rook, Bishop, Knight}
    ensures PromotionPiece(Letter(k), c) == Piece(k, c, false)
    ensures PromotionPiece(ToUpper(Letter(k)), c) == Piece(k, c, false)
  {
  }

  /** isCastling: a two-file move along one rank from the square named "e1" or "e8". */
  function IsCastling(start: Position, end: Position): bool
  {
    if start.row == end.row && Abs(start.col - end.col) == 2 then
      ToNotation(start) == "e1" || ToNotation(start) == "e8"
    else
      false
  }

  /** Exactly the king's two castling moves from e1 and from e8. */
  lemma IsCastlingExact(start: Position, end: Position)
    ensures IsCastling(start, end) <==>
            start.col == 4 && (start.row == 0 || start.row == 7) &&
            end.row == start.row && (end.col == 2 || end.col == 6)
  {
    NotationRoundTrip(start);
    assert FromNotation("e1") == Ok(Pos(4, 0));
    assert FromNotation("e8") == Ok(Pos(4, 7));
  }

  /** What the engine task passes to movePiece. */
  datatype EngineMove = EngineMove(move: Move, promotion: Option<Piece>)

  /**
   * The slicing in makeMove: characters [0, 2) and [2, 4) are the two
   * squares (a short string is a StringIndexOutOfBoundsException, a bad
   * square an IllegalArgumentException), and a fifth character, when
   * there is one, is the promotion letter for the engine's colour.
   */
  function DecodeEngineMove(best: string, c: Color): (r: Result<EngineMove>)
    ensures r.Ok? <==> 4 <= |best| && FromNotation(best[..2]).Ok? && FromNotation(best[2..4]).Ok?
    ensures r.Ok? ==> MoveNotation(r.value.move) == best[..4]
    ensures r.Ok? ==> (r.value.promotion.Some? <==> |best| > 4)
    ensures r.Ok? && |best| > 4 ==> r.value.promotion == Some(PromotionPiece(best[4], c))
  {
    if |best| < 4 then Err(IndexOutOfBounds)
    else
      match FromNotation(best[..2])
      case Err(e) => Err(e)
      case Ok(start) =>
        match FromNotation(best[2..4])
        case Err(e) => Err(e)
        case Ok(end) =>
          var promotion := if |best| > 4 then Some(PromotionPiece(best[4], c)) else None;
          assert best[..4] == best[..2] + best[2..4];
          Ok(EngineMove(Move(start, end), promotion))
  }

  /**
   * The scheduled task of makeMove: nothing once the game has ended, when
   * the engine gives no move, when the string is malformed (the exception
   * is caught), or when the start square is empty; otherwise the decoded
   * move goes to movePiece.
   */
  function EngineRequest(gameEnded: bool, b: Board, best: Option<string>, c: Color): (r: Option<EngineMove>)
    ensures r.Some? ==> !gameEnded && best.Some? && DecodeEngineMove(best.value, c) == Ok(r.value)
    ensures r.Some? ==> r.value.move.start in b
    ensures r.None? <==> gameEnded || best.None? || DecodeEngineMove(best.value, c).Err? ||
                         DecodeEngineMove(best.value, c).value.move.start !in b
  {
    if gameEnded then None
    else
      match best
      case None => None
      case Some(s) =>
        match DecodeEngineMove(s, c)
        case Err(_) => None
        case Ok(em) => if em.move.start in b then Some(em) else None
  }

  /** An engine answer in long algebraic form, with or without a promotion letter, reaches movePiece unchanged. */
  lemma EngineRequestRoundTrip(b: Board, m: Move, c: Color, k: Kind)
    requires m.start in b
    requires k in {Queen, Rook, Bishop, Knight}
    ensures EngineRequest(false, b, Some(MoveNotation(m)), c) == Some(EngineMove(m, None))
    ensures EngineRequest(false, b, Some(MoveNotation(m) + [Letter(k)]), c) == Some(EngineMove(m, Some(Piece(k, c, false))))
  {
    var s := MoveNotation(m);
    assert s[..4] == s;
    var t := s + [Letter(k)];
    assert t[..2] == s[..2] && t[2..4] == s[2..];
    assert s[..2] + s[2..] == s;
    PromotionLetters(k, c);
  }
}
