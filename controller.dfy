/**
 * ChessController: the move entry point (movePiece and its three routes),
 * the end-of-game chain and the puzzle counters. The controller's own
 * fields, the live board state and the repetition multiset are viewed
 * together as one Game value; every move method is proved to leave the
 * view its transition function computes, and the lemmas below state what
 * those transitions mean.
 */
module Controllers {
  import opened Wrappers
  import opened Colors
  import opened Text
  import opened Positions
  import opened Moves
  import opened Pieces
  import opened PieceMaps
  import opened Movement
  import opened Pawns
  import opened Attacks
  import opened Kings
  import opened Legality
  import opened Fen
  import opened JavaInts
  import opened BoardStates
  import opened BoardManagers
  import opened GameHistories
  import opened GameActions

  datatype GameMode = PlayerVsPlayer | PlayerVsAI | PuzzleMode

  /** FIFTY_MOVE_RULE_LIMIT, compared with the halfmove clock as it stands. */
  const FiftyMoveRuleLimit: int := 50

  // ---------------------------------------------------------------- promotion

  /** promotePawn: the piece named by the dialog's choice, a queen for any other text; new and unmoved. */
  function DialogPiece(selected: string, c: Color): (p: Piece)
    ensures p.color == c && !p.moved
    ensures p.kind == Rook <==> selected == "Rook"
    ensures p.kind == Bishop <==> selected == "Bishop"
    ensures p.kind == Knight <==> selected == "Knight"
    ensures p.kind == Queen <==> selected !in {"Rook", "Bishop", "Knight"}
  {
    match selected
    case "Queen" => Piece(Queen, c, false)
    case "Rook" => Piece(Rook, c, false)
    case "Bishop" => Piece(Bishop, c, false)
    case "Knight" => Piece(Knight, c, false)
    case _ => Piece(Queen, c, false)
  }

  /** A pawn arriving on row 7 or row 0, whatever its colour. */
  predicate Promotes(piece: Piece, m: Move)
  {
    piece.kind == Pawn && (m.end.row == 7 || m.end.row == 0)
  }

  /**
   * The piece executeMove places on the end square: the mover itself, or on
   * promotion the piece handed in, or else the dialog's piece.
   */
  function Mover(piece: Piece, m: Move, promotion: Option<Piece>, selected: string): (x: Piece)
    ensures !Promotes(piece, m) ==> x == piece
    ensures Promotes(piece, m) && promotion.Some? ==> x == promotion.value
    ensures Promotes(piece, m) && promotion.None? ==>
              x.color == piece.color && !x.moved && x.kind in {Queen, Rook, Bishop, Knight}
  {
    if Promotes(piece, m) then
      if promotion.Some? then promotion.value else DialogPiece(selected, piece.color)
    else piece
  }

  // ---------------------------------------------------------------- boards

  /** removePiece(end), setPiece(end, x), removePiece(start), updatePieceMovement(move). */
  function Relocated(b: Board, m: Move, x: Piece): Board
  {
    MarkedMoved(((b - {m.end})[m.end := x]) - {m.start}, m.end)
  }

  /** The end square holds the placed piece, now marked moved; the start square is empty; nothing else changes. */
  lemma RelocatedExact(b: Board, m: Move, x: Piece, p: Position)
    requires m.start != m.end
    ensures Get(Relocated(b, m, x), p) ==
            if p == m.end then Some(x.(moved := true))
            else if p == m.start then None
            else Get(b, p)
  {
  }

  /**
   * For an ordinary move the board played is the board isMoveValidUnderCheck
   * simulated, with the mover marked as moved.
   */
  lemma RelocatedIsSimulated(b: Board, m: Move)
    requires m.start in b && m.start != m.end && SimulatedVictim(m, b).None?
    ensures Relocated(b, m, b[m.start]) == MarkedMoved(Simulate(m, b), m.end)
  {
  }

  /** The castling row of a colour, taken from the colour and not from the king's square. */
  function CastleRow(c: Color): int
  {
    if IsWhite(c) then 0 else 7
  }

  function RookSquare(c: Color, kingside: bool): Position
  {
    Pos(if kingside then 7 else 0, CastleRow(c))
  }

  function KingTarget(c: Color, kingside: bool): Position
  {
    Pos(if kingside then 6 else 2, CastleRow(c))
  }

  function RookTarget(c: Color, kingside: bool): Position
  {
    Pos(if kingside then 5 else 3, CastleRow(c))
  }

  /**
   * The board after performCastling's four map updates and the two
   * setHasMoved calls. A missing rook is put as null, which reads back as
   * an empty square (and the second setHasMoved then throws).
   */
  function Castled(b: Board, k: Position, c: Color, kingside: bool): Board
    requires k in b
  {
    var t := (b - {k} - {RookSquare(c, kingside)})[KingTarget(c, kingside) := b[k].(moved := true)];
    match Get(b, RookSquare(c, kingside))
    case Some(rook) => t[RookTarget(c, kingside) := rook.(moved := true)]
    case None => t - {RookTarget(c, kingside)}
  }

  /** Castled as performCastling builds it, one map update after another. */
  lemma CastledSteps(b: Board, k: Position, c: Color, kingside: bool)
    requires k in b
    ensures var rs, kt, rt := RookSquare(c, kingside), KingTarget(c, kingside), RookTarget(c, kingside);
            var t := ((b - {k}) - {rs})[kt := b[k]];
            var u := (if rs in b then t[rt := b[rs]] else t - {rt})[kt := b[k].(moved := true)];
            Castled(b, k, c, kingside) == if rs in b then u[rt := b[rs].(moved := true)] else u
  {
  }

  /**
   * With the rook present: the king and the rook stand on their targets,
   * both marked moved; the squares they left are empty; nothing else changes.
   */
  lemma CastledExact(b: Board, k: Position, c: Color, kingside: bool, p: Position)
    requires k in b && RookSquare(c, kingside) in b
    ensures Get(Castled(b, k, c, kingside), p) ==
            if p == KingTarget(c, kingside) then Some(b[k].(moved := true))
            else if p == RookTarget(c, kingside) then Some(b[RookSquare(c, kingside)].(moved := true))
            else if p == k || p == RookSquare(c, kingside) then None
            else Get(b, p)
  {
  }

  /** The board performEnPassant leaves: the captured pawn and the start square cleared, the pawn on the end square and marked moved. */
  function PassantBoard(b: Board, m: Move, victim: Position): Board
    requires m.start in b
  {
    MarkedMoved(((b - {victim}) - {m.start})[m.end := b[m.start]], m.end)
  }

  // ---------------------------------------------------------------- guards

  /**
   * performCastling's guards: a king of colour c is found, it has not
   * moved, and canCastleKingside or canCastleQueenside holds for it.
   */
  predicate CastlingAllowed(b: Board, c: Color, kingside: bool, lastMove: Option<Move>)
  {
    KingPosition(b, c).Some? &&
    var k := KingPosition(b, c).value;
    !b[k].moved &&
    if kingside then CanCastleKingside(b, k, lastMove) else CanCastleQueenside(b, k, lastMove)
  }

  /**
   * performEnPassant's shape guards: a pawn on the start square, a last
   * move by a pawn over two rows that ended beside it on its row, and the
   * target one row forward on the last move's file.
   */
  predicate PassantShape(b: Board, m: Move, lastMove: Option<Move>)
  {
    m.start in b && b[m.start].kind == Pawn && lastMove.Some? &&
    var l := lastMove.value;
    l.end in b && b[l.end].kind == Pawn && Abs(l.start.row - l.end.row) == 2 &&
    l.end.row == m.start.row && Abs(l.end.col - m.start.col) == 1 &&
    m.end.row == m.start.row + Direction(b[m.start].color) && m.end.col == l.end.col
  }

  /** All of performEnPassant's guards: the game goes on, the shape fits, and the simulated board minus the captured pawn is not check. */
  predicate PassantAllowed(b: Board, m: Move, lastMove: Option<Move>, gameEnded: bool)
  {
    !gameEnded && PassantShape(b, m, lastMove) &&
    !InCheck(b[m.start].color, Simulate(m, b) - {lastMove.value.end}, lastMove)
  }

  /** The shape guards are exactly the pawn generator's en-passant rule for a move from the pawn's square. */
  lemma PassantShapeIsPawnRule(b: Board, m: Move, lastMove: Option<Move>)
    requires m.start in b && b[m.start].kind == Pawn
    ensures PassantShape(b, m, lastMove) <==> EnPassantCapture(b, m.start, b[m.start], lastMove, m.end)
  {
  }

  /**
   * The board played is the board whose safety was checked: the simulated
   * move minus the captured pawn, with the mover marked moved.
   */
  lemma PassantIsSimulated(b: Board, m: Move, lastMove: Option<Move>)
    requires PassantShape(b, m, lastMove)
    ensures PassantBoard(b, m, lastMove.value.end) == MarkedMoved(Simulate(m, b) - {lastMove.value.end}, m.end)
  {
    var v := lastMove.value.end;
    assert v != m.end && v != m.start;
    var t := (b - {m.end} - {m.start})[m.end := b[m.start]];
    var sim := match SimulatedVictim(m, b) case Some(w) => t - {w} case None => t;
    assert Simulate(m, b) == sim;
    assert sim - {v} == ((b - {v}) - {m.start})[m.end := b[m.start]];
  }

  // ---------------------------------------------------------------- end of game

  datatype Outcome = Ongoing | PuzzleSolved | PuzzleOutOfMoves | Checkmated | FiftyMoveDraw | DeadPositionDraw | StalemateDraw

  /**
   * checkGameEndConditions: in puzzle mode, the human's opponent mated
   * solves it and running out of moves fails it; then, in every mode,
   * checkmate of the side to move, the halfmove clock at 50 or more, a
   * dead position and stalemate, first match wins.
   */
  function EndOutcome(mode: GameMode, human: Option<Color>, currentMoves: Int32, maxMoves: Int32,
                      b: Board, player: Color, halfmove: Int32, lastMove: Option<Move>): Outcome
    requires mode == PuzzleMode ==> human.Some?
  {
    if mode == PuzzleMode && Checkmate(Opponent(human.value), b, lastMove) then PuzzleSolved
    else if mode == PuzzleMode && currentMoves >= maxMoves then PuzzleOutOfMoves
    else if Checkmate(player, b, lastMove) then Checkmated
    else if halfmove >= FiftyMoveRuleLimit then FiftyMoveDraw
    else if DeadPosition(b) then DeadPositionDraw
    else if Stalemate(player, b, lastMove) then StalemateDraw
    else Ongoing
  }

  /**
   * Outside puzzle mode: the game goes on exactly when the side to move has
   * a valid move, the clock is below 50 and material suffices; checkmate
   * beats the fifty-move draw, which beats a dead position, which beats
   * stalemate.
   */
  lemma EndOutcomeMeaning(mode: GameMode, human: Option<Color>, currentMoves: Int32, maxMoves: Int32,
                          b: Board, player: Color, halfmove: Int32, lastMove: Option<Move>)
    requires mode != PuzzleMode
    ensures var o := EndOutcome(mode, human, currentMoves, maxMoves, b, player, halfmove, lastMove);
            (o == Ongoing <==> (exists m: Move :: m.start in b && b[m.start].color == player && ValidMove(b, m, lastMove)) &&
                               halfmove < 50 && !DeadPosition(b)) &&
            (o == Checkmated <==> InCheck(player, b, lastMove) &&
                                  forall m: Move :: m.start in b && b[m.start].color == player ==> !ValidMove(b, m, lastMove)) &&
            (o == FiftyMoveDraw ==> halfmove >= 50) &&
            (o == StalemateDraw ==> !InCheck(player, b, lastMove)) &&
            o != PuzzleSolved && o != PuzzleOutOfMoves
  {
    EscapeExact(b, player, lastMove);
  }

  /**
   * In puzzle mode the human's win is checked first and the move limit
   * second; neither outcome is reachable outside puzzle mode.
   */
  lemma PuzzleOutcomeMeaning(human: Color, currentMoves: Int32, maxMoves: Int32,
                             b: Board, player: Color, halfmove: Int32, lastMove: Option<Move>)
    ensures var o := EndOutcome(PuzzleMode, Some(human), currentMoves, maxMoves, b, player, halfmove, lastMove);
            (o == PuzzleSolved <==> InCheck(Opponent(human), b, lastMove) && !HasEscape(b, Opponent(human), lastMove)) &&
            (o == PuzzleOutOfMoves <==> !Checkmate(Opponent(human), b, lastMove) && currentMoves >= maxMoves) &&
            (currentMoves >= maxMoves ==> o == PuzzleSolved || o == PuzzleOutOfMoves)
  {
  }

  /** getPuzzleRemainingMoves: Math.max(0, max - current) in int arithmetic. */
  function RemainingMoves(maxMoves: Int32, currentMoves: Int32): (r: Int32)
    ensures r >= 0
  {
    var d := Wrap32(maxMoves - currentMoves);
    if d >= 0 then d else 0
  }

  /** For counts that do not wrap, the remaining moves are max - current, and none remain exactly when the limit is reached. */
  lemma RemainingMovesMeaning(maxMoves: Int32, currentMoves: Int32)
    requires 0 <= currentMoves && 0 <= maxMoves
    ensures RemainingMoves(maxMoves, currentMoves) == 0 <==> currentMoves >= maxMoves
    ensures currentMoves < maxMoves ==> RemainingMoves(maxMoves, currentMoves) == maxMoves - currentMoves
  {
    assert IsInt32(maxMoves) && IsInt32(currentMoves);
    assert IsInt32(maxMoves - currentMoves);
  }

  /** The side setPuzzleMode gives the human: White when the FEN's second space-separated field is "w", Black otherwise. */
  function PuzzleSide(fen: string): Color
  {
    var parts := Split(fen, ' ');
    if |parts| >= 2 && parts[1] == "w" then White else Black
  }

  /** A FEN built from space-free fields is read back by its second field. */
  lemma PuzzleSideOfFields(fields: seq<string>)
    requires 2 <= |fields|
    requires forall i :: 0 <= i < |fields| ==> ' ' !in fields[i]
    requires fields[|fields| - 1] != ""
    ensures PuzzleSide(Join(fields, ' ')) == if fields[1] == "w" then White else Black
  {
    SplitOfJoin(fields, ' ');
  }

  // ---------------------------------------------------------------- the game as a value

  /** The controller seen as one value: the live state, BoardManager's repetition multiset and the controller's fields. */
  datatype Game = Game(state: Snapshot, history: multiset<string>, ended: bool, mode: GameMode, human: Option<Color>,
                       maxMoves: Int32, currentMoves: Int32, completed: bool, failed: bool)

  /** Puzzle mode always has a human colour (checkGameEndConditions dereferences it). */
  predicate Consistent(g: Game)
  {
    g.mode == PuzzleMode ==> g.human.Some?
  }

  /** setLastMove on a state value: the flags and the en-passant target are derived from the board as it stands. */
  function LastMoveSet(s: Snapshot, m: Move): Snapshot
  {
    s.(lastMove := Some(m), enPassant := EnPassantTarget(s.squares, Some(m)), rights := RightsAfter(s.rights, s.squares, Some(m)))
  }

  /** clearHalfmoveClock or incrementHalfmoveClock. */
  function Clocked(g: Game, reset: bool): Game
  {
    g.(state := g.state.(halfmoveClock := if reset then 0 else Wrap32(g.state.halfmoveClock + 1)))
  }

  /** updateBoardStateHistory: one more occurrence of the live key. */
  function Recorded(g: Game): Game
  {
    g.(history := g.history + multiset{SnapKey(g.state)})
  }

  /** switchTurn. */
  function Turned(g: Game): Game
  {
    var t := Switched(g.state.player, g.state.fullmoveNumber);
    g.(state := g.state.(player := t.0, fullmoveNumber := t.1))
  }

  /** The puzzle counter: after the switch, a side to move other than the human means the human just moved. */
  function Ticked(g: Game): Game
  {
    if g.mode == PuzzleMode && Some(g.state.player) != g.human then g.(currentMoves := Wrap32(g.currentMoves + 1)) else g
  }

  function OutcomeOf(g: Game): Outcome
    requires Consistent(g)
  {
    EndOutcome(g.mode, g.human, g.currentMoves, g.maxMoves, g.state.squares, g.state.player,
               g.state.halfmoveClock, g.state.lastMove)
  }

  /** checkGameEndConditions on a value: the flags it sets; none is ever cleared. */
  function Judged(g: Game): Game
    requires Consistent(g)
  {
    var o := OutcomeOf(g);
    g.(ended := g.ended || o != Ongoing, completed := g.completed || o == PuzzleSolved,
       failed := g.failed || o == PuzzleOutOfMoves)
  }

  /** isThreefoldRepetition: the live key already recorded three times. */
  predicate Repeats(g: Game)
  {
    g.history[SnapKey(g.state)] >= 3
  }

  /** setLastMove, then the relocation of executeMove. */
  function Played(g: Game, m: Move, x: Piece): Game
  {
    var s := LastMoveSet(g.state, m);
    g.(state := s.(squares := Relocated(s.squares, m, x)))
  }

  /**
   * executeMove up to its end check, placing piece x: a repetition ends
   * the game at once; otherwise the clock (reset by a capture or a pawn
   * move), the repetition record, the turn and the puzzle counter.
   */
  function Executed(g: Game, m: Move, x: Piece): Game
    requires m.start in g.state.squares
  {
    var b := g.state.squares;
    var played := Played(g, m, x);
    if Repeats(played) then played.(ended := true)
    else Ticked(Turned(Recorded(Clocked(played, m.end in b || b[m.start].kind == Pawn))))
  }

  /** executeMove: the promoted mover is played, and the end check follows unless a repetition already ended the game. */
  function AfterExecute(g: Game, m: Move, promotion: Option<Piece>, selected: string): Game
    requires Consistent(g) && m.start in g.state.squares
  {
    var x := Mover(g.state.squares[m.start], m, promotion, selected);
    if Repeats(Played(g, m, x)) then Executed(g, m, x) else Judged(Executed(g, m, x))
  }

  /**
   * performCastling after its guards up to its end check: the king's move
   * is set as the last move and the pieces are moved; without a rook this
   * stops there (the exception); otherwise the clock goes up, the state is
   * recorded and the turn switches.
   */
  function Castling(g: Game, c: Color, kingside: bool): Game
    requires KingPosition(g.state.squares, c).Some?
  {
    var moved := CastlingMoved(g, c, kingside);
    if RookSquare(c, kingside) in g.state.squares then Turned(Recorded(Clocked(moved, false))) else moved
  }

  /** The king's move set as the last move, then the pieces moved. */
  function CastlingMoved(g: Game, c: Color, kingside: bool): Game
    requires KingPosition(g.state.squares, c).Some?
  {
    var b := g.state.squares;
    var k := KingPosition(b, c).value;
    var s := LastMoveSet(g.state, Move(k, KingTarget(c, kingside)));
    g.(state := s.(squares := Castled(b, k, c, kingside)))
  }

  /** performCastling after its guards: the end check follows when the rook was there. */
  function AfterCastling(g: Game, c: Color, kingside: bool): Game
    requires Consistent(g) && KingPosition(g.state.squares, c).Some?
  {
    if RookSquare(c, kingside) in g.state.squares then Judged(Castling(g, c, kingside)) else Castling(g, c, kingside)
  }

  /** performEnPassant after its guards up to its end check: the capture is played and recorded, the clock cleared, the turn switched. */
  function Passant(g: Game, m: Move): Game
    requires PassantShape(g.state.squares, m, g.state.lastMove)
  {
    var b := g.state.squares;
    var s := LastMoveSet(g.state, m);
    var moved := g.(state := s.(squares := PassantBoard(b, m, g.state.lastMove.value.end)));
    Turned(Clocked(Recorded(moved), true))
  }

  function AfterPassant(g: Game, m: Move): Game
    requires Consistent(g) && PassantShape(g.state.squares, m, g.state.lastMove)
  {
    Judged(Passant(g, m))
  }

  // ---------------------------------------------------------------- what the moves do

  /** The end check only sets flags; everything else is as it was. */
  lemma JudgedKeeps(g: Game)
    requires Consistent(g)
    ensures Judged(g).state == g.state && Judged(g).history == g.history && Judged(g).mode == g.mode
    ensures Judged(g).human == g.human && Judged(g).currentMoves == g.currentMoves && Judged(g).maxMoves == g.maxMoves
    ensures Judged(g).ended <==> g.ended || OutcomeOf(g) != Ongoing
    ensures Judged(g).completed <==> g.completed || OutcomeOf(g) == PuzzleSolved
    ensures Judged(g).failed <==> g.failed || OutcomeOf(g) == PuzzleOutOfMoves
  {
  }

  /**
   * After the end check the position and the record are those the move
   * left; the game has ended when the move ended it by repetition, or the
   * check found an outcome.
   */
  lemma AfterExecuteJudged(g: Game, m: Move, promotion: Option<Piece>, selected: string)
    requires Consistent(g) && m.start in g.state.squares
    ensures var x := Mover(g.state.squares[m.start], m, promotion, selected);
            var e := Executed(g, m, x);
            var r := AfterExecute(g, m, promotion, selected);
            Consistent(e) && r.state == e.state && r.history == e.history && r.currentMoves == e.currentMoves &&
            (r.ended <==> e.ended || (!Repeats(Played(g, m, x)) && OutcomeOf(e) != Ongoing))
  {
    var x := Mover(g.state.squares[m.start], m, promotion, selected);
    if !Repeats(Played(g, m, x)) {
      JudgedKeeps(Executed(g, m, x));
    }
  }

  /**
   * executeMove on the board: the end square holds the placed piece,
   * marked moved, the start square is empty, nothing else changes; the
   * move is the last move, the flags follow it, and an en-passant target
   * appears only when the end square held a pawn before the relocation and
   * the move spans two rows, so a pawn's own double step never leaves one.
   */
  lemma ExecuteBoard(g: Game, m: Move, x: Piece)
    requires m.start in g.state.squares && m.start != m.end
    ensures var b := g.state.squares;
            var r := Executed(g, m, x);
            (forall p: Position :: Get(r.state.squares, p) ==
               if p == m.end then Some(x.(moved := true)) else if p == m.start then None else Get(b, p)) &&
            r.state.lastMove == Some(m) && r.state.rights == RightsAfter(g.state.rights, b, Some(m)) &&
            (r.state.enPassant.Some? <==> m.end in b && b[m.end].kind == Pawn && Abs(m.start.row - m.end.row) == 2)
  {
    var b := g.state.squares;
    var played := Played(g, m, x);
    forall p: Position
      ensures Get(played.state.squares, p) ==
              if p == m.end then Some(x.(moved := true)) else if p == m.start then None else Get(b, p)
    {
      RelocatedExact(b, m, x, p);
    }
  }

  /**
   * executeMove's repetition test sees the new position with the mover
   * still to move and not yet recorded: when it already occurs three times
   * the game ends and the clock, the turn, the record and the puzzle
   * counter stay as they were.
   */
  lemma ExecuteRepetition(g: Game, m: Move, x: Piece)
    requires m.start in g.state.squares
    ensures var r := Executed(g, m, x);
            var key := FenFour(r.state.squares, g.state.player, r.state.rights, r.state.enPassant);
            g.history[key] >= 3 ==>
              r.ended && r.state.player == g.state.player && r.state.halfmoveClock == g.state.halfmoveClock &&
              r.state.fullmoveNumber == g.state.fullmoveNumber && r.history == g.history &&
              r.currentMoves == g.currentMoves
  {
  }

  /**
   * Without a repetition the clock is reset by a capture or a pawn move and
   * else goes up, the key recorded is the new position with the mover to
   * move, the turn passes, and the puzzle counter goes up exactly when
   * puzzle mode hands the move to the side that is not the human.
   */
  lemma ExecuteBookkeeping(g: Game, m: Move, x: Piece)
    requires m.start in g.state.squares
    ensures var b := g.state.squares;
            var r := Executed(g, m, x);
            var key := FenFour(r.state.squares, g.state.player, r.state.rights, r.state.enPassant);
            var t := Switched(g.state.player, g.state.fullmoveNumber);
            g.history[key] < 3 ==>
              r.state.halfmoveClock == (if m.end in b || b[m.start].kind == Pawn then 0 else Wrap32(g.state.halfmoveClock + 1)) &&
              (r.state.player, r.state.fullmoveNumber) == t &&
              r.history == g.history + multiset{key} && r.ended == g.ended &&
              r.currentMoves == if g.mode == PuzzleMode && Some(t.0) != g.human then Wrap32(g.currentMoves + 1) else g.currentMoves
  {
    var b := g.state.squares;
    var played := Played(g, m, x);
    var clocked := Clocked(played, m.end in b || b[m.start].kind == Pawn);
    var recorded := Recorded(clocked);
    var turned := Turned(recorded);
    assert turned.state.squares == played.state.squares && turned.state.rights == played.state.rights;
    assert turned.state.enPassant == played.state.enPassant && clocked.state.player == g.state.player;
    var key := FenFour(played.state.squares, g.state.player, played.state.rights, played.state.enPassant);
    assert SnapKey(played.state) == key;
    if g.history[key] < 3 {
      assert Executed(g, m, x) == Ticked(turned);
      assert recorded.history == g.history + multiset{key};
    }
  }

  /** Castling, with or without the rook, takes both castling flags from the king's side and keeps the other side's. */
  lemma CastlingRights(g: Game, c: Color, kingside: bool)
    requires KingPosition(g.state.squares, c).Some?
    ensures var r := Castling(g, c, kingside).state.rights;
            if IsWhite(c) then !r.whiteKingside && !r.whiteQueenside &&
                               r.blackKingside == g.state.rights.blackKingside && r.blackQueenside == g.state.rights.blackQueenside
            else !r.blackKingside && !r.blackQueenside &&
                 r.whiteKingside == g.state.rights.whiteKingside && r.whiteQueenside == g.state.rights.whiteQueenside
  {
    var b := g.state.squares;
    var k := KingPosition(b, c).value;
    assert IsKingOf(b, k, c);
    var s := LastMoveSet(g.state, Move(k, KingTarget(c, kingside)));
    assert Castling(g, c, kingside).state.rights == s.rights;
  }

  /**
   * With the king on its colour's home row the guards guarantee the rook:
   * the king lands on column 6 or 2, the rook on column 5 or 3, both marked
   * moved, the squares they left are empty, the clock goes up, the new
   * position is recorded with the castling side to move, the turn passes
   * and the puzzle counter does not move.
   */
  lemma CastlingOnHomeRow(g: Game, c: Color, kingside: bool)
    requires CastlingAllowed(g.state.squares, c, kingside, g.state.lastMove)
    requires KingPosition(g.state.squares, c).value.row == CastleRow(c)
    ensures var b := g.state.squares;
            var k := KingPosition(b, c).value;
            var r := Castling(g, c, kingside);
            RookSquare(c, kingside) in b &&
            (forall p: Position :: Get(r.state.squares, p) ==
               if p == KingTarget(c, kingside) then Some(b[k].(moved := true))
               else if p == RookTarget(c, kingside) then Some(b[RookSquare(c, kingside)].(moved := true))
               else if p == k || p == RookSquare(c, kingside) then None
               else Get(b, p)) &&
            r.state.halfmoveClock == Wrap32(g.state.halfmoveClock + 1) &&
            (r.state.player, r.state.fullmoveNumber) == Switched(g.state.player, g.state.fullmoveNumber) &&
            r.history == g.history + multiset{FenFour(r.state.squares, g.state.player, r.state.rights, r.state.enPassant)} &&
            r.currentMoves == g.currentMoves
  {
    var b := g.state.squares;
    var k := KingPosition(b, c).value;
    assert RookSquare(c, kingside) == Pos(if kingside then 7 else 0, k.row);
    forall p: Position
      ensures Get(Castled(b, k, c, kingside), p) ==
              if p == KingTarget(c, kingside) then Some(b[k].(moved := true))
              else if p == RookTarget(c, kingside) then Some(b[RookSquare(c, kingside)].(moved := true))
              else if p == k || p == RookSquare(c, kingside) then None
              else Get(b, p)
    {
      CastledExact(b, k, c, kingside, p);
    }
  }

  /**
   * performEnPassant: the pawn lands on the target, marked moved, and the
   * captured pawn and the start square are emptied; the position is
   * recorded with the capturing side to move; the clock is cleared, the
   * turn passes and the puzzle counter does not move.
   */
  lemma PassantEffects(g: Game, m: Move)
    requires PassantShape(g.state.squares, m, g.state.lastMove)
    ensures var b := g.state.squares;
            var v := g.state.lastMove.value.end;
            var r := Passant(g, m);
            (forall p: Position :: Get(r.state.squares, p) ==
               if p == m.end then Some(b[m.start].(moved := true)) else if p == m.start || p == v then None else Get(b, p)) &&
            r.state.lastMove == Some(m) && r.state.halfmoveClock == 0 &&
            (r.state.player, r.state.fullmoveNumber) == Switched(g.state.player, g.state.fullmoveNumber) &&
            r.history == g.history + multiset{FenFour(r.state.squares, g.state.player, r.state.rights, r.state.enPassant)} &&
            r.currentMoves == g.currentMoves
  {
    assert g.state.lastMove.value.end != m.end && g.state.lastMove.value.end != m.start && m.start != m.end;
  }

  // ---------------------------------------------------------------- movePiece's routes

  /** Which of the three move methods movePiece hands a move to, or none. */
  datatype Route = Refused | CastlingRoute(kingside: bool) | EnPassantRoute | Ordinary

  /**
   * movePiece's guards and switch: a move is refused when its start square
   * is empty, the game has ended, the board's current valid moves do not
   * hold it or isMoveValidUnderCheck rejects it; a king moving two files
   * castles towards the side it moves to; a pawn stepping one row to
   * another file onto an empty square takes en passant; any other move is
   * executed.
   */
  function Dispatch(b: Board, m: Move, gameEnded: bool, validMoves: seq<Move>, lastMove: Option<Move>): (route: Route)
    ensures route != Refused ==> m.start in b && !gameEnded && m in validMoves && ValidUnderCheck(b, m, lastMove)
  {
    if m.start !in b || gameEnded || m !in validMoves || !ValidUnderCheck(b, m, lastMove) then Refused
    else if b[m.start].kind == King && Abs(m.end.col - m.start.col) == 2 then CastlingRoute(m.end.col > m.start.col)
    else if b[m.start].kind == Pawn && m.end !in b && m.start.col != m.end.col && Abs(m.start.row - m.end.row) == 1 then
      EnPassantRoute
    else Ordinary
  }

  /**
   * A pawn's diagonal step onto an empty square always goes to
   * performEnPassant, whose shape guards then accept it exactly when the
   * pawn generator's en-passant rule does; and a move that is executed is
   * neither a king's two-file move nor such a step.
   */
  lemma DispatchRoutes(b: Board, m: Move, gameEnded: bool, validMoves: seq<Move>, lastMove: Option<Move>)
    requires Dispatch(b, m, gameEnded, validMoves, lastMove) != Refused
    ensures var route := Dispatch(b, m, gameEnded, validMoves, lastMove);
            (route == EnPassantRoute <==>
               b[m.start].kind == Pawn && m.end !in b && m.start.col != m.end.col && Abs(m.start.row - m.end.row) == 1) &&
            (route == EnPassantRoute ==>
               (PassantShape(b, m, lastMove) <==> EnPassantCapture(b, m.start, b[m.start], lastMove, m.end))) &&
            (route == Ordinary ==> !(b[m.start].kind == King && Abs(m.end.col - m.start.col) == 2))
  {
    if Dispatch(b, m, gameEnded, validMoves, lastMove) == EnPassantRoute {
      PassantShapeIsPawnRule(b, m, lastMove);
    }
  }

  // ---------------------------------------------------------------- the controller

  /** The board manager the constructor creates: the standard starting array, White to move, recorded once. */
  method StartingBoard() returns (bm: BoardManager)
    ensures fresh(bm) && fresh(bm.current) && fresh(bm.current.pieceMap)
    ensures forall p: Position :: Get(bm.current.pieceMap.squares, p) == StartPiece(p)
    ensures Snap(bm.current) == Snapshot(bm.current.pieceMap.squares, None, White, 0, 1, None, AllRights)
    ensures bm.history == multiset{SnapKey(Snap(bm.current))}
  {
    bm := new BoardManager();
    bm.SetupInitialPosition();
    bm.UpdateBoardStateHistory();
    StartingArray(bm.current.pieceMap.squares);
  }

  lemma StartingArray(b: Board)
    requires b == InitialBoard()
    ensures forall p: Position :: Get(b, p) == StartPiece(p)
  {
    forall p: Position
      ensures Get(b, p) == StartPiece(p)
    {
      InitialBoardExact(p);
    }
  }

  class ChessController {
    const boardManager: BoardManager
    const historyManager: GameHistoryManager
    const actionManager: GameActionManager
    var gameEnded: bool
    var gameMode: GameMode
    var humanPlayerColor: Option<Color>
    var puzzleMaxMoves: Int32
    var puzzleCurrentMoves: Int32
    var puzzleCompleted: bool
    var puzzleFailed: bool

    /** The managers are shared with the action manager, no saved snapshot aliases the live state, and puzzle mode has a human colour. */
    predicate Valid()
      reads this, historyManager
    {
      actionManager.boardManager == boardManager && actionManager.historyManager == historyManager &&
      actionManager.Separate() && historyManager.Valid() &&
      (gameMode == PuzzleMode ==> humanPlayerColor.Some?)
    }

    function View(): Game
      reads this, boardManager, boardManager.current, boardManager.current.pieceMap
    {
      Game(Snap(boardManager.current), boardManager.history, gameEnded, gameMode, humanPlayerColor,
           puzzleMaxMoves, puzzleCurrentMoves, puzzleCompleted, puzzleFailed)
    }

    /**
     * The constructor: a player-versus-player game on the standard starting
     * array, White to move, all castling rights, no last move and no
     * en-passant target, that position recorded once, and empty undo and
     * redo stacks.
     */
    constructor ()
      ensures Valid()
      ensures fresh(boardManager) && fresh(boardManager.current) && fresh(boardManager.current.pieceMap) && fresh(historyManager)
      ensures View() == Game(Snap(boardManager.current), multiset{SnapKey(Snap(boardManager.current))}, false, PlayerVsPlayer, None, 0, 0, false, false)
      ensures forall p: Position :: Get(View().state.squares, p) == StartPiece(p)
      ensures View().state == Snapshot(View().state.squares, None, White, 0, 1, None, AllRights)
      ensures historyManager.undo == [] && historyManager.redo == [] && historyManager.counts == map[]
    {
      var bm := StartingBoard();
      var hm := new GameHistoryManager();
      historyManager := hm;
      boardManager := bm;
      actionManager := new GameActionManager(bm, hm);
      gameEnded := false;
      gameMode := PlayerVsPlayer;
      humanPlayerColor := None;
      puzzleMaxMoves := 0;
      puzzleCurrentMoves := 0;
      puzzleCompleted := false;
      puzzleFailed := false;
    }

    /** setPlayerVsPlayer: only the mode changes. */
    method SetPlayerVsPlayer()
      requires Valid()
      modifies this
      ensures Valid()
      ensures View() == old(View()).(mode := PlayerVsPlayer)
    {
      gameMode := PlayerVsPlayer;
    }

    /** setPlayerVsAI: the mode and the human's colour. */
    method SetPlayerVsAI(humanColor: Color)
      requires Valid()
      modifies this
      ensures Valid()
      ensures View() == old(View()).(mode := PlayerVsAI, human := Some(humanColor))
    {
      gameMode := PlayerVsAI;
      humanPlayerColor := Some(humanColor);
    }

    /**
     * setPuzzleMode: the move limit, a fresh counter and cleared flags, and
     * the human playing the side the FEN gives to move.
     */
    method SetPuzzleMode(fen: string, maxMoves: Int32)
      requires Valid()
      modifies this
      ensures Valid()
      ensures View() == old(View()).(mode := PuzzleMode, maxMoves := maxMoves, currentMoves := 0,
                                     completed := false, failed := false, human := Some(PuzzleSide(fen)))
    {
      gameMode := PuzzleMode;
      puzzleMaxMoves := maxMoves;
      puzzleCurrentMoves := 0;
      puzzleCompleted := false;
      puzzleFailed := false;
      var parts := Split(fen, ' ');
      humanPlayerColor := Some(if |parts| >= 2 && parts[1] == "w" then White else Black);
    }

    /** clear: every square emptied. */
    method Clear()
      modifies boardManager.current.pieceMap
      ensures View() == old(View()).(state := old(View()).state.(squares := map[]))
    {
      boardManager.Clear();
    }

    method SetGameEnded(ended: bool)
      requires Valid()
      modifies this
      ensures Valid()
      ensures View() == old(View()).(ended := ended)
    {
      gameEnded := ended;
    }

    /** handleTimeOut: nothing once the game has ended; otherwise it ends and the other side wins. */
    method HandleTimeOut(color: Color) returns (winner: Option<Color>)
      requires Valid()
      modifies this
      ensures Valid()
      ensures winner.Some? <==> !old(gameEnded)
      ensures winner.Some? ==> winner.value == Opponent(color)
      ensures View() == old(View()).(ended := true)
    {
      if gameEnded {
        return None;
      }
      gameEnded := true;
      winner := Some(if IsWhite(color) then Black else White);
    }

    /** resignGame as the controller sees it: the winner the action manager names, and the game ends. */
    method ResignGame() returns (winner: Option<Color>)
      requires Valid()
      modifies this
      ensures Valid()
      ensures winner.Some? <==> !old(gameEnded)
      ensures winner.Some? ==> winner.value == Opponent(boardManager.current.player)
      ensures View() == old(View()).(ended := true)
    {
      winner := actionManager.ResignGame(gameEnded);
      if winner.Some? {
        gameEnded := true;
      }
    }

    method GetPuzzleRemainingMoves() returns (n: Int32)
      ensures n == RemainingMoves(puzzleMaxMoves, puzzleCurrentMoves)
    {
      var d := Wrap32(puzzleMaxMoves - puzzleCurrentMoves);
      n := if d >= 0 then d else 0;
    }

    /** checkGameEndConditions, run to completion: the outcome and the flags it sets. */
    method CheckGameEndConditions() returns (outcome: Outcome)
      requires Valid()
      modifies this
      ensures Valid()
      ensures outcome == OutcomeOf(old(View()))
      ensures View() == Judged(old(View()))
    {
      outcome := EndCheck();
      if outcome != Ongoing {
        gameEnded := true;
      }
      if outcome == PuzzleSolved {
        puzzleCompleted := true;
      } else if outcome == PuzzleOutOfMoves {
        puzzleFailed := true;
      }
    }

    /** The tests of checkGameEndConditions, in its order, on the live state. */
    method EndCheck() returns (outcome: Outcome)
      requires Valid()
      ensures outcome == OutcomeOf(View())
    {
      var pm := boardManager.current.pieceMap;
      var lastMove := boardManager.current.lastMove;
      if gameMode == PuzzleMode {
        var opponentColor := Opponent(humanPlayerColor.value);
        var won := IsCheckmate(opponentColor, pm, lastMove);
        if won {
          return PuzzleSolved;
        }
        if puzzleCurrentMoves >= puzzleMaxMoves {
          return PuzzleOutOfMoves;
        }
      }
      var player := boardManager.current.player;
      var mate := IsCheckmate(player, pm, lastMove);
      if mate {
        return Checkmated;
      }
      if boardManager.current.halfmoveClock >= FiftyMoveRuleLimit {
        return FiftyMoveDraw;
      }
      var dead := IsDeadPosition(pm);
      if dead {
        return DeadPositionDraw;
      }
      var stale := IsStalemate(player, pm, lastMove);
      if stale {
        return StalemateDraw;
      }
      outcome := Ongoing;
    }

    // -------------------------------------------------------------- the steps of a move

    /** saveStateForUndo(currentBoardState), with the stacks kept apart from the live state. */
    method SaveUndo() returns (err: Option<Failure>)
      requires Valid()
      modifies historyManager
      ensures Valid()
      ensures err.Some? <==> MapRights(boardManager.current.pieceMap.squares, boardManager.current.lastMove).Err?
      ensures err.Some? ==>
                historyManager.counts == old(historyManager.counts) &&
                historyManager.undo == old(historyManager.undo) && historyManager.redo == old(historyManager.redo)
      ensures err.None? ==>
                |historyManager.undo| == |old(historyManager.undo)| + 1 &&
                historyManager.undo[..|old(historyManager.undo)|] == old(historyManager.undo) &&
                Snap(historyManager.undo[|old(historyManager.undo)|]) == Snap(boardManager.current) &&
                historyManager.counts == Bumped(old(historyManager.counts), boardManager.current.Key()) &&
                historyManager.redo == old(historyManager.redo)
    {
      ghost var stack := historyManager.undo;
      err := historyManager.SaveStateForUndo(boardManager.current);
      if err.Some? {
        return;
      }
      actionManager.AllApartPush(stack, historyManager.undo[|stack|]);
      assert historyManager.undo == stack + [historyManager.undo[|stack|]];
    }

    /** setLastMove(move), then executeMove's four map updates. */
    method PlayMove(m: Move, x: Piece)
      modifies boardManager.current, boardManager.current.pieceMap
      ensures View() == Played(old(View()), m, x)
    {
      boardManager.SetLastMove(Some(m));
      boardManager.RemovePiece(m.end);
      boardManager.SetPiece(m.end, x);
      boardManager.RemovePiece(m.start);
      boardManager.UpdatePieceMovement(m);
    }

    method Clock(reset: bool)
      modifies boardManager.current
      ensures View() == Clocked(old(View()), reset)
    {
      if reset {
        boardManager.current.ClearHalfmoveClock();
      } else {
        boardManager.current.IncrementHalfmoveClock();
      }
    }

    method Record()
      modifies boardManager
      ensures View() == Recorded(old(View()))
    {
      boardManager.UpdateBoardStateHistory();
    }

    method Switch()
      requires Valid()
      modifies boardManager.current
      ensures View() == Turned(old(View()))
    {
      actionManager.SwitchTurn();
    }

    /** The puzzle counter of executeMove, read after the turn has switched. */
    method PuzzleTick()
      requires Valid()
      modifies this
      ensures Valid()
      ensures View() == Ticked(old(View()))
    {
      if gameMode == PuzzleMode && Some(boardManager.current.player) != humanPlayerColor {
        puzzleCurrentMoves := Wrap32(puzzleCurrentMoves + 1);
      }
    }

    // -------------------------------------------------------------- the move methods

    /**
     * executeMove: the redo stack is cleared, the state is saved for undo,
     * the move (promoted when a pawn reaches the last row) is played, and
     * the repetition test, the bookkeeping, the puzzle counter and the end
     * check follow. A state whose copy fails throws before the move, after
     * the redo stack was cleared.
     */
    method ExecuteMove(move: Move, promotion: Option<Piece>, selected: string) returns (r: Result<bool>)
      requires Valid()
      requires move.start in boardManager.current.pieceMap.squares
      modifies this, historyManager, boardManager, boardManager.current, boardManager.current.pieceMap
      ensures Valid()
      ensures historyManager.redo == []
      ensures r.Err? <==> MapRights(old(boardManager.current.pieceMap.squares), old(boardManager.current.lastMove)).Err?
      ensures r.Err? ==>
                View() == old(View()) && historyManager.undo == old(historyManager.undo) &&
                historyManager.counts == old(historyManager.counts)
      ensures r.Ok? ==> r == Ok(true) && View() == AfterExecute(old(View()), move, promotion, selected)
      ensures r.Ok? ==>
                |historyManager.undo| == |old(historyManager.undo)| + 1 &&
                historyManager.undo[..|old(historyManager.undo)|] == old(historyManager.undo) &&
                Snap(historyManager.undo[|old(historyManager.undo)|]) == old(Snap(boardManager.current)) &&
                historyManager.counts == Bumped(old(historyManager.counts), old(boardManager.current.Key()))
    {
      historyManager.ClearRedoStack();
      var err := SaveUndo();
      if err.Some? {
        return Err(err.value);
      }
      PlayAndJudge(move, promotion, selected);
      r := Ok(true);
    }

    /** executeMove after the save for undo: the move and the repetition test, then the end check unless the game ended by repetition. */
    method PlayAndJudge(move: Move, promotion: Option<Piece>, selected: string)
      requires Valid()
      requires move.start in boardManager.current.pieceMap.squares
      modifies this, boardManager, boardManager.current, boardManager.current.pieceMap
      ensures Valid()
      ensures View() == AfterExecute(old(View()), move, promotion, selected)
    {
      var repeated := Play(move, promotion, selected);
      if !repeated {
        var _ := CheckGameEndConditions();
      }
    }

    /** executeMove up to its end check: the promoted mover played, then the repetition ending or the bookkeeping. */
    method Play(move: Move, promotion: Option<Piece>, selected: string) returns (repeated: bool)
      requires Valid()
      requires move.start in boardManager.current.pieceMap.squares
      modifies this, boardManager, boardManager.current, boardManager.current.pieceMap
      ensures Valid()
      ensures repeated <==> Repeats(Played(old(View()), move, Mover(old(View()).state.squares[move.start], move, promotion, selected)))
      ensures View() == Executed(old(View()), move, Mover(old(View()).state.squares[move.start], move, promotion, selected))
    {
      var piece := boardManager.GetPiece(move.start);
      var atEnd := boardManager.GetPiece(move.end);
      var isCapture := atEnd.Some?;
      var isPawnMove := piece.value.kind == Pawn;
      repeated := Step(move, Mover(piece.value, move, promotion, selected), isCapture || isPawnMove);
    }

    /** The move played, then either the repetition ending or the clock, the record, the turn and the puzzle counter. */
    method Step(move: Move, placed: Piece, reset: bool) returns (repeated: bool)
      requires Valid()
      modifies this, boardManager, boardManager.current, boardManager.current.pieceMap
      ensures Valid()
      ensures repeated <==> Repeats(Played(old(View()), move, placed))
      ensures repeated ==> View() == Played(old(View()), move, placed).(ended := true)
      ensures !repeated ==> View() == Ticked(Turned(Recorded(Clocked(Played(old(View()), move, placed), reset))))
    {
      PlayMove(move, placed);
      repeated := IsThreefoldRepetition(boardManager);
      if repeated {
        gameEnded := true;
        return;
      }
      Advance(reset);
    }

    /** The rest of executeMove's bookkeeping once no repetition has ended the game. */
    method Advance(reset: bool)
      requires Valid()
      modifies this, boardManager, boardManager.current
      ensures Valid()
      ensures View() == Ticked(Turned(Recorded(Clocked(old(View()), reset))))
    {
      Clock(reset);
      Record();
      Switch();
      PuzzleTick();
    }

    /**
     * performCastling's four map updates and two setHasMoved calls: the
     * squares come from the colour and the side; a missing rook is put as an
     * empty square and marking it moved throws.
     */
    method CastlePieces(k: Position, c: Color, kingside: bool) returns (err: Option<Failure>)
      requires k in boardManager.current.pieceMap.squares
      modifies boardManager.current.pieceMap
      ensures boardManager.current.pieceMap.squares == Castled(old(boardManager.current.pieceMap.squares), k, c, kingside)
      ensures err.Some? <==> RookSquare(c, kingside) !in old(boardManager.current.pieceMap.squares)
      ensures err.Some? ==> err.value == NullPointer
    {
      ghost var b := boardManager.current.pieceMap.squares;
      var king := boardManager.GetPiece(k);
      var rookPos := RookSquare(c, kingside);
      var rook := boardManager.GetPiece(rookPos);
      var kingTarget := KingTarget(c, kingside);
      var rookTarget := RookTarget(c, kingside);
      boardManager.RemovePiece(k);
      boardManager.RemovePiece(rookPos);
      boardManager.SetPiece(kingTarget, king.value);
      if rook.Some? {
        boardManager.SetPiece(rookTarget, rook.value);
      } else {
        boardManager.RemovePiece(rookTarget);
      }
      // setHasMoved on the king object, which now stands on its target
      boardManager.SetPiece(kingTarget, king.value.(moved := true));
      CastledSteps(b, k, c, kingside);
      if rook.None? {
        return Some(NullPointer);
      }
      boardManager.SetPiece(rookTarget, rook.value.(moved := true));
      err := None;
    }

    /** performCastling's guards, read off the live board; the king's square when they hold. */
    method CastlingGuards(isKingside: bool, color: Color) returns (allowed: bool, kingPos: Position)
      ensures allowed == CastlingAllowed(boardManager.current.pieceMap.squares, color, isKingside, boardManager.current.lastMove)
      ensures allowed ==> KingPosition(boardManager.current.pieceMap.squares, color) == Some(kingPos)
    {
      var found := boardManager.current.pieceMap.GetKingPosition(color);
      if found.None? {
        return false, Pos(0, 0);
      }
      kingPos := found.value;
      var king := boardManager.GetPiece(kingPos);
      if king.None? || king.value.kind != King || king.value.moved {
        return false, kingPos;
      }
      if isKingside {
        allowed := CastleKingside(boardManager.current.pieceMap, kingPos, boardManager.current.lastMove);
      } else {
        allowed := CastleQueenside(boardManager.current.pieceMap, kingPos, boardManager.current.lastMove);
      }
    }

    /**
     * performCastling: nothing changes and false is returned unless the
     * guards hold; then the redo stack is cleared, the state saved for undo,
     * the king's move set as the last move and the pieces moved, after
     * which a missing rook throws; otherwise the bookkeeping, the switch of
     * turn and the end check follow.
     */
    method PerformCastling(isKingside: bool, color: Color) returns (r: Result<bool>)
      requires Valid()
      modifies this, historyManager, boardManager, boardManager.current, boardManager.current.pieceMap
      ensures Valid()
      ensures !CastlingAllowed(old(boardManager.current.pieceMap.squares), color, isKingside, old(boardManager.current.lastMove)) ==>
                r == Ok(false) && View() == old(View()) && historyManager.undo == old(historyManager.undo) &&
                historyManager.redo == old(historyManager.redo) && historyManager.counts == old(historyManager.counts)
      ensures CastlingAllowed(old(boardManager.current.pieceMap.squares), color, isKingside, old(boardManager.current.lastMove)) ==>
                historyManager.redo == [] &&
                (r.Err? <==> MapRights(old(boardManager.current.pieceMap.squares), old(boardManager.current.lastMove)).Err? ||
                             RookSquare(color, isKingside) !in old(boardManager.current.pieceMap.squares))
      ensures CastlingAllowed(old(boardManager.current.pieceMap.squares), color, isKingside, old(boardManager.current.lastMove)) &&
              MapRights(old(boardManager.current.pieceMap.squares), old(boardManager.current.lastMove)).Err? ==>
                View() == old(View()) && historyManager.undo == old(historyManager.undo) &&
                historyManager.counts == old(historyManager.counts)
      ensures CastlingAllowed(old(boardManager.current.pieceMap.squares), color, isKingside, old(boardManager.current.lastMove)) &&
              MapRights(old(boardManager.current.pieceMap.squares), old(boardManager.current.lastMove)).Ok? ==>
                View() == AfterCastling(old(View()), color, isKingside) &&
                r == (if RookSquare(color, isKingside) in old(boardManager.current.pieceMap.squares) then Ok(true) else Err(NullPointer)) &&
                |historyManager.undo| == |old(historyManager.undo)| + 1 &&
                historyManager.undo[..|old(historyManager.undo)|] == old(historyManager.undo) &&
                Snap(historyManager.undo[|old(historyManager.undo)|]) == old(Snap(boardManager.current)) &&
                historyManager.counts == Bumped(old(historyManager.counts), old(boardManager.current.Key()))
    {
      var allowed, kingPos := CastlingGuards(isKingside, color);
      if !allowed {
        return Ok(false);
      }
      historyManager.ClearRedoStack();
      var err := SaveUndo();
      if err.Some? {
        return Err(err.value);
      }
      r := Castle(kingPos, color, isKingside);
    }

    /** performCastling after the save for undo: the end check runs only when no exception was thrown. */
    method Castle(kingPos: Position, color: Color, isKingside: bool) returns (r: Result<bool>)
      requires Valid()
      requires KingPosition(boardManager.current.pieceMap.squares, color) == Some(kingPos)
      modifies this, boardManager, boardManager.current, boardManager.current.pieceMap
      ensures Valid()
      ensures View() == AfterCastling(old(View()), color, isKingside)
      ensures r == if RookSquare(color, isKingside) in old(boardManager.current.pieceMap.squares) then Ok(true) else Err(NullPointer)
    {
      var thrown := MoveCastlingPieces(kingPos, color, isKingside);
      if thrown.Some? {
        return Err(thrown.value);
      }
      var _ := CheckGameEndConditions();
      r := Ok(true);
    }

    /** performCastling up to its end check. */
    method MoveCastlingPieces(kingPos: Position, color: Color, isKingside: bool) returns (thrown: Option<Failure>)
      requires Valid()
      requires KingPosition(boardManager.current.pieceMap.squares, color) == Some(kingPos)
      modifies boardManager, boardManager.current, boardManager.current.pieceMap
      ensures View() == Castling(old(View()), color, isKingside)
      ensures thrown.Some? <==> RookSquare(color, isKingside) !in old(boardManager.current.pieceMap.squares)
      ensures thrown.Some? ==> thrown.value == NullPointer
    {
      thrown := PlaceCastlingPieces(kingPos, color, isKingside);
      if thrown.Some? {
        return;
      }
      Clock(false);
      Record();
      Switch();
    }

    method PlaceCastlingPieces(kingPos: Position, color: Color, isKingside: bool) returns (thrown: Option<Failure>)
      requires KingPosition(boardManager.current.pieceMap.squares, color) == Some(kingPos)
      modifies boardManager.current, boardManager.current.pieceMap
      ensures View() == CastlingMoved(old(View()), color, isKingside)
      ensures thrown.Some? <==> RookSquare(color, isKingside) !in old(boardManager.current.pieceMap.squares)
      ensures thrown.Some? ==> thrown.value == NullPointer
    {
      boardManager.SetLastMove(Some(Move(kingPos, KingTarget(color, isKingside))));
      thrown := CastlePieces(kingPos, color, isKingside);
    }

    /** performEnPassant's map updates: the captured pawn and the start square cleared, the pawn placed and marked moved. */
    method CaptureInPassing(m: Move, victim: Position)
      requires m.start in boardManager.current.pieceMap.squares
      modifies boardManager.current.pieceMap
      ensures boardManager.current.pieceMap.squares == PassantBoard(old(boardManager.current.pieceMap.squares), m, victim)
    {
      var piece := boardManager.GetPiece(m.start);
      boardManager.RemovePiece(victim);
      boardManager.RemovePiece(m.start);
      boardManager.SetPiece(m.end, piece.value);
      boardManager.UpdatePieceMovement(m);
    }

    /**
     * performEnPassant: nothing changes and false is returned unless every
     * guard holds; then the redo stack is cleared, the state saved for undo,
     * the capture played and recorded, the clock cleared, the turn switched
     * and the end check run.
     */
    method PerformEnPassant(move: Move) returns (r: Result<bool>)
      requires Valid()
      modifies this, historyManager, boardManager, boardManager.current, boardManager.current.pieceMap
      ensures Valid()
      ensures !PassantAllowed(old(boardManager.current.pieceMap.squares), move, old(boardManager.current.lastMove), old(gameEnded)) ==>
                r == Ok(false) && View() == old(View()) && historyManager.undo == old(historyManager.undo) &&
                historyManager.redo == old(historyManager.redo) && historyManager.counts == old(historyManager.counts)
      ensures PassantAllowed(old(boardManager.current.pieceMap.squares), move, old(boardManager.current.lastMove), old(gameEnded)) ==>
                historyManager.redo == [] &&
                (r.Err? <==> MapRights(old(boardManager.current.pieceMap.squares), old(boardManager.current.lastMove)).Err?)
      ensures PassantAllowed(old(boardManager.current.pieceMap.squares), move, old(boardManager.current.lastMove), old(gameEnded)) &&
              r.Err? ==>
                View() == old(View()) && historyManager.undo == old(historyManager.undo) &&
                historyManager.counts == old(historyManager.counts)
      ensures PassantAllowed(old(boardManager.current.pieceMap.squares), move, old(boardManager.current.lastMove), old(gameEnded)) &&
              r.Ok? ==>
                r == Ok(true) && View() == AfterPassant(old(View()), move) &&
                |historyManager.undo| == |old(historyManager.undo)| + 1 &&
                historyManager.undo[..|old(historyManager.undo)|] == old(historyManager.undo) &&
                Snap(historyManager.undo[|old(historyManager.undo)|]) == old(Snap(boardManager.current)) &&
                historyManager.counts == Bumped(old(historyManager.counts), old(boardManager.current.Key()))
    {
      var allowed := PassantGuards(move);
      if !allowed {
        return Ok(false);
      }
      historyManager.ClearRedoStack();
      var err := SaveUndo();
      if err.Some? {
        return Err(err.value);
      }
      CaptureAndJudge(move);
      r := Ok(true);
    }

    /** performEnPassant's guards, read off the live board; the simulated board is a fresh map. */
    method PassantGuards(move: Move) returns (allowed: bool)
      ensures allowed == PassantAllowed(boardManager.current.pieceMap.squares, move, boardManager.current.lastMove, gameEnded)
    {
      var piece := boardManager.GetPiece(move.start);
      if piece.None? || piece.value.kind != Pawn || gameEnded {
        return false;
      }
      var lastMove := boardManager.current.lastMove;
      if lastMove.None? {
        return false;
      }
      var l := lastMove.value;
      var lastMovedPiece := boardManager.GetPiece(l.end);
      if lastMovedPiece.None? || lastMovedPiece.value.kind != Pawn || Abs(l.start.row - l.end.row) != 2 ||
         l.end.row != move.start.row || Abs(l.end.col - move.start.col) != 1 {
        return false;
      }
      var direction := if IsWhite(piece.value.color) then 1 else -1;
      if move.end.row != move.start.row + direction || move.end.col != l.end.col {
        return false;
      }
      var tempMap := SimulateMove(move, boardManager.current.pieceMap);
      tempMap.RemovePiece(l.end);
      var inCheck := IsKingInCheck(piece.value.color, tempMap, lastMove);
      allowed := !inCheck;
    }

    /** performEnPassant after the save for undo. */
    method CaptureAndJudge(move: Move)
      requires Valid()
      requires PassantShape(boardManager.current.pieceMap.squares, move, boardManager.current.lastMove)
      modifies this, boardManager, boardManager.current, boardManager.current.pieceMap
      ensures Valid()
      ensures View() == AfterPassant(old(View()), move)
    {
      Capture(move);
      var _ := CheckGameEndConditions();
    }

    /** performEnPassant up to its end check. */
    method Capture(move: Move)
      requires Valid()
      requires PassantShape(boardManager.current.pieceMap.squares, move, boardManager.current.lastMove)
      modifies boardManager, boardManager.current, boardManager.current.pieceMap
      ensures View() == Passant(old(View()), move)
    {
      var victim := boardManager.current.lastMove.value.end;
      boardManager.SetLastMove(Some(move));
      CaptureInPassing(move, victim);
      Record();
      Clock(true);
      Switch();
    }

    /**
     * movePiece: the route its guards and switch choose, and the move
     * method's result; a false result leaves everything as it was. The
     * engine's reply that may follow a successful move is not part of it.
     */
    method MovePiece(move: Move, promotion: Option<Piece>, selected: string, currentValidMoves: seq<Move>)
      returns (route: Route, r: Result<bool>)
      requires Valid()
      modifies this, historyManager, boardManager, boardManager.current, boardManager.current.pieceMap
      ensures Valid()
      ensures route == Dispatch(old(boardManager.current.pieceMap.squares), move, old(gameEnded), currentValidMoves,
                                old(boardManager.current.lastMove))
      ensures r == Ok(false) ==>
                View() == old(View()) && historyManager.undo == old(historyManager.undo) &&
                historyManager.redo == old(historyManager.redo) && historyManager.counts == old(historyManager.counts)
      ensures route == Refused ==> r == Ok(false)
      ensures route == Ordinary ==>
                (r.Err? <==> MapRights(old(boardManager.current.pieceMap.squares), old(boardManager.current.lastMove)).Err?) &&
                (r.Ok? ==> r == Ok(true) && View() == AfterExecute(old(View()), move, promotion, selected))
      ensures route.CastlingRoute? ==>
                var c := old(boardManager.current.pieceMap.squares)[move.start].color;
                (r == Ok(false) <==> !CastlingAllowed(old(boardManager.current.pieceMap.squares), c, route.kingside,
                                                      old(boardManager.current.lastMove))) &&
                (r == Ok(true) ==> View() == AfterCastling(old(View()), c, route.kingside))
      ensures route == EnPassantRoute ==>
                (r == Ok(false) <==> !PassantAllowed(old(boardManager.current.pieceMap.squares), move,
                                                     old(boardManager.current.lastMove), old(gameEnded))) &&
                (r == Ok(true) ==> View() == AfterPassant(old(View()), move))
    {
      route := Routing(move, currentValidMoves);
      match route
      case Refused =>
        r := Ok(false);
      case CastlingRoute(kingside) =>
        r := TryCastling(move, kingside);
      case EnPassantRoute =>
        r := TryEnPassant(move);
      case Ordinary =>
        r := ExecuteMove(move, promotion, selected);
    }

    /** movePiece's guards and switch, read off the live board. */
    method Routing(move: Move, currentValidMoves: seq<Move>) returns (route: Route)
      ensures route == Dispatch(boardManager.current.pieceMap.squares, move, gameEnded, currentValidMoves,
                                boardManager.current.lastMove)
    {
      var piece := boardManager.GetPiece(move.start);
      if piece.None? || gameEnded || move !in currentValidMoves {
        return Refused;
      }
      var valid := IsMoveValidUnderCheck(move, boardManager.current.pieceMap, boardManager.current.lastMove);
      if !valid {
        return Refused;
      }
      var atEnd := boardManager.GetPiece(move.end);
      if piece.value.kind == King && Abs(move.end.col - move.start.col) == 2 {
        route := CastlingRoute(move.end.col > move.start.col);
      } else if piece.value.kind == Pawn && atEnd.None? && move.start.col != move.end.col &&
                Abs(move.start.row - move.end.row) == 1 {
        route := EnPassantRoute;
      } else {
        route := Ordinary;
      }
    }

    /** The castling case of movePiece: performCastling for the king's colour. */
    method TryCastling(move: Move, kingside: bool) returns (r: Result<bool>)
      requires Valid()
      requires move.start in boardManager.current.pieceMap.squares
      modifies this, historyManager, boardManager, boardManager.current, boardManager.current.pieceMap
      ensures Valid()
      ensures var c := old(boardManager.current.pieceMap.squares)[move.start].color;
              (r == Ok(false) <==> !CastlingAllowed(old(boardManager.current.pieceMap.squares), c, kingside,
                                                    old(boardManager.current.lastMove))) &&
              (r == Ok(true) ==> View() == AfterCastling(old(View()), c, kingside))
      ensures r == Ok(false) ==>
                View() == old(View()) && historyManager.undo == old(historyManager.undo) &&
                historyManager.redo == old(historyManager.redo) && historyManager.counts == old(historyManager.counts)
    {
      var piece := boardManager.GetPiece(move.start);
      r := PerformCastling(kingside, piece.value.color);
    }

    /** The en-passant case of movePiece. */
    method TryEnPassant(move: Move) returns (r: Result<bool>)
      requires Valid()
      modifies this, historyManager, boardManager, boardManager.current, boardManager.current.pieceMap
      ensures Valid()
      ensures r == Ok(false) <==> !PassantAllowed(old(boardManager.current.pieceMap.squares), move,
                                                  old(boardManager.current.lastMove), old(gameEnded))
      ensures r == Ok(true) ==> View() == AfterPassant(old(View()), move)
      ensures r == Ok(false) ==>
                View() == old(View()) && historyManager.undo == old(historyManager.undo) &&
                historyManager.redo == old(historyManager.redo) && historyManager.counts == old(historyManager.counts)
    {
      r := PerformEnPassant(move);
    }
  }
}
