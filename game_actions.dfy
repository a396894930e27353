/**
 * GameActionManager: undo, redo and resignation over the board manager and
 * the history manager, the turn switch, and the parsing of engine moves.
 * The game-ended flag lives in the controller and is passed in; the
 * timer pause and resume around undo and redo are not modelled here.
 */
module GameActions {
  import opened Wrappers
  import opened Colors
  import opened Positions
  import opened Moves
  import opened Pieces
  import opened PieceMaps
  import opened Fen
  import opened JavaInts
  import opened BoardStates
  import opened BoardManagers
  import opened GameHistories
  import Engines

  /** The side to move and the full-move number after switchTurn: the number goes up when White is to move again. */
  function Switched(player: Color, fullmoveNumber: Int32): (r: (Color, Int32))
    ensures r.0 == Opponent(player)
    ensures r.1 == if IsWhite(r.0) then Wrap32(fullmoveNumber + 1) else fullmoveNumber
  {
    var next := Opponent(player);
    (next, if IsWhite(next) then Wrap32(fullmoveNumber + 1) else fullmoveNumber)
  }

  /** Two switches give the same side back one full move later, whoever started. */
  lemma SwitchedTwice(player: Color, fullmoveNumber: Int32)
    ensures var once := Switched(player, fullmoveNumber);
            Switched(once.0, once.1) == (player, Wrap32(fullmoveNumber + 1))
  {
  }

  /** parseStockfishMove: a null or short string is an IllegalArgumentException, as is a bad square. */
  function ParseStockfishMove(moveNotation: Option<string>): (r: Result<Move>)
    ensures r.Ok? <==> moveNotation.Some? && |moveNotation.value| >= 4 &&
                       FromNotation(moveNotation.value[..2]).Ok? && FromNotation(moveNotation.value[2..4]).Ok?
    ensures r.Err? ==> r.error == IllegalArgument
    ensures r.Ok? ==> MoveNotation(r.value) == moveNotation.value[..4]
  {
    if moveNotation.None? || |moveNotation.value| < 4 then Err(IllegalArgument)
    else
      var s := moveNotation.value;
      match FromNotation(s[..2])
      case Err(e) => Err(e)
      case Ok(start) =>
        match FromNotation(s[2..4])
        case Err(e) => Err(e)
        case Ok(end) =>
          assert s[..4] == s[..2] + s[2..4];
          Ok(Move(start, end))
  }

  /** Every move's notation parses back to the move. */
  lemma ParseStockfishMoveRoundTrip(m: Move)
    ensures ParseStockfishMove(Some(MoveNotation(m))) == Ok(m)
  {
    var s := MoveNotation(m);
    assert s[..4] == s && s[2..4] == s[2..];
  }

  /** The hint parser and the engine player's slicing read the same move from a string, and accept the same strings. */
  lemma ParseAgreesWithEngine(best: string, c: Color)
    ensures ParseStockfishMove(Some(best)).Ok? <==> Engines.DecodeEngineMove(best, c).Ok?
    ensures ParseStockfishMove(Some(best)).Ok? ==>
            ParseStockfishMove(Some(best)).value == Engines.DecodeEngineMove(best, c).value.move
  {
  }

  /** What restoreBoardState leaves in the live state: the snapshot, with setLastMove re-deriving the target and flags. */
  function Restoration(s: Snapshot): (r: Snapshot)
    ensures r.squares == s.squares && r.lastMove == s.lastMove && r.player == s.player
    ensures r.halfmoveClock == s.halfmoveClock && r.fullmoveNumber == s.fullmoveNumber
    ensures r.enPassant == EnPassantTarget(s.squares, s.lastMove)
    ensures r.rights == RightsAfter(s.rights, s.squares, s.lastMove)
  {
    s.(enPassant := EnPassantTarget(s.squares, s.lastMove), rights := RightsAfter(s.rights, s.squares, s.lastMove))
  }

  /** Restoring a restored state changes nothing more: setLastMove only ever clears flags. */
  lemma RestorationIdempotent(s: Snapshot)
    ensures Restoration(Restoration(s)) == Restoration(s)
  {
    RightsAfterMeaning(s.rights, s.squares, s.lastMove);
    RightsAfterMeaning(RightsAfter(s.rights, s.squares, s.lastMove), s.squares, s.lastMove);
  }

  /**
   * A snapshot taken in live play after a pawn's double step has no target
   * (setLastMove ran before the pawn arrived); restoring it derives the
   * target, so the restored state is not equal to the snapshot.
   */
  lemma RestorationFindsTarget(s: Snapshot)
    requires s.enPassant == None && s.lastMove.Some?
    requires s.lastMove.value.end in s.squares && s.squares[s.lastMove.value.end].kind == Pawn
    requires s.lastMove.value.end.row == s.lastMove.value.start.row + 2 ||
             s.lastMove.value.end.row == s.lastMove.value.start.row - 2
    ensures Restoration(s).enPassant.Some?
    ensures SnapKey(Restoration(s)) != SnapKey(s)
  {
    EnPassantTargetMeaning(s.squares, s.lastMove);
    var r := Restoration(s);
    FenFourEqualIff(r.squares, r.player, r.rights, r.enPassant, s.squares, s.player, s.rights, s.enPassant);
  }

  class GameActionManager {
    const boardManager: BoardManager
    const historyManager: GameHistoryManager

    constructor (bm: BoardManager, hm: GameHistoryManager)
      ensures boardManager == bm && historyManager == hm
    {
      boardManager := bm;
      historyManager := hm;
    }

    /** No snapshot on either stack is the live state or shares its map. */
    predicate Separate()
      reads historyManager
    {
      AllApart(historyManager.undo) && AllApart(historyManager.redo)
    }

    predicate AllApart(stack: seq<BoardState>)
    {
      forall i :: 0 <= i < |stack| ==> Apart(stack[i])
    }

    lemma AllApartPush(stack: seq<BoardState>, s: BoardState)
      requires AllApart(stack) && Apart(s)
      ensures AllApart(stack + [s])
    {
    }

    lemma AllApartPop(stack: seq<BoardState>)
      requires AllApart(stack) && stack != []
      ensures AllApart(stack[..|stack| - 1]) && Apart(stack[|stack| - 1])
    {
    }

    predicate Apart(s: BoardState)
    {
      s != boardManager.current && s.pieceMap != boardManager.current.pieceMap
    }

    /** switchTurn: the other side moves, and the full-move number goes up when that is White. */
    method SwitchTurn()
      modifies boardManager.current
      ensures (boardManager.current.player, boardManager.current.fullmoveNumber) ==
              Switched(old(boardManager.current.player), old(boardManager.current.fullmoveNumber))
      ensures boardManager.current.lastMove == old(boardManager.current.lastMove)
      ensures boardManager.current.enPassant == old(boardManager.current.enPassant)
      ensures boardManager.current.rights == old(boardManager.current.rights)
      ensures boardManager.current.halfmoveClock == old(boardManager.current.halfmoveClock)
    {
      var currentBoardState := boardManager.current;
      currentBoardState.SetCurrentPlayerColor(Opponent(currentBoardState.player));
      if IsWhite(currentBoardState.player) {
        currentBoardState.IncrementFullmoveNumber();
      }
    }

    /** The board part of restoreBoardState: clear the live map, then copy every entry of the snapshot's map. */
    method CopyPieces(state: BoardState)
      requires state.pieceMap != boardManager.current.pieceMap
      modifies boardManager.current.pieceMap
      ensures boardManager.current.pieceMap.squares == state.pieceMap.squares
    {
      boardManager.Clear();
      var entries := state.pieceMap.squares;
      var todo := entries.Keys;
      while todo != {}
        invariant todo <= entries.Keys
        invariant boardManager.current.pieceMap.squares == map p | p in entries.Keys - todo :: entries[p]
        decreases todo
      {
        var p :| p in todo;
        boardManager.SetPiece(p, entries[p]);
        todo := todo - {p};
      }
    }

    /**
     * The history part of restoreBoardState on undo: the live state's count
     * drops, the live state is saved for redo and the restored state's count
     * drops too. A failing deep copy throws before the save.
     */
    method RecordUndo(state: BoardState) returns (err: Option<Failure>)
      requires Separate()
      modifies historyManager
      ensures Separate()
      ensures old(historyManager.Valid()) ==> historyManager.Valid()
      ensures err.Some? <==> MapRights(boardManager.current.pieceMap.squares, boardManager.current.lastMove).Err?
      ensures err.Some? ==>
                historyManager.counts == Lowered(old(historyManager.counts), boardManager.current.Key()) &&
                historyManager.undo == old(historyManager.undo) && historyManager.redo == old(historyManager.redo)
      ensures err.None? ==>
                historyManager.counts == Lowered(Lowered(old(historyManager.counts), boardManager.current.Key()), state.Key()) &&
                historyManager.undo == old(historyManager.undo) &&
                |historyManager.redo| == |old(historyManager.redo)| + 1 &&
                historyManager.redo[..|old(historyManager.redo)|] == old(historyManager.redo) &&
                Snap(historyManager.redo[|old(historyManager.redo)|]) == Snap(boardManager.current)
    {
      var current := boardManager.current;
      ghost var stack := historyManager.redo;
      historyManager.DecrementBoardStateCount(current);
      err := historyManager.SaveStateForRedo(current);
      if err.Some? {
        return;
      }
      AllApartPush(stack, historyManager.redo[|stack|]);
      assert historyManager.redo == stack + [historyManager.redo[|stack|]];
      historyManager.DecrementBoardStateCount(state);
    }

    /**
     * The history part of restoreBoardState on redo: the live state's count
     * drops, the live state is saved for undo (which counts it again) and the
     * restored state's count rises. A failing deep copy throws before the save.
     */
    method RecordRedo(state: BoardState) returns (err: Option<Failure>)
      requires Separate()
      modifies historyManager
      ensures Separate()
      ensures old(historyManager.Valid()) ==> historyManager.Valid()
      ensures err.Some? <==> MapRights(boardManager.current.pieceMap.squares, boardManager.current.lastMove).Err?
      ensures err.Some? ==>
                historyManager.counts == Lowered(old(historyManager.counts), boardManager.current.Key()) &&
                historyManager.undo == old(historyManager.undo) && historyManager.redo == old(historyManager.redo)
      ensures err.None? ==>
                historyManager.counts == Bumped(Bumped(Lowered(old(historyManager.counts), boardManager.current.Key()),
                                                       boardManager.current.Key()), state.Key()) &&
                historyManager.redo == old(historyManager.redo) &&
                |historyManager.undo| == |old(historyManager.undo)| + 1 &&
                historyManager.undo[..|old(historyManager.undo)|] == old(historyManager.undo) &&
                Snap(historyManager.undo[|old(historyManager.undo)|]) == Snap(boardManager.current)
    {
      var current := boardManager.current;
      ghost var stack := historyManager.undo;
      historyManager.DecrementBoardStateCount(current);
      err := historyManager.SaveStateForUndo(current);
      if err.Some? {
        return;
      }
      AllApartPush(stack, historyManager.undo[|stack|]);
      assert historyManager.undo == stack + [historyManager.undo[|stack|]];
      historyManager.IncrementBoardStateCount(state);
    }

    /** The board part of restoreBoardState: the snapshot's pieces and fields, then setLastMove again. */
    method ApplySnapshot(state: BoardState)
      requires state != boardManager.current && state.pieceMap != boardManager.current.pieceMap
      modifies boardManager.current, boardManager.current.pieceMap
      ensures Snap(boardManager.current) == Restoration(Snap(state))
    {
      CopyPieces(state);
      boardManager.current.UpdateFrom(state);
      boardManager.SetLastMove(state.lastMove);
    }

    /** restoreBoardState: the bookkeeping, and when no copy failed, the snapshot becomes the live state. */
    method RestoreBoardState(state: BoardState, isUndo: bool) returns (err: Option<Failure>)
      requires state != boardManager.current && state.pieceMap != boardManager.current.pieceMap
      requires Separate()
      modifies historyManager, boardManager.current, boardManager.current.pieceMap
      ensures Separate()
      ensures old(historyManager.Valid()) ==> historyManager.Valid()
      ensures err.Some? <==> MapRights(old(boardManager.current.pieceMap.squares), old(boardManager.current.lastMove)).Err?
      ensures err.Some? ==>
                historyManager.counts == Lowered(old(historyManager.counts), old(boardManager.current.Key())) &&
                historyManager.undo == old(historyManager.undo) && historyManager.redo == old(historyManager.redo) &&
                Snap(boardManager.current) == old(Snap(boardManager.current))
      ensures err.None? ==> Snap(boardManager.current) == Restoration(old(Snap(state)))
      ensures err.None? && isUndo ==>
                historyManager.counts == Lowered(Lowered(old(historyManager.counts), old(boardManager.current.Key())), old(state.Key())) &&
                historyManager.undo == old(historyManager.undo) &&
                |historyManager.redo| == |old(historyManager.redo)| + 1 &&
                historyManager.redo[..|old(historyManager.redo)|] == old(historyManager.redo) &&
                Snap(historyManager.redo[|old(historyManager.redo)|]) == old(Snap(boardManager.current))
      ensures err.None? && !isUndo ==>
                historyManager.counts == Bumped(Bumped(Lowered(old(historyManager.counts), old(boardManager.current.Key())),
                                                       old(boardManager.current.Key())), old(state.Key())) &&
                historyManager.redo == old(historyManager.redo) &&
                |historyManager.undo| == |old(historyManager.undo)| + 1 &&
                historyManager.undo[..|old(historyManager.undo)|] == old(historyManager.undo) &&
                Snap(historyManager.undo[|old(historyManager.undo)|]) == old(Snap(boardManager.current))
    {
      if isUndo {
        err := RecordUndo(state);
      } else {
        err := RecordRedo(state);
      }
      if err.Some? {
        return;
      }
      ApplySnapshot(state);
    }

    /**
     * undoMove: nothing once the game has ended or with an empty undo
     * stack; otherwise the top snapshot is popped and restored. An
     * exception from the deep copy is not caught, after the pop.
     */
    method UndoMove(gameEnded: bool) returns (r: Result<bool>)
      requires Separate()
      modifies historyManager, boardManager.current, boardManager.current.pieceMap
      ensures Separate()
      ensures old(historyManager.Valid()) ==> historyManager.Valid()
      ensures gameEnded || old(historyManager.undo) == [] ==>
                r == Ok(false) && historyManager.counts == old(historyManager.counts) &&
                historyManager.undo == old(historyManager.undo) && historyManager.redo == old(historyManager.redo) &&
                Snap(boardManager.current) == old(Snap(boardManager.current))
      ensures !gameEnded && old(historyManager.undo) != [] ==>
                r != Ok(false) &&
                historyManager.undo == old(historyManager.undo[..|historyManager.undo| - 1]) &&
                (r.Err? <==> MapRights(old(boardManager.current.pieceMap.squares), old(boardManager.current.lastMove)).Err?)
      ensures r == Ok(true) ==>
                Snap(boardManager.current) == Restoration(old(Snap(historyManager.undo[|historyManager.undo| - 1]))) &&
                |historyManager.redo| == |old(historyManager.redo)| + 1 &&
                historyManager.redo[..|old(historyManager.redo)|] == old(historyManager.redo) &&
                Snap(historyManager.redo[|old(historyManager.redo)|]) == old(Snap(boardManager.current))
      ensures r == Ok(true) ==>
                historyManager.counts ==
                Lowered(Lowered(old(historyManager.counts), old(boardManager.current.Key())),
                        old(historyManager.undo[|historyManager.undo| - 1].Key()))
      ensures r.Err? ==>
                historyManager.counts == Lowered(old(historyManager.counts), old(boardManager.current.Key())) &&
                historyManager.redo == old(historyManager.redo) &&
                Snap(boardManager.current) == old(Snap(boardManager.current))
    {
      if gameEnded || historyManager.undo == [] {
        return Ok(false);
      }
      var previousState := historyManager.undo[|historyManager.undo| - 1];
      historyManager.undo := historyManager.undo[..|historyManager.undo| - 1];
      var err := RestoreBoardState(previousState, true);
      if err.Some? {
        return Err(err.value);
      }
      r := Ok(true);
    }

    /**
     * redoMove: nothing once the game has ended or with an empty redo
     * stack; otherwise the top snapshot is popped and restored. A failure
     * is caught, after the pop, and reported as no redo.
     */
    method RedoMove(gameEnded: bool) returns (redone: bool)
      requires Separate()
      modifies historyManager, boardManager.current, boardManager.current.pieceMap
      ensures Separate()
      ensures old(historyManager.Valid()) ==> historyManager.Valid()
      ensures gameEnded || old(historyManager.redo) == [] ==>
                !redone && historyManager.counts == old(historyManager.counts) &&
                historyManager.undo == old(historyManager.undo) && historyManager.redo == old(historyManager.redo) &&
                Snap(boardManager.current) == old(Snap(boardManager.current))
      ensures !gameEnded && old(historyManager.redo) != [] ==>
                historyManager.redo == old(historyManager.redo[..|historyManager.redo| - 1]) &&
                (redone <==> MapRights(old(boardManager.current.pieceMap.squares), old(boardManager.current.lastMove)).Ok?)
      ensures redone ==>
                Snap(boardManager.current) == Restoration(old(Snap(historyManager.redo[|historyManager.redo| - 1]))) &&
                |historyManager.undo| == |old(historyManager.undo)| + 1 &&
                historyManager.undo[..|old(historyManager.undo)|] == old(historyManager.undo) &&
                Snap(historyManager.undo[|old(historyManager.undo)|]) == old(Snap(boardManager.current))
      ensures redone ==>
                historyManager.counts ==
                Bumped(Bumped(Lowered(old(historyManager.counts), old(boardManager.current.Key())),
                              old(boardManager.current.Key())),
                       old(historyManager.redo[|historyManager.redo| - 1].Key()))
      ensures !gameEnded && old(historyManager.redo) != [] && !redone ==>
                historyManager.counts == Lowered(old(historyManager.counts), old(boardManager.current.Key())) &&
                historyManager.undo == old(historyManager.undo) &&
                Snap(boardManager.current) == old(Snap(boardManager.current))
    {
      if gameEnded || historyManager.redo == [] {
        return false;
      }
      var nextState := historyManager.redo[|historyManager.redo| - 1];
      historyManager.redo := historyManager.redo[..|historyManager.redo| - 1];
      var err := RestoreBoardState(nextState, false);
      redone := err.None?;
    }

    /** resignGame: nothing once the game has ended; otherwise the side to move resigns and its opponent wins. */
    method ResignGame(gameEnded: bool) returns (winner: Option<Color>)
      ensures winner.Some? <==> !gameEnded
      ensures winner.Some? ==> winner.value == Opponent(boardManager.current.player)
    {
      if gameEnded {
        return None;
      }
      var currentPlayerColor := boardManager.current.player;
      winner := Some(if IsWhite(currentPlayerColor) then Black else White);
    }
  }
}
