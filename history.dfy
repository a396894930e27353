/**
 * GameHistoryManager: the undo and redo stacks of board-state snapshots
 * and a second table of occurrence counts, keyed by the states' equality,
 * that is by their four-field FEN.
 */
module GameHistories {
  import opened Wrappers
  import opened Colors
  import opened Positions
  import opened Moves
  import opened PieceMaps
  import opened Fen
  import opened JavaInts
  import opened BoardStates

  /** Everything a board state holds, as one value. */
  datatype Snapshot = Snapshot(squares: Board, lastMove: Option<Move>, player: Color,
                               halfmoveClock: Int32, fullmoveNumber: Int32,
                               enPassant: Option<Position>, rights: Rights)

  function Snap(s: BoardState): Snapshot
    reads s, s.pieceMap
  {
    Snapshot(s.pieceMap.squares, s.lastMove, s.player, s.halfmoveClock, s.fullmoveNumber, s.enPassant, s.rights)
  }

  /** The key of a snapshot is the key of the state it was taken from. */
  function SnapKey(s: Snapshot): string
  {
    FenFour(s.squares, s.player, s.rights, s.enPassant)
  }

  lemma SnapKeyIsKey(s: BoardState)
    ensures SnapKey(Snap(s)) == s.Key()
  {
  }

  /** The stored count of k, 0 when k is absent (getOrDefault(k, 0)). */
  function Count(m: map<string, int>, k: string): int
  {
    if k in m then m[k] else 0
  }

  /** No entry holds zero or a negative count. */
  predicate Positive(m: map<string, int>)
  {
    forall k :: k in m ==> m[k] >= 1
  }

  /** merge(k, 1, Integer::sum). */
  function Bumped(m: map<string, int>, k: string): (r: map<string, int>)
    ensures Positive(m) ==> Positive(r)
    ensures Count(r, k) == Count(m, k) + 1
    ensures forall j :: j != k ==> Count(r, j) == Count(m, j)
  {
    m[k := Count(m, k) + 1]
  }

  /** computeIfPresent(k, v > 1 ? v - 1 : null): a count of 1 drops the entry, an absent key stays absent. */
  function Lowered(m: map<string, int>, k: string): (r: map<string, int>)
    ensures Positive(m) ==> Positive(r)
    ensures Positive(m) ==> (k in r <==> Count(m, k) > 1)
    ensures Positive(m) ==> Count(r, k) == if Count(m, k) > 0 then Count(m, k) - 1 else 0
    ensures forall j :: j != k ==> Count(r, j) == Count(m, j) && (j in r <==> j in m)
  {
    if k in m then (if m[k] > 1 then m[k := m[k] - 1] else m - {k}) else m
  }

  /** Lowering undoes bumping. */
  lemma LoweredUndoesBumped(m: map<string, int>, k: string)
    requires Positive(m)
    ensures Lowered(Bumped(m, k), k) == m
  {
    if k !in m {
      assert Bumped(m, k) - {k} == m;
    }
  }

  /** The count table abstracts to a multiset of keys: bumping adds one occurrence, lowering removes one if there is any. */
  ghost predicate Tallies(m: map<string, int>, occurrences: multiset<string>)
  {
    Positive(m) && forall k :: Count(m, k) == occurrences[k]
  }

  lemma {:induction false} TalliesStep(m: map<string, int>, occurrences: multiset<string>, k: string)
    requires Tallies(m, occurrences)
    ensures Tallies(Bumped(m, k), occurrences + multiset{k})
    ensures Tallies(Lowered(m, k), occurrences - multiset{k})
  {
    forall j
      ensures Count(Bumped(m, k), j) == (occurrences + multiset{k})[j]
      ensures Count(Lowered(m, k), j) == (occurrences - multiset{k})[j]
    {
      assert Count(m, j) == occurrences[j];
    }
  }

  class GameHistoryManager {
    var counts: map<string, int>
    var undo: seq<BoardState>
    var redo: seq<BoardState>

    predicate Valid()
      reads this
    {
      Positive(counts)
    }

    constructor ()
      ensures counts == map[] && undo == [] && redo == []
      ensures Valid()
    {
      counts := map[];
      undo := [];
      redo := [];
    }

    /**
     * saveStateForUndo: a null state is ignored; otherwise a deep copy is
     * pushed onto the undo stack and counted once more. A copy that fails
     * (a map the map constructor rejects, see MapRightsFails) throws before
     * anything changes.
     */
    method SaveStateForUndo(state: BoardState?) returns (err: Option<Failure>)
      modifies this
      ensures old(Valid()) ==> Valid()
      ensures err.Some? <==> state != null && MapRights(state.pieceMap.squares, state.lastMove).Err?
      ensures state == null || err.Some? ==> counts == old(counts) && undo == old(undo) && redo == old(redo)
      ensures state != null && err.None? ==>
                |undo| == |old(undo)| + 1 && undo[..|old(undo)|] == old(undo) &&
                fresh(undo[|old(undo)|]) && fresh(undo[|old(undo)|].pieceMap) &&
                Snap(undo[|old(undo)|]) == Snap(state) &&
                counts == Bumped(old(counts), state.Key()) && redo == old(redo)
    {
      if state == null {
        return None;
      }
      var made := state.DeepCopy();
      if made.Err? {
        return Some(made.error);
      }
      var stateCopy := made.value;
      undo := undo + [stateCopy];
      IncrementBoardStateCount(stateCopy);
      err := None;
    }

    /** saveStateForRedo: the same push onto the redo stack, with no change to the counts. */
    method SaveStateForRedo(state: BoardState?) returns (err: Option<Failure>)
      modifies this
      ensures err.Some? <==> state != null && MapRights(state.pieceMap.squares, state.lastMove).Err?
      ensures counts == old(counts) && undo == old(undo)
      ensures state == null || err.Some? ==> redo == old(redo)
      ensures state != null && err.None? ==>
                |redo| == |old(redo)| + 1 && redo[..|old(redo)|] == old(redo) &&
                fresh(redo[|old(redo)|]) && fresh(redo[|old(redo)|].pieceMap) &&
                Snap(redo[|old(redo)|]) == Snap(state)
    {
      if state == null {
        return None;
      }
      var made := state.DeepCopy();
      if made.Err? {
        return Some(made.error);
      }
      redo := redo + [made.value];
      err := None;
    }

    method ClearRedoStack()
      modifies this
      ensures redo == [] && undo == old(undo) && counts == old(counts)
    {
      redo := [];
    }

    method IncrementBoardStateCount(state: BoardState?)
      modifies this
      ensures old(Valid()) ==> Valid()
      ensures counts == if state == null then old(counts) else Bumped(old(counts), state.Key())
      ensures undo == old(undo) && redo == old(redo)
    {
      if state == null {
        return;
      }
      var key := state.Key();
      counts := counts[key := if key in counts then counts[key] + 1 else 1];
    }

    method DecrementBoardStateCount(state: BoardState?)
      modifies this
      ensures old(Valid()) ==> Valid()
      ensures counts == if state == null then old(counts) else Lowered(old(counts), state.Key())
      ensures undo == old(undo) && redo == old(redo)
    {
      if state == null {
        return;
      }
      var key := state.Key();
      if key in counts {
        var v := counts[key];
        if v > 1 {
          counts := counts[key := v - 1];
        } else {
          counts := counts - {key};
        }
      }
    }
  }
}
