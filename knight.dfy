/** Knight: jumps to the eight (±1, ±2) and (±2, ±1) offsets. */
module Knights {
  import opened Colors
  import opened Positions
  import opened Moves
  import opened Pieces
  import opened PieceMaps
  import opened Movement

  /** The offset table, in the generator's order. */
  const KnightOffsets: seq<Vec> :=
    [Vec(1, 2), Vec(1, -2), Vec(-1, 2), Vec(-1, -2), Vec(2, 1), Vec(2, -1), Vec(-2, 1), Vec(-2, -1)]

  /** generateValidMoves for a knight of p's colour on s. */
  function KnightMoves(b: Board, s: Position, p: Piece): seq<Move>
  {
    Leaps(b, s, p.color, KnightOffsets)
  }

  /** q is a knight's jump away from s. */
  predicate KnightJump(s: Position, q: Position)
  {
    var dc, dr := Abs(q.col - s.col), Abs(q.row - s.row);
    (dc == 1 && dr == 2) || (dc == 2 && dr == 1)
  }

  /** The knight goes to exactly the jump squares that are empty or hold an enemy, and to at most eight. */
  lemma KnightMovesExact(b: Board, s: Position, p: Piece, m: Move)
    ensures m in KnightMoves(b, s, p) <==> m.start == s && KnightJump(s, m.end) && Enterable(b, m.end, p.color)
    ensures |KnightMoves(b, s, p)| <= 8
  {
    LeapsExact(b, s, p.color, KnightOffsets, m);
    if m.start == s && KnightJump(s, m.end) {
      var dc, dr := m.end.col - s.col, m.end.row - s.row;
      var i :=
        if dc == 1 && dr == 2 then 0 else if dc == 1 && dr == -2 then 1
        else if dc == -1 && dr == 2 then 2 else if dc == -1 && dr == -2 then 3
        else if dc == 2 && dr == 1 then 4 else if dc == 2 && dr == -1 then 5
        else if dc == -2 && dr == 1 then 6 else 7;
      assert m.end == Offset(s, KnightOffsets[i]);
    }
  }

  /** From b1 on an empty board the knight reaches c3, a3 and d2, in that order. */
  lemma KnightFromB1()
    ensures KnightMoves(map[], Pos(1, 0), Piece(Knight, White, false))
         == [Move(Pos(1, 0), Pos(2, 2)), Move(Pos(1, 0), Pos(0, 2)), Move(Pos(1, 0), Pos(3, 1))]
  {
    var offs := KnightOffsets;
    var b: Board := map[];
    var s: Position := Pos(1, 0);
    assert offs[..1][..0] == [];
    assert Leaps(b, s, White, offs[..1]) == [Move(s, Pos(2, 2))];
    assert offs[..2][..1] == offs[..1];
    assert Leaps(b, s, White, offs[..2]) == [Move(s, Pos(2, 2))];
    assert offs[..3][..2] == offs[..2];
    assert Leaps(b, s, White, offs[..3]) == [Move(s, Pos(2, 2)), Move(s, Pos(0, 2))];
    assert offs[..4][..3] == offs[..3];
    assert Leaps(b, s, White, offs[..4]) == [Move(s, Pos(2, 2)), Move(s, Pos(0, 2))];
    assert offs[..5][..4] == offs[..4];
    assert Leaps(b, s, White, offs[..5]) == [Move(s, Pos(2, 2)), Move(s, Pos(0, 2)), Move(s, Pos(3, 1))];
    assert offs[..6][..5] == offs[..5];
    assert Leaps(b, s, White, offs[..6]) == [Move(s, Pos(2, 2)), Move(s, Pos(0, 2)), Move(s, Pos(3, 1))];
    assert offs[..7][..6] == offs[..6];
    assert Leaps(b, s, White, offs[..7]) == [Move(s, Pos(2, 2)), Move(s, Pos(0, 2)), Move(s, Pos(3, 1))];
    assert offs[..8][..7] == offs[..7];
    assert Leaps(b, s, White, offs[..8]) == [Move(s, Pos(2, 2)), Move(s, Pos(0, 2)), Move(s, Pos(3, 1))];
    assert offs[..8] == offs;
  }

  method GenerateKnightMoves(pm: ChessPieceMap, s: Position, p: Piece) returns (moves: seq<Move>)
    ensures moves == KnightMoves(pm.squares, s, p)
  {
    moves := LeapAll(pm, s, p.color, KnightOffsets);
  }
}
