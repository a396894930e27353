/**
 * The board's occupancy (ChessPieceMap): a map from squares to pieces, with
 * king search and material count. Java iterates its HashMap in hash order;
 * the model scans the 64 squares a1, a2, .., a8, b1, .., h8 instead.
 */
module PieceMaps {
  import opened Wrappers
  import opened Colors
  import opened Positions
  import opened Pieces
  import opened JavaInts

  type Board = map<Position, Piece>

  /** getPiece: the piece on a square, None where Java returns null. */
  function Get(b: Board, p: Position): (r: Option<Piece>)
    ensures r.Some? <==> p in b
    ensures r.Some? ==> r.value == b[p]
  {
    if p in b then Some(b[p]) else None
  }

  /** The square visited i-th by the scan. */
  function SquareAt(i: int): Position
    requires 0 <= i < 64
  {
    Pos(i / 8, i % 8)
  }

  function IndexOf(p: Position): int
  {
    8 * p.col + p.row
  }

  lemma ScanCoversBoard(p: Position)
    ensures 0 <= IndexOf(p) < 64 && SquareAt(IndexOf(p)) == p
  {
  }

  predicate IsKingOf(b: Board, p: Position, c: Color)
  {
    p in b && b[p].kind == King && b[p].color == c
  }

  /** The first king of colour c at scan index i or later. */
  function KingScan(b: Board, c: Color, i: nat): (r: Option<Position>)
    requires i <= 64
    ensures r.Some? ==> IsKingOf(b, r.value, c)
    decreases 64 - i
  {
    if i == 64 then None
    else if IsKingOf(b, SquareAt(i), c) then Some(SquareAt(i))
    else KingScan(b, c, i + 1)
  }

  lemma {:induction false} KingScanExact(b: Board, c: Color, i: nat)
    requires i <= 64
    ensures KingScan(b, c, i).Some? ==> i <= IndexOf(KingScan(b, c, i).value) < 64
    ensures KingScan(b, c, i).Some? ==> forall j :: i <= j < IndexOf(KingScan(b, c, i).value) ==> !IsKingOf(b, SquareAt(j), c)
    ensures KingScan(b, c, i).None? ==> forall j :: i <= j < 64 ==> !IsKingOf(b, SquareAt(j), c)
    decreases 64 - i
  {
    if i < 64 && !IsKingOf(b, SquareAt(i), c) {
      KingScanExact(b, c, i + 1);
    }
  }

  /** getKingPosition: a square holding a king of colour c, None when there is none. */
  function KingPosition(b: Board, c: Color): (r: Option<Position>)
    ensures r.Some? ==> IsKingOf(b, r.value, c)
  {
    KingScan(b, c, 0)
  }

  /** The scan finds nothing exactly when there is no king of colour c, and otherwise the first one. */
  lemma KingPositionExact(b: Board, c: Color)
    ensures KingPosition(b, c).None? <==> forall p: Position :: !IsKingOf(b, p, c)
    ensures KingPosition(b, c).Some? ==>
            forall p: Position :: IsKingOf(b, p, c) ==> IndexOf(KingPosition(b, c).value) <= IndexOf(p)
  {
    var r := KingScan(b, c, 0);
    KingScanExact(b, c, 0);
    forall p: Position | IsKingOf(b, p, c)
      ensures r.Some? && IndexOf(r.value) <= IndexOf(p)
    {
      ScanCoversBoard(p);
      assert IsKingOf(b, SquareAt(IndexOf(p)), c);
    }
  }

  /** With exactly one king of a colour, that king is the one found. */
  lemma KingPositionOfUniqueKing(b: Board, c: Color, k: Position)
    requires IsKingOf(b, k, c)
    requires forall p: Position :: IsKingOf(b, p, c) ==> p == k
    ensures KingPosition(b, c) == Some(k)
  {
    KingPositionExact(b, c);
  }

  /** getKing: the same scan as getKingPosition, returning the piece. */
  function KingPiece(b: Board, c: Color): (r: Option<Piece>)
    ensures r.Some? <==> KingPosition(b, c).Some?
    ensures r.Some? ==> r.value == b[KingPosition(b, c).value]
    ensures r.Some? ==> r.value.kind == King && r.value.color == c
  {
    match KingPosition(b, c)
    case None => None
    case Some(p) => Some(b[p])
  }

  /** The value of the piece on scan square i when it has colour c, else 0. */
  function ValueOn(b: Board, c: Color, i: int): int
    requires 0 <= i < 64
  {
    var p := SquareAt(i);
    if p in b && b[p].color == c then Value(b[p].kind) else 0
  }

  /** The exact sum of c's piece values over scan squares i..63. */
  function Material(b: Board, c: Color, i: nat): int
    requires i <= 64
    decreases 64 - i
  {
    if i == 64 then 0 else ValueOn(b, c, i) + Material(b, c, i + 1)
  }

  /** One square of the material scan, with a wrapping accumulator. */
  lemma MaterialStep(b: Board, c: Color, i: nat, acc: int)
    requires i < 64 && acc == Wrap32(Material(b, c, i + 1))
    ensures Wrap32(acc + ValueOn(b, c, i)) == Wrap32(Material(b, c, i))
    ensures ValueOn(b, c, i) == 0 ==> acc == Wrap32(Material(b, c, i))
  {
    Wrap32Add(Material(b, c, i + 1), ValueOn(b, c, i));
  }

  /**
   * getMaterialAdvantage: White's total minus Black's. Both int
   * accumulators overflow (a king is worth Integer.MAX_VALUE), so the result
   * is the exact difference wrapped to 32 bits.
   */
  function MaterialAdvantage(b: Board): Int32
  {
    Wrap32(Material(b, White, 0) - Material(b, Black, 0))
  }

  /** The number of kings of colour c on scan squares i..63. */
  function KingCount(b: Board, c: Color, i: nat): nat
    requires i <= 64
    decreases 64 - i
  {
    if i == 64 then 0
    else (if IsKingOf(b, SquareAt(i), c) then 1 else 0) + KingCount(b, c, i + 1)
  }

  /** The sum of c's non-king piece values over scan squares i..63. */
  function MinorMaterial(b: Board, c: Color, i: nat): int
    requires i <= 64
    decreases 64 - i
  {
    if i == 64 then 0
    else
      var p := SquareAt(i);
      (if p in b && b[p].color == c && b[p].kind != King then Value(b[p].kind) else 0)
      + MinorMaterial(b, c, i + 1)
  }

  lemma {:induction false} MaterialSplits(b: Board, c: Color, i: nat)
    requires i <= 64
    ensures Material(b, c, i) == MinorMaterial(b, c, i) + IntMax * KingCount(b, c, i)
    ensures 0 <= MinorMaterial(b, c, i) <= 9 * (64 - i)
    decreases 64 - i
  {
    if i < 64 {
      MaterialSplits(b, c, i + 1);
    }
  }

  /**
   * When both sides have as many kings, the kings' Integer.MAX_VALUE
   * cancels despite the overflow, and the advantage is the exact difference
   * of the other pieces' values.
   */
  lemma MaterialKingsCancel(b: Board)
    requires KingCount(b, White, 0) == KingCount(b, Black, 0)
    ensures MaterialAdvantage(b) == MinorMaterial(b, White, 0) - MinorMaterial(b, Black, 0)
  {
    MaterialSplits(b, White, 0);
    MaterialSplits(b, Black, 0);
  }

  class ChessPieceMap {
    var squares: Board

    constructor ()
      ensures squares == map[]
    {
      squares := map[];
    }

    method GetPiece(p: Position) returns (r: Option<Piece>)
      ensures r == Get(squares, p)
    {
      if p in squares {
        r := Some(squares[p]);
      } else {
        r := None;
      }
    }

    /** getPiece(String): the notation must name a square, else IllegalArgumentException. */
    method GetPieceByNotation(notation: string) returns (r: Result<Option<Piece>>)
      ensures FromNotation(notation).Err? <==> r.Err?
      ensures r.Err? ==> r.error == IllegalArgument
      ensures r.Ok? ==> r.value == Get(squares, FromNotation(notation).value)
    {
      var p := FromNotation(notation);
      if p.Err? {
        return Err(p.error);
      }
      var x := GetPiece(p.value);
      r := Ok(x);
    }

    method SetPiece(p: Position, x: Piece)
      modifies this
      ensures squares == old(squares)[p := x]
    {
      squares := squares[p := x];
    }

    method RemovePiece(p: Position)
      modifies this
      ensures squares == old(squares) - {p}
    {
      squares := squares - {p};
    }

    method HasPiece(p: Position) returns (r: bool)
      ensures r <==> p in squares
    {
      r := p in squares;
    }

    method GetKingPosition(c: Color) returns (r: Option<Position>)
      ensures r == KingPosition(squares, c)
    {
      var i := 0;
      while i < 64
        invariant 0 <= i <= 64
        invariant KingScan(squares, c, i) == KingScan(squares, c, 0)
      {
        var p := SquareAt(i);
        if p in squares && squares[p].kind == King && squares[p].color == c {
          return Some(p);
        }
        i := i + 1;
      }
      r := None;
    }

    method GetKing(c: Color) returns (r: Option<Piece>)
      ensures r == KingPiece(squares, c)
    {
      var i := 0;
      while i < 64
        invariant 0 <= i <= 64
        invariant KingScan(squares, c, i) == KingScan(squares, c, 0)
      {
        var p := SquareAt(i);
        if p in squares && squares[p].kind == King && squares[p].color == c {
          return Some(squares[p]);
        }
        i := i + 1;
      }
      r := None;
    }

    method GetMaterialAdvantage() returns (r: Int32)
      ensures r == MaterialAdvantage(squares)
    {
      var white: Int32 := 0;
      var black: Int32 := 0;
      var i := 64;
      while i > 0
        invariant 0 <= i <= 64
        invariant white == Wrap32(Material(squares, White, i))
        invariant black == Wrap32(Material(squares, Black, i))
      {
        i := i - 1;
        MaterialStep(squares, White, i, white);
        MaterialStep(squares, Black, i, black);
        var p := SquareAt(i);
        if p in squares {
          var v := Value(squares[p].kind);
          if squares[p].color == White {
            white := Wrap32(white + v);
          } else {
            black := Wrap32(black + v);
          }
        }
      }
      Wrap32Sub(Material(squares, White, 0), Material(squares, Black, 0));
      r := Wrap32(white - black);
    }

    method Clear()
      modifies this
      ensures squares == map[]
    {
      squares := map[];
    }

    /** deepCopy: a fresh map with the same entries. */
    method DeepCopy() returns (copy: ChessPieceMap)
      ensures fresh(copy)
      ensures copy.squares == squares
    {
      copy := new ChessPieceMap();
      var todo := squares.Keys;
      while todo != {}
        invariant todo <= squares.Keys
        invariant copy.squares == map p | p in squares.Keys - todo :: squares[p]
        decreases todo
      {
        var p :| p in todo;
        copy.SetPiece(p, squares[p]);
        todo := todo - {p};
      }
    }
  }
}
