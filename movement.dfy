/**
 * The two move patterns the piece generators share: sliding along a ray
 * until a piece blocks it (Bishop, Rook, Queen) and jumping by fixed
 * offsets (Knight, and the King's one-square steps).
 */
module Movement {
  import opened Colors
  import opened Positions
  import opened Moves
  import opened Pieces
  import opened PieceMaps

  function Abs(x: int): nat
  {
    if x < 0 then -x else x
  }

  /** A column and row offset, as in the generators' int[][] tables. */
  datatype Vec = Vec(dc: int, dr: int)

  /** A direction one square long in each moving coordinate. */
  predicate IsUnit(d: Vec)
  {
    -1 <= d.dc <= 1 && -1 <= d.dr <= 1 && (d.dc != 0 || d.dr != 0)
  }

  predicate AllUnit(dirs: seq<Vec>)
  {
    forall i :: 0 <= i < |dirs| ==> IsUnit(dirs[i])
  }

  /** x moved j steps in direction sign d. */
  function Shift(x: int, d: int, j: int): int
  {
    if d > 0 then x + j else if d < 0 then x - j else x
  }

  /** The square j steps from s along d. */
  function Ray(s: Position, d: Vec, j: int): Pos
  {
    Pos(Shift(s.col, d.dc, j), Shift(s.row, d.dr, j))
  }

  /** The square s + o. */
  function Offset(s: Position, o: Vec): Pos
  {
    Pos(s.col + o.dc, s.row + o.dr)
  }

  /** A piece of colour c may land on q: q is empty or holds an enemy piece. */
  predicate Enterable(b: Board, q: Position, c: Color)
  {
    q !in b || b[q].color != c
  }

  /**
   * The inner while loop of the sliders: step j onwards along d, stopping
   * at the edge, after an enemy piece, or before a piece of one's own.
   */
  function Walk(b: Board, s: Position, c: Color, d: Vec, j: int): seq<Move>
    requires IsUnit(d) && 1 <= j
    decreases 8 - j
  {
    var q := Ray(s, d, j);
    if !IsWithinBoard(q.col, q.row) then []
    else if q !in b then [Move(s, q)] + Walk(b, s, c, d, j + 1)
    else if b[q].color != c then [Move(s, q)]
    else []
  }

  /** All squares strictly before step k along d, from step j on, are empty. */
  ghost predicate ClearFrom(b: Board, s: Position, d: Vec, j: int, k: int)
  {
    forall i :: j <= i < k ==> Ray(s, d, i) !in b
  }

  /** A slider of colour c at s reaches q along d: q is on the ray, the way there is empty, and q is enterable. */
  ghost predicate SlideTarget(b: Board, s: Position, c: Color, d: Vec, q: Position)
  {
    exists k :: 1 <= k && q == Ray(s, d, k) && ClearFrom(b, s, d, 1, k) && Enterable(b, q, c)
  }

  /** Every square of the ray between s and an on-board step k is on the board. */
  lemma RayConvex(s: Position, d: Vec, i: int, k: int)
    requires IsUnit(d) && 0 <= i <= k
    requires IsWithinBoard(Ray(s, d, k).col, Ray(s, d, k).row)
    ensures IsWithinBoard(Ray(s, d, i).col, Ray(s, d, i).row)
  {
  }

  lemma RayInjective(s: Position, d: Vec, i: int, k: int)
    requires IsUnit(d) && Ray(s, d, i) == Ray(s, d, k)
    ensures i == k
  {
  }

  lemma {:induction false} WalkSound(b: Board, s: Position, c: Color, d: Vec, j: int, m: Move)
    requires IsUnit(d) && 1 <= j
    requires m in Walk(b, s, c, d, j)
    ensures m.start == s
    ensures exists k :: j <= k && m.end == Ray(s, d, k) && ClearFrom(b, s, d, j, k) && Enterable(b, m.end, c)
    decreases 8 - j
  {
    var q := Ray(s, d, j);
    assert IsWithinBoard(q.col, q.row);
    if m == Move(s, q) {
      assert ClearFrom(b, s, d, j, j);
    } else {
      assert q !in b;
      WalkSound(b, s, c, d, j + 1, m);
      var k :| j + 1 <= k && m.end == Ray(s, d, k) && ClearFrom(b, s, d, j + 1, k) && Enterable(b, m.end, c);
      assert ClearFrom(b, s, d, j, k);
    }
  }

  lemma {:induction false} WalkComplete(b: Board, s: Position, c: Color, d: Vec, j: int, k: int)
    requires IsUnit(d) && 1 <= j <= k
    requires IsWithinBoard(Ray(s, d, k).col, Ray(s, d, k).row)
    requires ClearFrom(b, s, d, j, k) && Enterable(b, Ray(s, d, k), c)
    ensures Move(s, Ray(s, d, k)) in Walk(b, s, c, d, j)
    decreases k - j
  {
    RayConvex(s, d, j, k);
    if j < k {
      assert Ray(s, d, j) !in b;
      WalkComplete(b, s, c, d, j + 1, k);
    }
  }

  /** The moves of one ray are exactly the slide targets along it. */
  lemma WalkExact(b: Board, s: Position, c: Color, d: Vec, m: Move)
    requires IsUnit(d)
    ensures m in Walk(b, s, c, d, 1) <==> m.start == s && SlideTarget(b, s, c, d, m.end)
  {
    if m in Walk(b, s, c, d, 1) {
      WalkSound(b, s, c, d, 1, m);
    }
    if m.start == s && SlideTarget(b, s, c, d, m.end) {
      var k :| 1 <= k && m.end == Ray(s, d, k) && ClearFrom(b, s, d, 1, k) && Enterable(b, m.end, c);
      WalkComplete(b, s, c, d, 1, k);
    }
  }

  /** How many steps along d stay on the board along one coordinate. */
  function AxisReach(x: int, d: int): int
  {
    if d > 0 then 7 - x else if d < 0 then x else 7
  }

  /** How many steps from s along d stay on the board. */
  function Reach(s: Position, d: Vec): int
  {
    var a, r := AxisReach(s.col, d.dc), AxisReach(s.row, d.dr);
    if a < r then a else r
  }

  lemma {:induction false} WalkOnEmptyBoard(s: Position, c: Color, d: Vec, j: int)
    requires IsUnit(d) && 1 <= j <= Reach(s, d) + 1
    ensures |Walk(map[], s, c, d, j)| == Reach(s, d) - j + 1
    decreases 8 - j
  {
    if j <= Reach(s, d) {
      WalkOnEmptyBoard(s, c, d, j + 1);
    }
  }

  /** Along a diagonal both coordinates move by the step count, so the square colour is kept. */
  lemma DiagonalRay(s: Position, d: Vec, k: int)
    requires IsUnit(d) && d.dc != 0 && d.dr != 0 && 1 <= k
    ensures Abs(Ray(s, d, k).col - s.col) == k == Abs(Ray(s, d, k).row - s.row)
    ensures (Ray(s, d, k).col + Ray(s, d, k).row) % 2 == (s.col + s.row) % 2
  {
    var q := Ray(s, d, k);
    if d.dc == d.dr {
      assert q.col + q.row == s.col + s.row + 2 * (d.dc * k);
      EvenShift(s.col + s.row, d.dc * k);
    } else {
      assert q.col + q.row == s.col + s.row;
    }
  }

  /** q is on a diagonal through s, other than s itself, so it has the same square colour. */
  predicate DiagonalFrom(s: Position, q: Position)
  {
    Abs(q.col - s.col) == Abs(q.row - s.row) > 0 && (q.col + q.row) % 2 == (s.col + s.row) % 2
  }

  /** A walk along a diagonal direction stays on that diagonal. */
  lemma WalkDiagonal(b: Board, s: Position, c: Color, d: Vec, m: Move)
    requires IsUnit(d) && d.dc != 0 && d.dr != 0 && m in Walk(b, s, c, d, 1)
    ensures DiagonalFrom(s, m.end)
  {
    WalkExact(b, s, c, d, m);
    TargetDiagonal(b, s, c, d, m.end);
  }

  lemma TargetDiagonal(b: Board, s: Position, c: Color, d: Vec, q: Position)
    requires IsUnit(d) && d.dc != 0 && d.dr != 0 && SlideTarget(b, s, c, d, q)
    ensures DiagonalFrom(s, q)
  {
    var k :| 1 <= k && q == Ray(s, d, k) && ClearFrom(b, s, d, 1, k) && Enterable(b, q, c);
    DiagonalRay(s, d, k);
  }

  /** Every move of a slide along diagonal directions is diagonal and keeps the square colour. */
  lemma SlideDiagonal(b: Board, s: Position, c: Color, dirs: seq<Vec>, m: Move)
    requires AllUnit(dirs) && (forall i :: 0 <= i < |dirs| ==> dirs[i].dc != 0 && dirs[i].dr != 0)
    requires m in Slide(b, s, c, dirs)
    ensures DiagonalFrom(s, m.end)
  {
    SlideSound(b, s, c, dirs, m);
    var i :| 0 <= i < |dirs| && m in Walk(b, s, c, dirs[i], 1);
    WalkDiagonal(b, s, c, dirs[i], m);
  }

  lemma EvenShift(x: int, t: int)
    ensures (x + 2 * t) % 2 == x % 2
  {
  }

  /** Along a row or a column exactly one coordinate moves. */
  lemma StraightRay(s: Position, d: Vec, k: int)
    requires IsUnit(d) && (d.dc == 0 || d.dr == 0) && 1 <= k
    ensures (Ray(s, d, k).col == s.col) != (Ray(s, d, k).row == s.row)
  {
  }

  /** The outer loop of the sliders: the rays of dirs, one after another. */
  function Slide(b: Board, s: Position, c: Color, dirs: seq<Vec>): seq<Move>
    requires AllUnit(dirs)
    decreases |dirs|
  {
    if |dirs| == 0 then []
    else Slide(b, s, c, dirs[..|dirs| - 1]) + Walk(b, s, c, dirs[|dirs| - 1], 1)
  }

  lemma PrefixAllUnit(dirs: seq<Vec>, i: int)
    requires AllUnit(dirs) && 0 <= i < |dirs| - 1
    ensures AllUnit(dirs[..|dirs| - 1]) && dirs[..|dirs| - 1][i] == dirs[i]
  {
  }

  /** A move of the last direction's walk is a slide move. */
  lemma SlideHasLast(b: Board, s: Position, c: Color, dirs: seq<Vec>, m: Move)
    requires AllUnit(dirs) && 0 < |dirs| && m in Walk(b, s, c, dirs[|dirs| - 1], 1)
    ensures m in Slide(b, s, c, dirs)
  {
  }

  /** A slide move of the other directions is a slide move. */
  lemma SlideKeepsPrefix(b: Board, s: Position, c: Color, dirs: seq<Vec>, m: Move)
    requires AllUnit(dirs) && 0 < |dirs| && AllUnit(dirs[..|dirs| - 1]) && m in Slide(b, s, c, dirs[..|dirs| - 1])
    ensures m in Slide(b, s, c, dirs)
  {
  }

  /** A slide move is in the others' slide or in the last direction's walk. */
  lemma SlideSplits(b: Board, s: Position, c: Color, dirs: seq<Vec>, m: Move)
    requires AllUnit(dirs) && 0 < |dirs| && m in Slide(b, s, c, dirs)
    ensures AllUnit(dirs[..|dirs| - 1])
    ensures m in Slide(b, s, c, dirs[..|dirs| - 1]) || m in Walk(b, s, c, dirs[|dirs| - 1], 1)
  {
  }

  lemma {:induction false} SlideSound(b: Board, s: Position, c: Color, dirs: seq<Vec>, m: Move)
    requires AllUnit(dirs) && m in Slide(b, s, c, dirs)
    ensures exists i :: 0 <= i < |dirs| && m in Walk(b, s, c, dirs[i], 1)
    decreases |dirs|
  {
    var n := |dirs| - 1;
    var pre := dirs[..n];
    SlideSplits(b, s, c, dirs, m);
    if m in Slide(b, s, c, pre) {
      SlideSound(b, s, c, pre, m);
      var i :| 0 <= i < n && m in Walk(b, s, c, pre[i], 1);
      PrefixAllUnit(dirs, i);
      assert m in Walk(b, s, c, dirs[i], 1);
    } else {
      assert m in Walk(b, s, c, dirs[n], 1);
    }
  }

  lemma {:induction false} SlideComplete(b: Board, s: Position, c: Color, dirs: seq<Vec>, i: int, m: Move)
    requires AllUnit(dirs) && 0 <= i < |dirs| && m in Walk(b, s, c, dirs[i], 1)
    ensures m in Slide(b, s, c, dirs)
    decreases |dirs|
  {
    var n := |dirs| - 1;
    var pre := dirs[..n];
    if i < n {
      PrefixAllUnit(dirs, i);
      assert m in Walk(b, s, c, pre[i], 1);
      SlideComplete(b, s, c, pre, i, m);
      SlideKeepsPrefix(b, s, c, dirs, m);
    } else {
      SlideHasLast(b, s, c, dirs, m);
    }
  }

  /** The slide moves are exactly the reachable targets along one of the directions. */
  lemma SlideExact(b: Board, s: Position, c: Color, dirs: seq<Vec>, m: Move)
    requires AllUnit(dirs)
    ensures m in Slide(b, s, c, dirs) <==>
            m.start == s && exists i :: 0 <= i < |dirs| && SlideTarget(b, s, c, dirs[i], m.end)
  {
    if m in Slide(b, s, c, dirs) {
      SlideSound(b, s, c, dirs, m);
      var i :| 0 <= i < |dirs| && m in Walk(b, s, c, dirs[i], 1);
      WalkExact(b, s, c, dirs[i], m);
    }
    if m.start == s && exists i :: 0 <= i < |dirs| && SlideTarget(b, s, c, dirs[i], m.end) {
      var i :| 0 <= i < |dirs| && SlideTarget(b, s, c, dirs[i], m.end);
      WalkExact(b, s, c, dirs[i], m);
      SlideComplete(b, s, c, dirs, i, m);
    }
  }

  lemma SlideOfFour(b: Board, s: Position, c: Color, dirs: seq<Vec>)
    requires AllUnit(dirs) && |dirs| == 4
    ensures Slide(b, s, c, dirs)
         == Walk(b, s, c, dirs[0], 1) + Walk(b, s, c, dirs[1], 1) + Walk(b, s, c, dirs[2], 1) + Walk(b, s, c, dirs[3], 1)
  {
    var w0, w1, w2, w3 := Walk(b, s, c, dirs[0], 1), Walk(b, s, c, dirs[1], 1), Walk(b, s, c, dirs[2], 1), Walk(b, s, c, dirs[3], 1);
    assert dirs[..1][..0] == [];
    assert Slide(b, s, c, dirs[..1]) == [] + w0 == w0;
    assert dirs[..2][..1] == dirs[..1];
    assert Slide(b, s, c, dirs[..2]) == w0 + w1;
    assert dirs[..3][..2] == dirs[..2];
    assert Slide(b, s, c, dirs[..3]) == w0 + w1 + w2;
    assert dirs[..3] == dirs[..|dirs| - 1];
    assert Slide(b, s, c, dirs) == w0 + w1 + w2 + w3;
  }

  lemma {:induction false} SlideConcat(b: Board, s: Position, c: Color, d1: seq<Vec>, d2: seq<Vec>)
    requires AllUnit(d1) && AllUnit(d2)
    ensures AllUnit(d1 + d2)
    ensures Slide(b, s, c, d1 + d2) == Slide(b, s, c, d1) + Slide(b, s, c, d2)
    decreases |d2|
  {
    var d := d1 + d2;
    if |d2| > 0 {
      var n := |d2| - 1;
      assert d[..|d| - 1] == d1 + d2[..n];
      assert d[|d| - 1] == d2[n];
      SlideConcat(b, s, c, d1, d2[..n]);
      var w := Walk(b, s, c, d2[n], 1);
      assert Slide(b, s, c, d) == Slide(b, s, c, d1 + d2[..n]) + w;
      assert Slide(b, s, c, d2) == Slide(b, s, c, d2[..n]) + w;
    } else {
      assert d == d1;
    }
  }

  /** The jumping generators' loop: each offset square that is on the board and enterable. */
  function Leaps(b: Board, s: Position, c: Color, offsets: seq<Vec>): seq<Move>
    decreases |offsets|
  {
    if |offsets| == 0 then []
    else
      var q := Offset(s, offsets[|offsets| - 1]);
      Leaps(b, s, c, offsets[..|offsets| - 1])
      + (if IsWithinBoard(q.col, q.row) && Enterable(b, q, c) then [Move(s, q)] else [])
  }

  lemma {:induction false} LeapsExact(b: Board, s: Position, c: Color, offsets: seq<Vec>, m: Move)
    ensures m in Leaps(b, s, c, offsets) <==>
            m.start == s && Enterable(b, m.end, c) && exists i :: 0 <= i < |offsets| && m.end == Offset(s, offsets[i])
    ensures |Leaps(b, s, c, offsets)| <= |offsets|
    decreases |offsets|
  {
    if |offsets| > 0 {
      var n := |offsets| - 1;
      LeapsExact(b, s, c, offsets[..n], m);
      if m.start == s && Enterable(b, m.end, c) && exists i :: 0 <= i < |offsets| && m.end == Offset(s, offsets[i]) {
        var i :| 0 <= i < |offsets| && m.end == Offset(s, offsets[i]);
        if i < n {
          assert offsets[..n][i] == offsets[i];
        }
      }
      if m in Leaps(b, s, c, offsets[..n]) {
        var i :| 0 <= i < n && m.end == Offset(s, offsets[..n][i]);
        assert offsets[..n][i] == offsets[i];
      }
    }
  }

  /** One ray of a slider, as the while loop walks it. */
  /** The walk goes on past an empty on-board square. */
  lemma WalkOnEmpty(b: Board, s: Position, c: Color, d: Vec, j: int, moves: seq<Move>)
    requires IsUnit(d) && 1 <= j
    requires IsWithinBoard(Ray(s, d, j).col, Ray(s, d, j).row) && Ray(s, d, j) !in b
    ensures moves + Walk(b, s, c, d, j) == (moves + [Move(s, Ray(s, d, j))]) + Walk(b, s, c, d, j + 1)
  {
  }

  /** The walk ends on an occupied square, taking it when the piece there is an enemy. */
  lemma WalkOnPiece(b: Board, s: Position, c: Color, d: Vec, j: int, moves: seq<Move>)
    requires IsUnit(d) && 1 <= j
    requires IsWithinBoard(Ray(s, d, j).col, Ray(s, d, j).row) && Ray(s, d, j) in b
    ensures b[Ray(s, d, j)].color != c ==> moves + Walk(b, s, c, d, j) == moves + [Move(s, Ray(s, d, j))]
    ensures b[Ray(s, d, j)].color == c ==> moves + Walk(b, s, c, d, j) == moves
  {
  }

  /** The walk ends at the edge of the board. */
  lemma WalkOffBoard(b: Board, s: Position, c: Color, d: Vec, j: int, moves: seq<Move>)
    requires IsUnit(d) && 1 <= j && !IsWithinBoard(Ray(s, d, j).col, Ray(s, d, j).row)
    ensures moves + Walk(b, s, c, d, j) == moves
  {
  }

  /** An on-board step of a ray is at most the seventh. */
  lemma RayOnBoardBound(s: Position, d: Vec, j: int)
    requires IsUnit(d) && 1 <= j && IsWithinBoard(Ray(s, d, j).col, Ray(s, d, j).row)
    ensures j <= 7
  {
  }

  lemma RayNext(s: Position, d: Vec, j: int)
    requires IsUnit(d)
    ensures Ray(s, d, j + 1) == Pos(Ray(s, d, j).col + d.dc, Ray(s, d, j).row + d.dr)
  {
  }

  method WalkRay(pm: ChessPieceMap, s: Position, c: Color, d: Vec) returns (moves: seq<Move>)
    requires IsUnit(d)
    ensures moves == Walk(pm.squares, s, c, d, 1)
  {
    moves := [];
    var col, row := s.col + d.dc, s.row + d.dr;
    RayNext(s, d, 0);
    ghost var j := 1;
    ghost var b := pm.squares;
    while IsWithinBoard(col, row)
      invariant 1 <= j <= 8
      invariant Pos(col, row) == Ray(s, d, j)
      invariant moves + Walk(b, s, c, d, j) == Walk(b, s, c, d, 1)
      decreases 8 - j
    {
      var q: Position := Pos(col, row);
      RayOnBoardBound(s, d, j);
      var occupied := pm.HasPiece(q);
      if !occupied {
        WalkOnEmpty(b, s, c, d, j, moves);
        moves := moves + [Move(s, q)];
      } else {
        WalkOnPiece(b, s, c, d, j, moves);
        var piece := pm.GetPiece(q);
        if piece.value.color != c {
          moves := moves + [Move(s, q)];
        }
        break;
      }
      RayNext(s, d, j);
      col, row := col + d.dc, row + d.dr;
      j := j + 1;
    }
    if !IsWithinBoard(col, row) {
      WalkOffBoard(b, s, c, d, j, moves);
    }
  }

  /** A slider's whole loop over its direction table. */
  method SlideAll(pm: ChessPieceMap, s: Position, c: Color, dirs: seq<Vec>) returns (moves: seq<Move>)
    requires AllUnit(dirs)
    ensures moves == Slide(pm.squares, s, c, dirs)
  {
    moves := [];
    for i := 0 to |dirs|
      invariant moves == Slide(pm.squares, s, c, dirs[..i])
    {
      var ray := WalkRay(pm, s, c, dirs[i]);
      assert dirs[..i + 1][..i] == dirs[..i];
      moves := moves + ray;
    }
    assert dirs[..|dirs|] == dirs;
  }

  /** A jumper's loop over its offset table. */
  method LeapAll(pm: ChessPieceMap, s: Position, c: Color, offsets: seq<Vec>) returns (moves: seq<Move>)
    ensures moves == Leaps(pm.squares, s, c, offsets)
  {
    moves := [];
    for i := 0 to |offsets|
      invariant moves == Leaps(pm.squares, s, c, offsets[..i])
    {
      assert offsets[..i + 1][..i] == offsets[..i];
      var col, row := s.col + offsets[i].dc, s.row + offsets[i].dr;
      if IsWithinBoard(col, row) {
        var q: Position := Pos(col, row);
        var occupied := pm.HasPiece(q);
        var piece := pm.GetPiece(q);
        if !occupied || (occupied && piece.value.color != c) {
          moves := moves + [Move(s, q)];
        }
      }
    }
    assert offsets[..|offsets|] == offsets;
  }
}
