/**
 * Forsyth-Edwards Notation as this engine writes it (ChessNotationUtils)
 * and reads it back (the BoardState(String) constructor and
 * createPieceFromFENChar), as functions on values. The writer lists the
 * ranks from 8 down to 1, each as piece letters and digit runs of empty
 * squares; the reader understands the placement, side and castling fields
 * only.
 */
module Fen {
  import opened Wrappers
  import opened Colors
  import opened Text
  import opened Positions
  import opened Pieces
  import opened PieceMaps

  /** The four castling flags of a BoardState. */
  datatype Rights = Rights(whiteKingside: bool, whiteQueenside: bool, blackKingside: bool, blackQueenside: bool)

  const AllRights := Rights(true, true, true, true)

  // ---------------------------------------------------------------- writing

  /** The text written for one rank so far, and the run of empty squares not yet written. */
  datatype Scan = Scan(text: string, empty: nat)

  /** A pending run of empty squares as its digit, or nothing. */
  function Run(e: nat): string
    requires e <= 8
  {
    if e > 0 then [DigitChar(e)] else []
  }

  /** One column of the rank loop: an empty square extends the run, a piece flushes it and is written. */
  function ScanColumn(b: Board, row: int, col: int, sc: Scan): Scan
    requires 0 <= row < 8 && 0 <= col < 8
  {
    var q := Pos(col, row);
    if q !in b then Scan(sc.text, sc.empty + 1)
    else if sc.empty <= 8 then Scan(sc.text + Run(sc.empty) + Notation(b[q]), 0)
    else Scan(sc.text + Notation(b[q]), 0)
  }

  /** The rank loop over the first n columns of a row. */
  function RankScan(b: Board, row: int, n: nat): Scan
    requires 0 <= row < 8 && n <= 8
  {
    if n == 0 then Scan("", 0) else ScanColumn(b, row, n - 1, RankScan(b, row, n - 1))
  }

  /** One rank of the placement field. */
  function RankString(b: Board, row: int): string
    requires 0 <= row < 8
  {
    var sc := RankScan(b, row, 8);
    if sc.empty <= 8 then sc.text + Run(sc.empty) else sc.text
  }

  /** The placement field after k ranks, from row 7 down, with '/' after every rank but row 0. */
  function PlacementUpTo(b: Board, k: nat): string
    requires k <= 8
  {
    if k == 0 then ""
    else PlacementUpTo(b, k - 1) + RankString(b, 8 - k) + (if 8 - k > 0 then "/" else "")
  }

  function Placement(b: Board): string
  {
    PlacementUpTo(b, 8)
  }

  function SideField(c: Color): string
  {
    if IsWhite(c) then "w" else "b"
  }

  /** The flags that hold, in the order K, Q, k, q; "-" when none does. */
  function CastlingField(r: Rights): string
  {
    var s := (if r.whiteKingside then "K" else "") + (if r.whiteQueenside then "Q" else "")
             + (if r.blackKingside then "k" else "") + (if r.blackQueenside then "q" else "");
    if s == "" then "-" else s
  }

  function EnPassantField(ep: Option<Position>): string
  {
    match ep
    case None => "-"
    case Some(p) => ToNotation(p)
  }

  /** The four fields of getFenFourParts, in order. */
  function FenFourParts(b: Board, c: Color, r: Rights, ep: Option<Position>): seq<string>
  {
    [Placement(b), SideField(c), CastlingField(r), EnPassantField(ep)]
  }

  /** getFenFourParts, the string a BoardState is compared and hashed by. */
  function FenFour(b: Board, c: Color, r: Rights, ep: Option<Position>): string
  {
    Join(FenFourParts(b, c, r, ep), ' ')
  }

  /** getFEN: the same four fields followed by the two clocks. */
  function FenString(b: Board, c: Color, r: Rights, ep: Option<Position>, halfmove: int, fullmove: int): string
  {
    Join(FenFourParts(b, c, r, ep) + [IntToString(halfmove), IntToString(fullmove)], ' ')
  }

  // ---------------------------------------------------------------- reading

  /** The piece with has-moved cleared, as the reader creates it. */
  function Fresh(p: Piece): Piece
  {
    Piece(p.kind, p.color, false)
  }

  function FreshBoard(b: Board): Board
  {
    map q | q in b :: Fresh(b[q])
  }

  /** createPieceFromFENChar: upper case is White; p, n, b, r, q, k name the kinds, anything else no piece. */
  function PieceOfFenChar(c: char): Option<Piece>
  {
    var color := if IsUpper(c) then White else Black;
    match ToLower(c)
    case 'p' => Some(Piece(Pawn, color, false))
    case 'n' => Some(Piece(Knight, color, false))
    case 'b' => Some(Piece(Bishop, color, false))
    case 'r' => Some(Piece(Rook, color, false))
    case 'q' => Some(Piece(Queen, color, false))
    case 'k' => Some(Piece(King, color, false))
    case _ => None
  }

  /** The reader's position within one rank: the board built so far and the column counter. */
  datatype Cursor = Cursor(board: Board, col: int)

  /** One character of a rank: a digit skips columns, a letter places a piece, anything else takes a column. */
  function RankStep(cur: Cursor, c: char, rank: int): Result<Cursor>
    requires 0 <= rank < 8
  {
    if IsDigit(c) then Ok(Cursor(cur.board, cur.col + DigitValue(c)))
    else
      match PieceOfFenChar(c)
      case None => Ok(Cursor(cur.board, cur.col + 1))
      case Some(p) =>
        if 0 <= cur.col < 8 then Ok(Cursor(cur.board[Pos(cur.col, rank) := p], cur.col + 1))
        else Err(InvalidPosition)
  }

  /** The characters of s read into row rank of acc, from column 0. */
  function ParseRank(s: string, rank: int, acc: Board): Result<Cursor>
    requires 0 <= rank < 8
  {
    if |s| == 0 then Ok(Cursor(acc, 0))
    else
      match ParseRank(s[..|s| - 1], rank, acc)
      case Err(e) => Err(e)
      case Ok(cur) => RankStep(cur, s[|s| - 1], rank)
  }

  /** Rows 0 up to n - 1, row r read from ranks[7 - r]; a missing rank is an index error. */
  function ParseRanks(ranks: seq<string>, n: nat): Result<Board>
    requires n <= 8
  {
    if n == 0 then Ok(map[])
    else
      match ParseRanks(ranks, n - 1)
      case Err(e) => Err(e)
      case Ok(b) =>
        if 7 - (n - 1) >= |ranks| then Err(IndexOutOfBounds)
        else
          match ParseRank(ranks[7 - (n - 1)], n - 1, b)
          case Err(e) => Err(e)
          case Ok(cur) => Ok(cur.board)
  }

  /** What the FEN constructor reads: the board, the side to move and the castling flags. */
  datatype FenFields = FenFields(board: Board, player: Color, rights: Rights)

  /**
   * BoardState(String): fewer than four space-separated fields is an
   * IllegalArgumentException; the placement field is then read rank by
   * rank; the side is White exactly for "w"; each castling flag is whether
   * its letter occurs in the third field.
   */
  function ParseFen(fen: string): Result<FenFields>
  {
    var parts := Split(fen, ' ');
    if |parts| < 4 then Err(IllegalArgument)
    else
      match ParseRanks(Split(parts[0], '/'), 8)
      case Err(e) => Err(e)
      case Ok(b) =>
        Ok(FenFields(b, if parts[1] == "w" then White else Black,
                     Rights('K' in parts[2], 'Q' in parts[2], 'k' in parts[2], 'q' in parts[2])))
  }

  // ---------------------------------------------------------------- properties

  /** A piece letter is read back as the piece, has-moved cleared. */
  lemma FenCharRoundTrip(p: Piece)
    ensures PieceOfFenChar(Notation(p)[0]) == Some(Fresh(p))
  {
    var c := Notation(p)[0];
    assert ToLower(c) == Letter(p.kind);
    match p.kind
    case Pawn =>
    case Knight =>
    case Bishop =>
    case Rook =>
    case Queen =>
    case King =>
  }

  /** Row row's pieces in columns below k, has-moved cleared. */
  function RowPart(b: Board, row: int, k: int): Board
  {
    map q | q in b && q.row == row && q.col < k :: Fresh(b[q])
  }

  /** The pieces on rows below n, has-moved cleared. */
  function Rows(b: Board, n: int): Board
  {
    map q | q in b && q.row < n :: Fresh(b[q])
  }

  predicate NoSeparator(s: string)
  {
    '/' !in s && ' ' !in s
  }

  predicate NoAdjacentDigits(s: string)
  {
    forall i :: 0 <= i < |s| - 1 ==> !(IsDigit(s[i]) && IsDigit(s[i + 1]))
  }

  /** Appending a letter to a text that ends in a letter, or a digit and then a letter, keeps digits apart. */
  lemma AppendKeepsShape(t: string, d: string, x: string)
    requires NoSeparator(t) && NoAdjacentDigits(t) && (t == "" || !IsDigit(t[|t| - 1]))
    requires |d| <= 1 && (|d| == 1 ==> IsDigit(d[0]))
    requires |x| == 1 && !IsDigit(x[0]) && x[0] != '/' && x[0] != ' '
    ensures NoSeparator(t + d + x) && NoAdjacentDigits(t + d + x) && !IsDigit((t + d + x)[|t + d + x| - 1])
  {
    var s := t + d + x;
    assert s[|s| - 1] == x[0];
    forall i | 0 <= i < |s| - 1
      ensures !(IsDigit(s[i]) && IsDigit(s[i + 1]))
    {
      if i + 1 < |t| {
        assert s[i] == t[i] && s[i + 1] == t[i + 1];
      } else if i + 1 == |t| {
        assert s[i] == t[|t| - 1];
      }
    }
    if |d| == 1 {
      assert d[0] != '/' && d[0] != ' ';
    }
  }

  /** The scanned text so far ends in a letter (or is empty), and the run counts the empty squares just passed. */
  lemma {:induction false} RankScanShape(b: Board, row: int, n: nat)
    requires 0 <= row < 8 && n <= 8
    ensures RankScan(b, row, n).empty <= n
    ensures RankScan(b, row, n).text == "" ==> RankScan(b, row, n).empty == n
    ensures RankScan(b, row, n).text != "" ==> !IsDigit(RankScan(b, row, n).text[|RankScan(b, row, n).text| - 1])
    ensures NoSeparator(RankScan(b, row, n).text)
    ensures NoAdjacentDigits(RankScan(b, row, n).text)
    ensures forall col :: n - RankScan(b, row, n).empty <= col < n ==> Pos(col, row) !in b
  {
    if n > 0 {
      RankScanShape(b, row, n - 1);
      var sc := RankScan(b, row, n - 1);
      var q := Pos(n - 1, row);
      if q in b {
        var x := Notation(b[q]);
        assert !IsDigit(x[0]) && x[0] != '/' && x[0] != ' ';
        AppendKeepsShape(sc.text, Run(sc.empty), x);
      }
    }
  }

  /** Each rank field is free of separators, has no two digits in a row, and is not empty. */
  lemma RankStringShape(b: Board, row: int)
    requires 0 <= row < 8
    ensures NoSeparator(RankString(b, row)) && NoAdjacentDigits(RankString(b, row))
    ensures RankString(b, row) != ""
  {
    RankScanShape(b, row, 8);
    var sc := RankScan(b, row, 8);
    var s := RankString(b, row);
    if sc.empty > 0 {
      assert s == sc.text + [DigitChar(sc.empty)];
      assert s[|s| - 1] == DigitChar(sc.empty);
      forall i | 0 <= i < |s| - 1
        ensures !(IsDigit(s[i]) && IsDigit(s[i + 1]))
      {
        assert s[i] == sc.text[i];
        if i + 1 < |sc.text| {
          assert s[i + 1] == sc.text[i + 1];
        }
      }
    } else {
      assert s == sc.text;
    }
  }

  /** Leaving empty columns out of the bound changes nothing. */
  lemma RowPartSkip(b: Board, row: int, k1: int, k2: int)
    requires k1 <= k2
    requires forall col :: k1 <= col < k2 ==> Pos(col, row) !in b
    ensures RowPart(b, row, k1) == RowPart(b, row, k2)
  {
    assert forall q :: q in RowPart(b, row, k2) ==> q in RowPart(b, row, k1);
  }

  lemma RowPartNext(b: Board, row: int, k: int, acc: Board)
    requires 0 <= row < 8 && 0 <= k < 8
    requires Pos(k, row) in b
    ensures (acc + RowPart(b, row, k))[Pos(k, row) := Fresh(b[Pos(k, row)])] == acc + RowPart(b, row, k + 1)
  {
  }

  /** Reading one more character continues from where the text before it left off. */
  lemma ParseSnoc(s: string, c: char, rank: int, acc: Board)
    requires 0 <= rank < 8
    ensures ParseRank(s + [c], rank, acc) ==
            match ParseRank(s, rank, acc)
            case Err(e) => Err(e)
            case Ok(cur) => RankStep(cur, c, rank)
  {
    assert (s + [c])[..|s|] == s;
  }

  /** A pending run, read back, moves the column counter past the empty squares. */
  lemma ParseRun(t: string, e: nat, rank: int, acc: Board, cur: Cursor)
    requires 0 <= rank < 8 && e <= 8
    requires ParseRank(t, rank, acc) == Ok(cur)
    ensures ParseRank(t + Run(e), rank, acc) == Ok(Cursor(cur.board, cur.col + e))
  {
    if e > 0 {
      ParseSnoc(t, DigitChar(e), rank, acc);
      assert DigitValue(DigitChar(e)) == e;
    } else {
      assert t + Run(e) == t;
    }
  }

  /** A piece letter, read back at column k, places the piece there. */
  lemma ParsePiece(t: string, p: Piece, rank: int, acc: Board, cur: Cursor)
    requires 0 <= rank < 8 && 0 <= cur.col < 8
    requires ParseRank(t, rank, acc) == Ok(cur)
    ensures ParseRank(t + Notation(p), rank, acc) == Ok(Cursor(cur.board[Pos(cur.col, rank) := Fresh(p)], cur.col + 1))
  {
    var x := Notation(p);
    assert x == [x[0]];
    FenCharRoundTrip(p);
    assert !IsDigit(x[0]);
    ParseSnoc(t, x[0], rank, acc);
  }

  /** The pending run covers exactly the empty columns just before column n. */
  lemma {:induction false} RankScanGap(b: Board, row: int, n: nat)
    requires 0 <= row < 8 && n <= 8
    ensures RankScan(b, row, n).empty <= n
    ensures forall col :: n - RankScan(b, row, n).empty <= col < n ==> Pos(col, row) !in b
  {
    if n > 0 {
      RankScanGap(b, row, n - 1);
    }
  }

  /** The text scanned from the first n columns reads back as their pieces, stopping before the pending run. */
  predicate ScanParses(b: Board, row: int, acc: Board, n: nat, sc: Scan)
    requires 0 <= row < 8
  {
    sc.empty <= n &&
    ParseRank(sc.text, row, acc) == Ok(Cursor(acc + RowPart(b, row, n - sc.empty), n - sc.empty))
  }

  /** One column of RankScanParses, for any scan state that reads back so far. */
  lemma ScanColumnParses(b: Board, row: int, n: nat, acc: Board, sc: Scan)
    requires 0 <= row < 8 && 1 <= n <= 8
    requires ScanParses(b, row, acc, n - 1, sc)
    requires forall col :: n - 1 - sc.empty <= col < n - 1 ==> Pos(col, row) !in b
    ensures ScanParses(b, row, acc, n, ScanColumn(b, row, n - 1, sc))
  {
    if Pos(n - 1, row) in b {
      PieceFlushesRun(b, row, n - 1, sc.text, sc.empty, acc);
    }
  }

  /** A piece on column k, read back after the pending run, lands on its square. */
  lemma PieceFlushesRun(b: Board, row: int, k: int, text: string, e: nat, acc: Board)
    requires 0 <= row < 8 && 0 <= k < 8 && e <= k && Pos(k, row) in b
    requires forall col :: k - e <= col < k ==> Pos(col, row) !in b
    requires ParseRank(text, row, acc) == Ok(Cursor(acc + RowPart(b, row, k - e), k - e))
    ensures ParseRank(text + Run(e) + Notation(b[Pos(k, row)]), row, acc) == Ok(Cursor(acc + RowPart(b, row, k + 1), k + 1))
  {
    ParseRun(text, e, row, acc, Cursor(acc + RowPart(b, row, k - e), k - e));
    RowPartSkip(b, row, k - e, k);
    ParsePiece(text + Run(e), b[Pos(k, row)], row, acc, Cursor(acc + RowPart(b, row, k), k));
    RowPartNext(b, row, k, acc);
  }

  /** Reading back the scanned text of the first n columns places their pieces and stops before the pending run. */
  lemma {:induction false} RankScanParses(b: Board, row: int, n: nat, acc: Board)
    requires 0 <= row < 8 && n <= 8
    ensures ScanParses(b, row, acc, n, RankScan(b, row, n))
  {
    if n == 0 {
      assert RankScan(b, row, 0) == Scan("", 0);
      assert RowPart(b, row, 0) == map[];
      assert acc + map[] == acc;
    } else {
      RankScanParses(b, row, n - 1, acc);
      RankScanGap(b, row, n - 1);
      ScanColumnParses(b, row, n, acc, RankScan(b, row, n - 1));
    }
  }

  /** A rank field read back fills exactly that row with its pieces and ends at column 8. */
  lemma RankRoundTrip(b: Board, row: int, acc: Board)
    requires 0 <= row < 8
    ensures ParseRank(RankString(b, row), row, acc) == Ok(Cursor(acc + RowPart(b, row, 8), 8))
  {
    RankScanParses(b, row, 8, acc);
    RankScanGap(b, row, 8);
    var sc := RankScan(b, row, 8);
    assert ScanParses(b, row, acc, 8, sc);
    RowPartSkip(b, row, 8 - sc.empty, 8);
    ParseRun(sc.text, sc.empty, row, acc, Cursor(acc + RowPart(b, row, 8 - sc.empty), 8 - sc.empty));
  }

  /** The rank fields in the order written: rank 8 (row 7) first. */
  function Ranks(b: Board): seq<string>
  {
    seq(8, i requires 0 <= i < 8 => RankString(b, 7 - i))
  }

  lemma {:induction false} JoinAppend(parts: seq<string>, x: string, sep: char)
    requires 1 <= |parts|
    ensures Join(parts + [x], sep) == Join(parts, sep) + [sep] + x
    decreases |parts|
  {
    if |parts| > 1 {
      assert (parts + [x])[1..] == parts[1..] + [x];
      JoinAppend(parts[1..], x, sep);
    } else {
      assert (parts + [x])[1..] == [x];
    }
  }

  lemma {:induction false} PlacementIsJoin(b: Board, k: nat)
    requires 1 <= k <= 8
    ensures PlacementUpTo(b, k) == Join(Ranks(b)[..k], '/') + (if k < 8 then "/" else "")
  {
    if k == 1 {
      assert PlacementUpTo(b, 0) == "";
      assert Ranks(b)[..1] == [RankString(b, 7)];
    } else {
      PlacementIsJoin(b, k - 1);
      assert Ranks(b)[..k] == Ranks(b)[..k - 1] + [RankString(b, 8 - k)];
      JoinAppend(Ranks(b)[..k - 1], RankString(b, 8 - k), '/');
    }
  }

  /** The placement field splits on '/' into the eight rank fields, rank 8 first, and holds no space. */
  lemma PlacementSplits(b: Board)
    ensures Split(Placement(b), '/') == Ranks(b)
    ensures ' ' !in Placement(b)
  {
    var ranks := Ranks(b);
    forall i | 0 <= i < 8
      ensures NoSeparator(ranks[i]) && ranks[i] != ""
    {
      RankStringShape(b, 7 - i);
    }
    PlacementIsJoin(b, 8);
    assert ranks[..8] == ranks;
    assert Placement(b) == Join(ranks, '/');
    assert forall i :: 0 <= i < |ranks| ==> '/' !in ranks[i];
    assert ranks[|ranks| - 1] != "";
    SplitOfJoin(ranks, '/');
    JoinNoSpace(ranks, '/');
  }

  lemma {:induction false} JoinNoSpace(parts: seq<string>, sep: char)
    requires 1 <= |parts| && sep != ' '
    requires forall i :: 0 <= i < |parts| ==> ' ' !in parts[i]
    ensures ' ' !in Join(parts, sep)
    decreases |parts|
  {
    if |parts| > 1 {
      assert forall i :: 0 <= i < |parts[1..]| ==> parts[1..][i] == parts[i + 1];
      JoinNoSpace(parts[1..], sep);
    }
  }

  lemma JoinCons(x: string, rest: seq<string>, sep: char)
    requires 1 <= |rest|
    ensures Join([x] + rest, sep) == x + [sep] + Join(rest, sep)
  {
    assert ([x] + rest)[1..] == rest;
  }

  /** Rows 0 to n - 1 read back from the rank fields give those rows' pieces. */
  lemma {:induction false} RanksRoundTrip(b: Board, n: nat)
    requires n <= 8
    ensures ParseRanks(Ranks(b), n) == Ok(Rows(b, n))
  {
    if n == 0 {
      assert Rows(b, 0) == map[];
    } else {
      RanksRoundTrip(b, n - 1);
      RankRoundTrip(b, n - 1, Rows(b, n - 1));
      assert Ranks(b)[7 - (n - 1)] == RankString(b, n - 1);
      RowsNext(b, n);
    }
  }

  lemma RowsNext(b: Board, n: int)
    requires 1 <= n <= 8
    ensures Rows(b, n - 1) + RowPart(b, n - 1, 8) == Rows(b, n)
  {
  }

  lemma CastlingFieldShape(r: Rights)
    ensures NoSeparator(CastlingField(r)) && CastlingField(r) != ""
    ensures ('K' in CastlingField(r)) == r.whiteKingside && ('Q' in CastlingField(r)) == r.whiteQueenside
    ensures ('k' in CastlingField(r)) == r.blackKingside && ('q' in CastlingField(r)) == r.blackQueenside
  {
  }

  lemma IntToStringShape(i: int)
    ensures NoSeparator(IntToString(i)) && IntToString(i) != ""
  {
    var s := IntToString(i);
    var d := if i < 0 then NatToString(-i) else NatToString(i);
    assert s == (if i < 0 then "-" else "") + d;
    assert forall k :: 0 <= k < |d| ==> IsDigit(d[k]);
  }

  lemma EnPassantFieldShape(ep: Option<Position>)
    ensures NoSeparator(EnPassantField(ep)) && EnPassantField(ep) != ""
  {
    if ep.Some? {
      var s := ToNotation(ep.value);
      assert s == [s[0], s[1]];
    }
  }

  /** Four fields joined by single spaces split back into those fields. */
  /** The four fields of getFenFourParts, as split on spaces. */
  lemma FenFourSplits(b: Board, c: Color, r: Rights, ep: Option<Position>)
    ensures Split(FenFour(b, c, r, ep), ' ') == [Placement(b), SideField(c), CastlingField(r), EnPassantField(ep)]
  {
    PlacementSplits(b);
    CastlingFieldShape(r);
    EnPassantFieldShape(ep);
    var parts := FenFourParts(b, c, r, ep);
    assert forall i :: 0 <= i < 4 ==> ' ' !in parts[i];
    SplitOfJoin(parts, ' ');
  }

  /** getFEN's six space-separated fields: getFenFourParts's four, then the two clocks. */
  lemma FenStringSplits(b: Board, c: Color, r: Rights, ep: Option<Position>, halfmove: int, fullmove: int)
    ensures FenString(b, c, r, ep, halfmove, fullmove) == FenFour(b, c, r, ep) + " " + IntToString(halfmove) + " " + IntToString(fullmove)
    ensures Split(FenString(b, c, r, ep, halfmove, fullmove), ' ')
            == Split(FenFour(b, c, r, ep), ' ') + [IntToString(halfmove), IntToString(fullmove)]
  {
    PlacementSplits(b);
    CastlingFieldShape(r);
    EnPassantFieldShape(ep);
    IntToStringShape(halfmove);
    IntToStringShape(fullmove);
    FenFourSplits(b, c, r, ep);
    var parts := FenFourParts(b, c, r, ep);
    var h, f := IntToString(halfmove), IntToString(fullmove);
    JoinAppend(parts, h, ' ');
    JoinAppend(parts + [h], f, ' ');
    assert parts + [h, f] == parts + [h] + [f];
    var all := parts + [h, f];
    assert forall i :: 0 <= i < 6 ==> ' ' !in all[i];
    SplitOfJoin(all, ' ');
  }

  /**
   * Reading back what getFenFourParts wrote gives the same pieces (with
   * has-moved cleared), the same side to move and the same castling flags;
   * the en-passant field is not read.
   */
  lemma FenRoundTrip(b: Board, c: Color, r: Rights, ep: Option<Position>)
    ensures ParseFen(FenFour(b, c, r, ep)) == Ok(FenFields(FreshBoard(b), c, r))
  {
    FenFourSplits(b, c, r, ep);
    PlacementSplits(b);
    RanksRoundTrip(b, 8);
    CastlingFieldShape(r);
    assert Rows(b, 8) == FreshBoard(b);
  }

  /**
   * The comparison key determines the position: two keys are equal only
   * for boards with the same kinds and colours on every square, the same
   * side to move, castling flags and en-passant target.
   */
  lemma FenFourDeterminesPosition(b1: Board, c1: Color, r1: Rights, ep1: Option<Position>,
                                  b2: Board, c2: Color, r2: Rights, ep2: Option<Position>)
    requires FenFour(b1, c1, r1, ep1) == FenFour(b2, c2, r2, ep2)
    ensures FreshBoard(b1) == FreshBoard(b2) && c1 == c2 && r1 == r2 && ep1 == ep2
  {
    FenRoundTrip(b1, c1, r1, ep1);
    FenRoundTrip(b2, c2, r2, ep2);
    FenFourSplits(b1, c1, r1, ep1);
    FenFourSplits(b2, c2, r2, ep2);
    assert EnPassantField(ep1) == EnPassantField(ep2);
    if ep1.Some? {
      NotationRoundTrip(ep1.value);
    }
    if ep2.Some? {
      NotationRoundTrip(ep2.value);
    }
  }

  /** The has-moved flags do not show in the rank loop. */
  lemma {:induction false} RankScanIgnoresMoved(b: Board, row: int, n: nat)
    requires 0 <= row < 8 && n <= 8
    ensures RankScan(FreshBoard(b), row, n) == RankScan(b, row, n)
  {
    if n > 0 {
      RankScanIgnoresMoved(b, row, n - 1);
    }
  }

  lemma {:induction false} PlacementIgnoresMoved(b: Board, k: nat)
    requires k <= 8
    ensures PlacementUpTo(FreshBoard(b), k) == PlacementUpTo(b, k)
  {
    if k > 0 {
      PlacementIgnoresMoved(b, k - 1);
      RankScanIgnoresMoved(b, 8 - k, 8);
    }
  }

  /** Two states differing only in has-moved flags have the same key. */
  lemma FenFourIgnoresMoved(b: Board, c: Color, r: Rights, ep: Option<Position>)
    ensures FenFour(FreshBoard(b), c, r, ep) == FenFour(b, c, r, ep)
  {
    PlacementIgnoresMoved(b, 8);
  }

  /** The comparison keys of two positions are equal exactly when the positions agree on everything but has-moved. */
  lemma FenFourEqualIff(b1: Board, c1: Color, r1: Rights, ep1: Option<Position>,
                        b2: Board, c2: Color, r2: Rights, ep2: Option<Position>)
    ensures FenFour(b1, c1, r1, ep1) == FenFour(b2, c2, r2, ep2) <==>
            FreshBoard(b1) == FreshBoard(b2) && c1 == c2 && r1 == r2 && ep1 == ep2
  {
    if FenFour(b1, c1, r1, ep1) == FenFour(b2, c2, r2, ep2) {
      FenFourDeterminesPosition(b1, c1, r1, ep1, b2, c2, r2, ep2);
    }
    FenFourIgnoresMoved(b1, c1, r1, ep1);
    FenFourIgnoresMoved(b2, c2, r2, ep2);
  }

  /** Once a prefix of a rank fails to read, the whole rank fails with the same error. */
  lemma {:induction false} ParseRankErrSticks(s: string, i: nat, rank: int, acc: Board)
    requires 0 <= rank < 8 && i <= |s|
    requires ParseRank(s[..i], rank, acc).Err?
    ensures ParseRank(s, rank, acc) == ParseRank(s[..i], rank, acc)
    decreases |s|
  {
    if i < |s| {
      var t := s[..|s| - 1];
      assert t[..i] == s[..i];
      ParseRankErrSticks(t, i, rank, acc);
    } else {
      assert s[..i] == s;
    }
  }

  /** Once the first k rows fail to read, every longer read fails with the same error. */
  lemma {:induction false} ParseRanksErrSticks(ranks: seq<string>, k: nat, n: nat)
    requires k <= n <= 8
    requires ParseRanks(ranks, k).Err?
    ensures ParseRanks(ranks, n) == ParseRanks(ranks, k)
    decreases n
  {
    if k < n {
      ParseRanksErrSticks(ranks, k, n - 1);
    }
  }
}
