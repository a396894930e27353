/**
 * Chess pieces (ChessPiece and its six subclasses) as values: a kind, a
 * colour and the has-moved flag.
 */
module Pieces {
  import opened Colors
  import opened Text

  datatype Kind = Pawn | Knight | Bishop | Rook | Queen | King

  datatype Piece = Piece(kind: Kind, color: Color, moved: bool)

  /** Integer.MAX_VALUE, the king's value. */
  const IntMax: int := 0x7fff_ffff

  /** pieceValue, set by each subclass's instance initializer. */
  function Value(k: Kind): (v: int)
    ensures 1 <= v
    ensures k == King <==> v == IntMax
    ensures k != King ==> v <= 9
  {
    match k
    case Pawn => 1
    case Knight => 3
    case Bishop => 3
    case Rook => 5
    case Queen => 9
    case King => IntMax
  }

  lemma ValueOrder()
    ensures Value(Pawn) < Value(Knight) == Value(Bishop) < Value(Rook) < Value(Queen) < Value(King)
  {
  }

  /** The lower-case letter of a kind. */
  function Letter(k: Kind): (c: char)
    ensures IsLower(c)
  {
    match k
    case Pawn => 'p'
    case Knight => 'n'
    case Bishop => 'b'
    case Rook => 'r'
    case Queen => 'q'
    case King => 'k'
  }

  lemma LetterInjective(j: Kind, k: Kind)
    ensures Letter(j) == Letter(k) ==> j == k
  {
  }

  /** getPieceNotation: the kind's letter, upper case for White. */
  function Notation(p: Piece): (s: string)
    ensures |s| == 1
    ensures IsUpper(s[0]) <==> p.color == White
    ensures ToLower(s[0]) == Letter(p.kind)
  {
    if p.color == White then [ToUpper(Letter(p.kind))] else [Letter(p.kind)]
  }

  /** compareTo: Integer.compare of the two piece values. */
  function CompareTo(a: Piece, b: Piece): (r: int)
    ensures -1 <= r <= 1
    ensures r < 0 <==> Value(a.kind) < Value(b.kind)
    ensures r == 0 <==> Value(a.kind) == Value(b.kind)
  {
    if Value(a.kind) < Value(b.kind) then -1
    else if Value(a.kind) == Value(b.kind) then 0
    else 1
  }

  lemma CompareToAntisymmetric(a: Piece, b: Piece)
    ensures CompareTo(a, b) == -CompareTo(b, a)
    ensures CompareTo(a, b) == CompareTo(a.(moved := !a.moved), b)
  {
  }
}
