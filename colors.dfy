/** The two piece colours (PieceColor). */
module Colors {

  datatype Color = White | Black

  /** The other colour. */
  function Opponent(c: Color): (r: Color)
    ensures r != c
    ensures c == White <==> r == Black
  {
    if c == White then Black else White
  }

  function IsWhite(c: Color): (r: bool)
    ensures r <==> c != Black
  {
    c == White
  }

  function IsBlack(c: Color): (r: bool)
    ensures r <==> c != White
  {
    c == Black
  }

  lemma OpponentInvolutive(c: Color)
    ensures Opponent(Opponent(c)) == c
  {
  }

  lemma WhiteIffNotBlack(c: Color)
    ensures IsWhite(c) == !IsBlack(c)
    ensures IsWhite(Opponent(c)) == IsBlack(c)
  {
  }
}
