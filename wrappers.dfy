/** Option and Result values standing in for Java's null returns and thrown exceptions. */
module Wrappers {

  datatype Option<+T> = None | Some(value: T)

  /** The Java exceptions the core can throw, by class. */
  datatype Failure =
    | InvalidPosition        // InvalidPositionException from the ChessPosition constructor
    | IllegalArgument        // IllegalArgumentException (bad notation, short FEN)
    | IllegalState           // IllegalStateException (a board without one of its kings)
    | IndexOutOfBounds       // ArrayIndexOutOfBounds / StringIndexOutOfBounds
    | NullPointer            // NullPointerException (a call on a missing piece)

  datatype Result<+T> = Ok(value: T) | Err(error: Failure)
}
