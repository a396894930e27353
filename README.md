# A verified model of a Java chess engine

This project models the rules core of a chess engine. The engine is written
in Java in two package trees, `com.minhduc5a12.chess` and its fork `nhom16oop`,
and the model treats them as one engine. The core consists of the board, the
pieces and their move generators, the legality checks, FEN, the board state
and its history, the game controller and the chess clock. Each part is stated
in Dafny and its properties are proved.

Modules, with the source they follow:

- `JavaInts`, `Wrappers`, `Text`: Java `int`/`long` wrap-around,
  truncating `/` and `%`, `Result`/`Option`, and the digit and string helpers
  the sources use.
- `Colors`, `Positions`, `Moves`, `Pieces`: the value types. These are
  `PlayerColor`, `ChessPosition` (with algebraic notation and the matrix
  conversions), `ChessMove`, and the piece kinds with their values, letters
  and ordering.
- `PieceMaps`: `ChessPieceMap` as a class whose one field is a
  `map<Position, Piece>`. Each method is proved against the new map.
- `Movement`, `Bishops`, `Rooks`, `Queens`, `Knights`, `Pawns`, `Kings`:
  the per-piece move generators. They are imperative loops proved equal to
  specification functions, and those functions are proved to contain exactly
  the geometrically reachable squares.
- `Attacks`, `Legality`: `BoardUtils`. This covers check detection, move
  simulation, valid moves, checkmate, stalemate and dead positions.
- `Fen`, `NotationUtils`: the FEN writer and reader, with a round trip
  between them.
- `BoardStates`, `BoardManagers`, `GameHistories`, `GameActions`:
  `BoardState`, `BoardManager` with its threefold-repetition history,
  `GameHistoryManager`, and the undo and redo of `GameActionManager`.
- `Controllers`: `ChessController`. Every move path (normal, castling, en
  passant, promotion) is proved to give the value `View()` of the game a
  value that a transition function on a `Game` value computes. The
  properties of a game are proved about those functions.
- `Engines`: decoding the engine's best-move answer.
- `Timers`: `ChessTimer`, with ticks, start and stop, reset and time-outs
  in Java `long` arithmetic.

Iteration over a Java `HashMap` is modelled as a scan over the 64 squares in a
fixed order: column-major, index `i` is column `i / 8`, row `i % 8`. The order
is observable only when a colour has more than one king.

The model follows the code, including where the code departs from the FIDE
Laws of Chess or from what its own documentation comments describe. The one
exception is the castling probe of the finding below: the king's move
generator and `performCastling` use the intended castling test, while the
map constructor of `BoardState` runs the test as written and throws where the
code throws (see the section Left out below). The departures:

- Castling does not check the rook's colour. It asks only for an unmoved
  rook in the corner (`King.java:73`, `King.java:106`).
- Undo and redo do not restore the en-passant target and the castling flags
  exactly. They re-derive both through `setLastMove` from the restored last
  move (`GameActions.RestorationFindsTarget`).
- After a live double pawn push, the en-passant target stays empty.
  `setLastMove` runs before the pieces are moved
  (`ChessController.java:226` against `230-232`).
- Threefold repetition checks the position's key before recording it, with
  the mover still to move. The draw therefore fires on the fourth
  occurrence of a key. The recorded keys carry the mover as side to move.
- Undo and redo adjust `GameHistoryManager`'s counts, which the
  repetition check never reads. `BoardManager`'s history is never
  decremented.
- Moves are not atomic. Castling when the corner holds no rook ends in a
  `NullPointerException`, after part of the state has changed.
- The board needs a king of each colour, not exactly one.
- Castling and en passant do not advance the puzzle move counter.
- The fifty-move draw fires when the half-move clock reaches 50.
- Malformed notation raises `IllegalArgumentException`, modelled as one
  `Failure` constructor.

## Model

| member | source | states |
|---|---|---|
| Colors.Opponent | src/main/java/com/minhduc5a12/chess/constants/PieceColor.java:6-8 | the opponent is the other colour, Black exactly for White |
| Colors.IsWhite | src/main/java/com/minhduc5a12/chess/constants/PieceColor.java:10-12 | true exactly for a colour that is not Black |
| Colors.IsBlack | src/main/java/com/minhduc5a12/chess/constants/PieceColor.java:14-16 | true exactly for a colour that is not White |
| Colors.OpponentInvolutive | src/main/java/com/minhduc5a12/chess/constants/PieceColor.java:6-8 | taking the opponent twice gives the colour back |
| Colors.WhiteIffNotBlack | src/main/java/com/minhduc5a12/chess/constants/PieceColor.java:10-16 | isWhite is the negation of isBlack, and isWhite of the opponent is isBlack |
| Positions.MakePosition | src/main/java/com/minhduc5a12/chess/core/model/ChessPosition.java:37-41 | a square exactly when both coordinates are in 0..7, with those coordinates; otherwise the invalid-position error |
| Positions.ToNotation | src/main/java/com/minhduc5a12/chess/core/model/ChessPosition.java:59-61 | two characters, a file letter a..h and a rank digit 1..8, that encode the column and the row |
| Positions.FromNotation | src/main/java/com/minhduc5a12/chess/core/model/ChessPosition.java:70-75 | succeeds exactly on a two-character string with a file a..h and a rank 1..8, and its result prints back as that string; otherwise an illegal-argument error |
| Positions.NotationRoundTrip | src/main/java/com/minhduc5a12/chess/core/model/ChessPosition.java:59-75 | parsing the notation of a square gives the square |
| Positions.Lookup | src/main/java/com/minhduc5a12/chess/core/model/ChessPosition.java:20-29 | the static table has an entry exactly for a file letter of either case and a rank, and it is the square that notation names |
| Positions.LookupOfNotation | src/main/java/com/minhduc5a12/chess/core/model/ChessPosition.java:50-52 | every square is found under its own notation, with the file letter in lower or upper case |
| Positions.MatrixCol | src/main/java/com/minhduc5a12/chess/core/model/ChessPosition.java:82-84 | the column itself, within the board |
| Positions.MatrixRow | src/main/java/com/minhduc5a12/chess/core/model/ChessPosition.java:92-94 | a row within the board that is the mirror of the rank (the two add up to 7) |
| Positions.MatrixRowInvolutive | src/main/java/com/minhduc5a12/chess/core/model/ChessPosition.java:92-94 | mirroring twice gives the row back |
| Moves.MakeMove | src/main/java/com/minhduc5a12/chess/core/model/ChessMove.java:10-12 | a move exactly when both squares are on the board, with those squares; otherwise the invalid-position error |
| Moves.MoveNotation | src/main/java/com/minhduc5a12/chess/core/model/ChessMove.java:18-20 | four characters whose two halves parse back to the start and end squares |
| Pieces.Value | src/main/java/com/minhduc5a12/chess/core/pieces/Pawn.java:18 | every value is at least 1; only the king has Integer.MAX_VALUE; the others are at most 9 (pawn 1, knight and bishop 3, rook 5 and queen 9 in Knight.java:14, Bishop.java:15, Rook.java:15, Queen.java:15, King.java:14) |
| Pieces.ValueOrder | src/main/java/com/minhduc5a12/chess/core/pieces/King.java:14 | pawn < knight = bishop < rook < queen < king in value |
| Pieces.Letter | src/main/java/com/minhduc5a12/chess/core/pieces/King.java:127-129 | the letter of a kind is lower case |
| Pieces.LetterInjective | src/main/java/com/minhduc5a12/chess/core/pieces/King.java:127-129 | different kinds have different letters (k, q, r, b, n, p) |
| Pieces.Notation | src/main/java/com/minhduc5a12/chess/core/pieces/Pawn.java:78-80 | one character, upper case exactly for White, whose lower-case form is the kind's letter |
| Pieces.CompareTo | src/main/java/com/minhduc5a12/chess/core/model/ChessPiece.java:135-137 | -1, 0 or 1, negative exactly when the first value is smaller and zero exactly when the values are equal |
| Pieces.CompareToAntisymmetric | src/main/java/com/minhduc5a12/chess/core/model/ChessPiece.java:135-137 | swapping the pieces negates the result, and the has-moved flag does not affect it |
| Text.ToUpper | src/main/java/com/minhduc5a12/chess/core/model/ChessPosition.java:51 | a lower-case letter goes to its upper-case letter (code point minus 32); any other character is unchanged |
| Text.ToLower | src/main/java/com/minhduc5a12/chess/players/StockfishPlayer.java:131 | an upper-case letter goes to its lower-case letter (code point plus 32); any other character is unchanged |
| Text.CaseRoundTrip | src/main/java/com/minhduc5a12/chess/players/StockfishPlayer.java:131 | lowering an upper-cased lower-case letter gives it back, and the other way round |
| Text.DigitChar | src/main/java/com/minhduc5a12/chess/utils/ChessNotationUtils.java:39 | a decimal digit character whose value is the given digit |
| Text.DigitValue | src/main/java/nhom16oop/core/model/BoardState.java:85-86 | the value below 10 that the digit character stands for; it prints back as that character |
| Text.NatToString | src/main/java/com/minhduc5a12/chess/core/model/ChessPosition.java:60 | one or more decimal digits, a single digit exactly below 10 |
| Text.NatToStringValue | src/main/java/com/minhduc5a12/chess/core/model/ChessPosition.java:60 | the digits denote the number they were written from |
| Text.IntToString | src/main/java/com/minhduc5a12/chess/utils/ChessNotationUtils.java:84-88 | not empty, and it starts with a minus sign exactly for a negative number |
| Text.Fields | src/main/java/nhom16oop/core/model/BoardState.java:73 | at least one field, and no field holds the separator |
| Text.DropTrailingEmpty | src/main/java/nhom16oop/core/model/BoardState.java:73 | a prefix of the fields that ends in a non-empty field, and all that is dropped is empty |
| Text.Split | src/main/java/nhom16oop/core/model/BoardState.java:73-79 | no piece holds the separator; a string without the separator splits to itself alone |
| Text.FieldsOfJoin | src/main/java/nhom16oop/core/model/BoardState.java:73-79 | the fields of parts joined by the separator are the parts, when no part holds it |
| Text.FieldsOfPlain | src/main/java/nhom16oop/core/model/BoardState.java:73 | a string without the separator is a single field |
| Text.SepInJoin | src/main/java/nhom16oop/core/model/BoardState.java:73 | joining two or more parts puts the separator in the string |
| Text.SplitOfJoin | src/main/java/nhom16oop/core/model/BoardState.java:73-79 | String.split undoes the join when no part holds the separator and the last part is not empty |
| JavaInts.Wrap32 | src/main/java/com/minhduc5a12/chess/core/pieces/ChessPieceMap.java:110-115 | the int that 32-bit arithmetic leaves, which is the exact value whenever that fits in an int |
| JavaInts.Wrap32Offset | src/main/java/com/minhduc5a12/chess/core/pieces/ChessPieceMap.java:110-115 | wrapping changes a value by a multiple of 2^32 only |
| JavaInts.Wrap32Congruent | src/main/java/com/minhduc5a12/chess/core/pieces/ChessPieceMap.java:110-115 | values that differ by a multiple of 2^32 wrap to the same int |
| JavaInts.Wrap32Add | src/main/java/com/minhduc5a12/chess/core/pieces/ChessPieceMap.java:110-112 | adding to a wrapped accumulator wraps the exact sum |
| JavaInts.Wrap32Sub | src/main/java/com/minhduc5a12/chess/core/pieces/ChessPieceMap.java:115 | the difference of two wrapped totals wraps the exact difference |
| JavaInts.JavaDiv | src/main/java/nhom16oop/core/model/BoardState.java:203 | integer division truncating toward zero: what is left over has the dividend's sign and is smaller than the divisor |
| JavaInts.JavaDivUnique | src/main/java/nhom16oop/core/model/BoardState.java:203 | any quotient whose remainder has the dividend's sign and is smaller than the divisor is the truncated quotient |
| PieceMaps.Get | src/main/java/com/minhduc5a12/chess/core/pieces/ChessPieceMap.java:27-29 | a piece exactly on an occupied square, and it is the piece stored there (null is None) |
| PieceMaps.ScanCoversBoard | src/main/java/com/minhduc5a12/chess/core/pieces/ChessPieceMap.java:72-78 | the 64-square scan standing in for the HashMap iteration visits every square |
| PieceMaps.KingScan | src/main/java/com/minhduc5a12/chess/core/pieces/ChessPieceMap.java:72-78 | what the scan returns is a king of the colour asked for |
| PieceMaps.KingScanExact | src/main/java/com/minhduc5a12/chess/core/pieces/ChessPieceMap.java:72-78 | the scan returns the first king of the colour from the given index on, and nothing only when there is none |
| PieceMaps.KingPosition | src/main/java/com/minhduc5a12/chess/core/pieces/ChessPieceMap.java:71-79 | any square returned holds a king of that colour |
| PieceMaps.KingPositionExact | src/main/java/com/minhduc5a12/chess/core/pieces/ChessPieceMap.java:71-79 | null exactly when no king of that colour is on the board; otherwise the first one in scan order |
| PieceMaps.KingPositionOfUniqueKing | src/main/java/com/minhduc5a12/chess/core/pieces/ChessPieceMap.java:71-79 | with a single king of the colour, its square is returned whatever the order |
| PieceMaps.KingPiece | src/main/java/com/minhduc5a12/chess/core/pieces/ChessPieceMap.java:87-95 | the piece is found exactly when getKingPosition finds a square, is the king on that square, and has that colour |
| PieceMaps.MaterialStep | src/main/java/com/minhduc5a12/chess/core/pieces/ChessPieceMap.java:105-114 | one more square of the loop keeps the accumulator equal to the wrapped sum |
| PieceMaps.MaterialSplits | src/main/java/com/minhduc5a12/chess/core/pieces/ChessPieceMap.java:105-114 | a side's total is its non-king material plus Integer.MAX_VALUE per king, the non-king part at most 9 per square |
| PieceMaps.MaterialKingsCancel | src/main/java/com/minhduc5a12/chess/core/pieces/ChessPieceMap.java:102-116 | with as many kings on each side, the overflowing king values cancel and the advantage is the exact difference of the other pieces |
| PieceMaps.ChessPieceMap.constructor | src/main/java/com/minhduc5a12/chess/core/pieces/ChessPieceMap.java:21-23 | an empty board |
| PieceMaps.ChessPieceMap.GetPiece | src/main/java/com/minhduc5a12/chess/core/pieces/ChessPieceMap.java:27-29 | the piece on the square, or None |
| PieceMaps.ChessPieceMap.GetPieceByNotation | src/main/java/com/minhduc5a12/chess/core/pieces/ChessPieceMap.java:51-53 | fails with an illegal-argument error exactly when the notation names no square; otherwise the piece on that square |
| PieceMaps.ChessPieceMap.SetPiece | src/main/java/com/minhduc5a12/chess/core/pieces/ChessPieceMap.java:35-37 | the board with the square holding the piece and nothing else changed |
| PieceMaps.ChessPieceMap.RemovePiece | src/main/java/com/minhduc5a12/chess/core/pieces/ChessPieceMap.java:39-41 | the board without the square and nothing else changed |
| PieceMaps.ChessPieceMap.HasPiece | src/main/java/com/minhduc5a12/chess/core/pieces/ChessPieceMap.java:61-63 | true exactly when the square is occupied |
| PieceMaps.ChessPieceMap.GetKingPosition | src/main/java/com/minhduc5a12/chess/core/pieces/ChessPieceMap.java:71-79 | the loop returns the king square that the scan specifies |
| PieceMaps.ChessPieceMap.GetKing | src/main/java/com/minhduc5a12/chess/core/pieces/ChessPieceMap.java:87-95 | the loop returns the king that the scan specifies |
| PieceMaps.ChessPieceMap.GetMaterialAdvantage | src/main/java/com/minhduc5a12/chess/core/pieces/ChessPieceMap.java:102-116 | White's total minus Black's, each accumulated in int arithmetic, as the wrapped exact difference |
| PieceMaps.ChessPieceMap.Clear | src/main/java/com/minhduc5a12/chess/core/pieces/ChessPieceMap.java:123-125 | an empty board |
| PieceMaps.ChessPieceMap.DeepCopy | src/main/java/com/minhduc5a12/chess/core/pieces/ChessPieceMap.java:132-140 | a fresh map holding the same entries |
| Movement.RayConvex | src/main/java/com/minhduc5a12/chess/core/pieces/Bishop.java:35-47 | every step of a ray before an on-board step is on the board too |
| Movement.RayInjective | src/main/java/com/minhduc5a12/chess/core/pieces/Bishop.java:45-46 | different step counts along a direction reach different squares |
| Movement.WalkSound | src/main/java/com/minhduc5a12/chess/core/pieces/Bishop.java:35-47 | every move of a ray starts on the slider's square and ends on an enterable square of the ray with only empty squares before it |
| Movement.WalkComplete | src/main/java/com/minhduc5a12/chess/core/pieces/Bishop.java:35-47 | every enterable on-board square of the ray with only empty squares before it is in the ray's moves |
| Movement.WalkExact | src/main/java/com/minhduc5a12/chess/core/pieces/Bishop.java:35-47 | the moves of one ray are exactly the squares the slider reaches along it: in line, unobstructed, and empty or an enemy |
| Movement.WalkOnEmptyBoard | src/main/java/com/minhduc5a12/chess/core/pieces/Bishop.java:35-47 | on an empty board a ray yields one move per on-board step |
| Movement.DiagonalRay | src/main/java/com/minhduc5a12/chess/core/pieces/Bishop.java:28 | along a diagonal both coordinates move by the step count, so the square colour is kept |
| Movement.WalkDiagonal | src/main/java/com/minhduc5a12/chess/core/pieces/Bishop.java:28-47 | a walk along a diagonal direction stays on that diagonal |
| Movement.TargetDiagonal | src/main/java/com/minhduc5a12/chess/core/pieces/Bishop.java:28-47 | a square reached along a diagonal direction is on a diagonal through the start |
| Movement.SlideDiagonal | src/main/java/com/minhduc5a12/chess/core/pieces/Bishop.java:28-48 | every move of a slide along diagonal directions is diagonal and keeps the square colour |
| Movement.EvenShift | src/main/java/com/minhduc5a12/chess/core/pieces/Bishop.java:28 | adding an even amount keeps the parity |
| Movement.StraightRay | src/main/java/com/minhduc5a12/chess/core/pieces/Rook.java:29 | along a row or a column exactly one coordinate moves |
| Movement.PrefixAllUnit | src/main/java/com/minhduc5a12/chess/core/pieces/Bishop.java:29 | the directions before the last are unit directions as well |
| Movement.SlideHasLast | src/main/java/com/minhduc5a12/chess/core/pieces/Bishop.java:29-48 | a move of the last direction's ray is a move of the slide |
| Movement.SlideKeepsPrefix | src/main/java/com/minhduc5a12/chess/core/pieces/Bishop.java:29-48 | a move of the earlier directions is a move of the slide |
| Movement.SlideSplits | src/main/java/com/minhduc5a12/chess/core/pieces/Bishop.java:29-48 | a move of the slide comes from the earlier directions or from the last one |
| Movement.SlideSound | src/main/java/com/minhduc5a12/chess/core/pieces/Bishop.java:29-48 | every move of the slide is a move of one of its rays |
| Movement.SlideComplete | src/main/java/com/minhduc5a12/chess/core/pieces/Bishop.java:29-48 | every move of any ray is a move of the slide |
| Movement.SlideExact | src/main/java/com/minhduc5a12/chess/core/pieces/Bishop.java:23-51 | the slide's moves are exactly the squares reached along one of the directions |
| Movement.SlideOfFour | src/main/java/com/minhduc5a12/chess/core/pieces/Rook.java:29-49 | a four-direction slide is the four rays one after another |
| Movement.SlideConcat | src/main/java/com/minhduc5a12/chess/core/pieces/Queen.java:28-49 | sliding along two direction tables one after the other is the concatenation of both slides |
| Movement.LeapsExact | src/main/java/com/minhduc5a12/chess/core/pieces/Knight.java:27-38 | the jumps are exactly the offset squares that are on the board and empty or an enemy, at most one per offset |
| Movement.WalkOnEmpty | src/main/java/com/minhduc5a12/chess/core/pieces/Bishop.java:37-38 | past an empty square the ray adds that move and goes on |
| Movement.WalkOnPiece | src/main/java/com/minhduc5a12/chess/core/pieces/Bishop.java:39-44 | an occupied square ends the ray, adding the move exactly when the piece is an enemy |
| Movement.WalkOffBoard | src/main/java/com/minhduc5a12/chess/core/pieces/Bishop.java:35 | leaving the board ends the ray |
| Movement.RayOnBoardBound | src/main/java/com/minhduc5a12/chess/core/pieces/Bishop.java:35 | no more than seven steps of a ray are on the board |
| Movement.RayNext | src/main/java/com/minhduc5a12/chess/core/pieces/Bishop.java:45-46 | the next square of the ray is the current one plus the direction |
| Movement.WalkRay | src/main/java/com/minhduc5a12/chess/core/pieces/Bishop.java:30-47 | the while loop of one direction computes that ray's moves |
| Movement.SlideAll | src/main/java/com/minhduc5a12/chess/core/pieces/Bishop.java:24-50 | the loops over the direction table compute the slide |
| Movement.LeapAll | src/main/java/com/minhduc5a12/chess/core/pieces/Knight.java:23-40 | the loop over the offset table computes the jumps |
| Bishops.BishopMovesExact | src/main/java/com/minhduc5a12/chess/core/pieces/Bishop.java:23-51 | a bishop move is exactly a move to a square reachable along one of the four diagonals |
| Bishops.BishopMovesDiagonal | src/main/java/com/minhduc5a12/chess/core/pieces/Bishop.java:28-47 | every bishop move is diagonal and keeps the square colour |
| Bishops.GenerateBishopMoves | src/main/java/com/minhduc5a12/chess/core/pieces/Bishop.java:23-51 | the generator returns the bishop's slide over its four diagonals, in table order |
| Rooks.RookMovesExact | src/main/java/com/minhduc5a12/chess/core/pieces/Rook.java:23-51 | a rook move is exactly a move to a square reachable along a row or a column |
| Rooks.RookMovesStraight | src/main/java/com/minhduc5a12/chess/core/pieces/Rook.java:29-48 | every rook move stays on its row or on its column and leaves the square |
| Rooks.RookOnEmptyBoard | src/main/java/com/minhduc5a12/chess/core/pieces/Rook.java:23-51 | on an empty board a rook has fourteen moves from any square |
| Rooks.GenerateRookMoves | src/main/java/com/minhduc5a12/chess/core/pieces/Rook.java:23-51 | the generator returns the rook's slide over its four directions, in table order |
| Queens.QueenIsRookThenBishop | src/main/java/com/minhduc5a12/chess/core/pieces/Queen.java:28-49 | the queen's list is the rook's list followed by the bishop's |
| Queens.GenerateQueenMoves | src/main/java/com/minhduc5a12/chess/core/pieces/Queen.java:23-51 | the generator returns the queen's slide over its eight directions, in table order |
| Knights.KnightMovesExact | src/main/java/com/minhduc5a12/chess/core/pieces/Knight.java:22-41 | a knight move is exactly a (1,2) or (2,1) jump to an empty or enemy square, and there are at most eight |
| Knights.KnightFromB1 | src/main/java/com/minhduc5a12/chess/core/pieces/Knight.java:27-38 | from b1 on an empty board the knight reaches c3, a3 and d2, in that order |
| Knights.GenerateKnightMoves | src/main/java/com/minhduc5a12/chess/core/pieces/Knight.java:22-41 | the generator returns the jumps of the offset table, in table order |
| Pawns.Direction | src/main/java/com/minhduc5a12/chess/core/pieces/Pawn.java:34 | one row up for White and one row down for Black |
| Pawns.PawnMovesExact | src/main/java/com/minhduc5a12/chess/core/pieces/Pawn.java:32-75 | a pawn move is exactly a single push onto an empty square, a double push of an unmoved pawn from its start row over two empty squares, a diagonal capture of an enemy piece, or an en-passant capture behind a pawn that has just moved two rows to the square beside it |
| Pawns.PawnMovesForward | src/main/java/com/minhduc5a12/chess/core/pieces/Pawn.java:32-75 | every pawn move ends one row forward, or two rows forward on the same file for an unmoved pawn |
| Pawns.PushMoves | src/main/java/com/minhduc5a12/chess/core/pieces/Pawn.java:38-51 | the forward part of the generator computes the pushes |
| Pawns.CaptureMove | src/main/java/com/minhduc5a12/chess/core/pieces/Pawn.java:56-61 | one capture column yields the capture exactly when it holds an enemy piece |
| Pawns.EnPassantMove | src/main/java/com/minhduc5a12/chess/core/pieces/Pawn.java:64-72 | the en-passant part yields the capture behind the pawn that has just moved two rows, if any |
| Pawns.GeneratePawnMoves | src/main/java/com/minhduc5a12/chess/core/pieces/Pawn.java:32-75 | the generator returns the pushes, then the two captures, then the en-passant capture |
| Kings.ProbeRightMeaning | src/main/java/com/minhduc5a12/chess/core/pieces/King.java:83-90 | with two columns to the right of the king, the kingside simulation loop answers whether the king is safe on its square and the next two; it throws only for a king on column 6 or 7 |
| Kings.ProbeLeftMeaning | src/main/java/com/minhduc5a12/chess/core/pieces/King.java:116-123 | with two columns to the left of the king, the queenside simulation loop answers whether the king is safe on its square and the next two; it throws only for a king on column 0 or 1 |
| Kings.KingsideAsWrittenAgrees | src/main/java/com/minhduc5a12/chess/core/pieces/King.java:60-91 | where canCastleKingside as written returns, its answer is the intended one; it throws only for an unmoved king on the g-file, where the intended answer is no |
| Kings.QueensideAsWrittenAgrees | src/main/java/com/minhduc5a12/chess/core/pieces/King.java:93-124 | where canCastleQueenside as written returns, its answer is the intended one; it throws only for an unmoved king on the b-file, where the intended answer is no |
| Kings.NoBlackPieceNoWhiteCheck | src/main/java/com/minhduc5a12/chess/utils/BoardUtils.java:26-57 | with no black piece on the board, White is never in check |
| Kings.KingsideThrowsOnGFile | src/main/java/com/minhduc5a12/chess/core/pieces/King.java:83-85 | a white king on g1 with an unmoved rook on h1: canCastleKingside throws InvalidPositionException, and the intended check answers no |
| Kings.QueensideThrowsOnBFile | src/main/java/com/minhduc5a12/chess/core/pieces/King.java:116-118 | a white king on b1 with an unmoved rook on a1: canCastleQueenside throws InvalidPositionException, and the intended check answers no |
| Kings.CastleThrowsExactly | src/main/java/com/minhduc5a12/chess/core/pieces/King.java:60-124 | a written castling check throws, always InvalidPositionException, exactly for an unmoved king not in check on the g-file (or b-file) with an unmoved corner rook and both its own square and the edge square safe |
| Kings.KingMovesAsWrittenAgrees | src/main/java/com/minhduc5a12/chess/core/pieces/King.java:22-58 | generateValidMoves as written throws InvalidPositionException exactly where a castling probe overruns, and otherwise returns the intended king moves |
| Kings.SafeMovesSnoc | src/main/java/com/minhduc5a12/chess/core/pieces/King.java:50-55 | filtering one more move keeps the earlier result and adds the move exactly when it leaves the king out of check |
| Kings.SafeMovesExact | src/main/java/com/minhduc5a12/chess/core/pieces/King.java:50-55 | the filtered list holds exactly the candidates after which the king's side is not in check |
| Kings.CandidatesStart | src/main/java/com/minhduc5a12/chess/core/pieces/King.java:28-48 | every candidate starts on the king's square |
| Kings.KingCandidatesExact | src/main/java/com/minhduc5a12/chess/core/pieces/King.java:28-48 | the candidates are exactly the one-square steps onto empty or enemy squares and the castling moves to columns 6 and 2 when allowed |
| Kings.KingMovesExact | src/main/java/com/minhduc5a12/chess/core/pieces/King.java:22-58 | a king move is exactly a step onto an empty or enemy square or an allowed castling move, after which the king is not in check |
| Kings.RunIsEmpty | src/main/java/com/minhduc5a12/chess/core/pieces/King.java:77-81 | the emptiness loop answers whether every square of the row between the two columns is empty |
| Kings.PathIsSafe | src/main/java/com/minhduc5a12/chess/core/pieces/King.java:83-90 | the simulation loop answers whether the king is safe on its square and the next two in the direction, no where those leave the board |
| Kings.CastleKingside | src/main/java/com/minhduc5a12/chess/core/pieces/King.java:60-91 | canCastleKingside as intended: not in check, king and rook on column 7 unmoved, the squares between empty, and the king safe on its square and the next two |
| Kings.CastleQueenside | src/main/java/com/minhduc5a12/chess/core/pieces/King.java:93-124 | canCastleQueenside as intended, mirrored onto column 0 |
| Kings.ProbeRightLoop | src/main/java/com/minhduc5a12/chess/core/pieces/King.java:83-89 | the written simulation loop: false at the first unsafe square, InvalidPositionException past column 7, else true |
| Kings.ProbeLeftLoop | src/main/java/com/minhduc5a12/chess/core/pieces/King.java:116-122 | the written simulation loop: false at the first unsafe square, InvalidPositionException before column 0, else true |
| Kings.CastleKingsideAsWritten | src/main/java/com/minhduc5a12/chess/core/pieces/King.java:60-91 | canCastleKingside as written, thrown exception included |
| Kings.CastleQueensideAsWritten | src/main/java/com/minhduc5a12/chess/core/pieces/King.java:93-124 | canCastleQueenside as written, thrown exception included |
| Kings.FilterSafe | src/main/java/com/minhduc5a12/chess/core/pieces/King.java:50-55 | the loop keeps exactly the moves after which the colour is not in check, in their order |
| Kings.GenerateKingMoves | src/main/java/com/minhduc5a12/chess/core/pieces/King.java:22-58 | the generator returns the king's candidates filtered by the check test |
| Attacks.NonKingMovesStart | src/main/java/com/minhduc5a12/chess/utils/BoardUtils.java:48 | every move generated for a non-king piece starts on its square |
| Attacks.GenerateNonKingMoves | src/main/java/com/minhduc5a12/chess/utils/BoardUtils.java:48 | the dispatch on the piece kind returns that kind's generator result |
| Attacks.SimulateExact | src/main/java/com/minhduc5a12/chess/utils/BoardUtils.java:95-114 | the simulated board holds the moved piece on the end square, nothing on the start square or on the square of a pawn taken in passing, and otherwise the input board |
| Attacks.InCheckExact | src/main/java/com/minhduc5a12/chess/utils/BoardUtils.java:26-57 | the side's king is in check exactly when the opposing king found by the scan touches it or a non-king enemy piece has a move ending on it |
| Attacks.NoKingNoCheck | src/main/java/com/minhduc5a12/chess/utils/BoardUtils.java:27-30 | a side with no king on the board is never in check |
| Attacks.SimulateMove | src/main/java/com/minhduc5a12/chess/utils/BoardUtils.java:95-114 | a fresh map holding the simulated board; the input map is not changed |
| Attacks.PieceAttacks | src/main/java/com/minhduc5a12/chess/utils/BoardUtils.java:48-54 | the inner loop answers whether one of the enemy piece's moves ends on the king's square |
| Attacks.IsKingInCheck | src/main/java/com/minhduc5a12/chess/utils/BoardUtils.java:26-57 | the method's answer is the check predicate |
| Attacks.AnyAttacker | src/main/java/com/minhduc5a12/chess/utils/BoardUtils.java:40-56 | the loop over the entries answers whether any non-king piece of the attacking colour attacks the square |
| Legality.GeneratedStart | src/main/java/com/minhduc5a12/chess/core/model/ChessPiece.java:115 | every move generated for a piece starts on its square |
| Legality.GenerateValidMoves | src/main/java/com/minhduc5a12/chess/core/model/ChessPiece.java:115 | the dispatch on the piece's kind returns that kind's generator result |
| Legality.ValidMoveIsSafeMove | src/main/java/com/minhduc5a12/chess/core/model/ChessPiece.java:95-106 | a move is valid exactly when it is one of the piece's generated moves that the check filter keeps |
| Legality.IsValidMove | src/main/java/com/minhduc5a12/chess/core/model/ChessPiece.java:95-106 | the loop answers whether the move is generated for the piece and leaves its side out of check |
| Legality.EscapeExact | src/main/java/com/minhduc5a12/chess/utils/BoardUtils.java:64-75 | some piece of the side has a move that leaves it out of check exactly when the side has a valid move |
| Legality.MateAndStalemateMeaning | src/main/java/com/minhduc5a12/chess/utils/BoardUtils.java:59-77 | checkmate is check with no valid move for the side, stalemate is no valid move out of check, and the two never hold together (also src/main/java/com/minhduc5a12/chess/utils/BoardUtils.java:202-223) |
| Legality.PieceEscape | src/main/java/com/minhduc5a12/chess/utils/BoardUtils.java:67-73 | the inner loop answers whether one of the piece's moves leaves the side out of check |
| Legality.AnyEscape | src/main/java/com/minhduc5a12/chess/utils/BoardUtils.java:64-75 | the outer loop answers whether some piece of the side has such a move |
| Legality.IsCheckmate | src/main/java/com/minhduc5a12/chess/utils/BoardUtils.java:59-77 | the method's answer is the checkmate predicate |
| Legality.CheckmatePathNeverOverruns | src/main/java/com/minhduc5a12/chess/utils/BoardUtils.java:59-61 | isCheckmate generates moves only for a side in check, and for a king in check the written castling probe never overruns, so the king generator as written gives the intended moves there |
| Legality.IsStalemate | src/main/java/com/minhduc5a12/chess/utils/BoardUtils.java:202-223 | the method's answer is the stalemate predicate |
| Legality.ValidUnderCheckAgrees | src/main/java/com/minhduc5a12/chess/utils/BoardUtils.java:79-93 | every valid move passes isMoveValidUnderCheck; on the piece's own generated moves the two agree whether or not its side is in check; an empty start square is refused |
| Legality.IsMoveValidUnderCheck | src/main/java/com/minhduc5a12/chess/utils/BoardUtils.java:79-93 | the method's answer is the predicate: no piece is false, out of check it is isValidMove, in check it is whether the simulated move escapes |
| Legality.ScanStepAt | src/main/java/com/minhduc5a12/chess/utils/BoardUtils.java:132 | the scan's j-th square is a square exactly when that square's index is j |
| Legality.SquareAtIndex | src/main/java/com/minhduc5a12/chess/utils/BoardUtils.java:132 | the index of the scan's j-th square is j |
| Legality.OthersCountHeavy | src/main/java/com/minhduc5a12/chess/utils/BoardUtils.java:132-151 | the "other" counter of a colour is zero exactly when the counted squares hold no pawn, rook or queen of that colour |
| Legality.HeavyPieceNotDead | src/main/java/com/minhduc5a12/chess/utils/BoardUtils.java:154-156 | any pawn, rook or queen on the board rules out a dead position |
| Legality.DeadShape | src/main/java/com/minhduc5a12/chess/utils/BoardUtils.java:125-200 | a dead position holds only kings, knights and bishops, two to four pieces in all |
| Legality.TallyOfKings | src/main/java/com/minhduc5a12/chess/utils/BoardUtils.java:132-151 | on a board of kings alone nothing is counted |
| Legality.BareKingsDead | src/main/java/com/minhduc5a12/chess/utils/BoardUtils.java:161-164 | two bare kings are a dead position |
| Legality.TallyOfOne | src/main/java/com/minhduc5a12/chess/utils/BoardUtils.java:132-151 | with one piece besides kings, the counters hold that piece once the scan has passed it |
| Legality.OneMinorDead | src/main/java/com/minhduc5a12/chess/utils/BoardUtils.java:167-176 | king and one knight, or king and one bishop, against a bare king is a dead position |
| Legality.TallyOfBishops | src/main/java/com/minhduc5a12/chess/utils/BoardUtils.java:132-151 | with one bishop of each colour besides kings, the scan counts each once it has passed it |
| Legality.LastBishopOfOne | src/main/java/com/minhduc5a12/chess/utils/BoardUtils.java:181-189 | the bishop-finding loop returns a colour's only bishop once it has passed it |
| Legality.OppositeBishopsDeadIffSameShade | src/main/java/com/minhduc5a12/chess/utils/BoardUtils.java:179-197 | king and bishop against king and bishop is dead exactly when the two bishops stand on squares of one shade |
| Legality.CountPieces | src/main/java/com/minhduc5a12/chess/utils/BoardUtils.java:132-151 | the counting loop computes the tallies of the scan |
| Legality.FindBishops | src/main/java/com/minhduc5a12/chess/utils/BoardUtils.java:181-189 | the finding loop returns the last bishop of each colour that the scan meets |
| Legality.IsDeadPosition | src/main/java/com/minhduc5a12/chess/utils/BoardUtils.java:125-200 | the method's answer is the dead-position function, with its cases taken in the source's order |
| Fen.FenCharRoundTrip | src/main/java/nhom16oop/core/model/BoardState.java:284-297 | the letter written for a piece is read back as that piece, with has-moved cleared |
| Fen.AppendKeepsShape | src/main/java/com/minhduc5a12/chess/utils/ChessNotationUtils.java:115-119 | writing a run digit and a piece letter after text that ends in a letter keeps digits apart and adds no separator |
| Fen.RankScanShape | src/main/java/com/minhduc5a12/chess/utils/ChessNotationUtils.java:107-121 | the rank text so far ends in a letter or is empty, holds no separator and no two digits in a row, and the pending run counts the empty squares just passed |
| Fen.RankStringShape | src/main/java/com/minhduc5a12/chess/utils/ChessNotationUtils.java:107-124 | each rank field holds no separator, no two digits in a row, and is not empty |
| Fen.RowPartSkip | src/main/java/nhom16oop/core/model/BoardState.java:84-94 | columns that hold nothing add nothing to the row read back |
| Fen.RowPartNext | src/main/java/nhom16oop/core/model/BoardState.java:88-92 | placing the piece of column k extends the row read back by that column |
| Fen.ParseSnoc | src/main/java/nhom16oop/core/model/BoardState.java:84-94 | reading one more character continues from where the text before it left off |
| Fen.ParseRun | src/main/java/nhom16oop/core/model/BoardState.java:85-86 | a digit read back moves the column counter past that many empty squares |
| Fen.ParsePiece | src/main/java/nhom16oop/core/model/BoardState.java:87-92 | a piece letter read back places the piece, has-moved cleared, on the current column and moves on by one |
| Fen.RankScanGap | src/main/java/com/minhduc5a12/chess/utils/ChessNotationUtils.java:112-113 | the pending run covers exactly the empty columns just before the current one |
| Fen.ScanColumnParses | src/main/java/com/minhduc5a12/chess/utils/ChessNotationUtils.java:108-121 | one more column of the writer keeps the written text reading back as the columns' pieces |
| Fen.PieceFlushesRun | src/main/java/com/minhduc5a12/chess/utils/ChessNotationUtils.java:114-120 | a piece after a pending run is read back on its own square |
| Fen.RankScanParses | src/main/java/com/minhduc5a12/chess/utils/ChessNotationUtils.java:108-121 | the text written for the first n columns reads back as their pieces, stopping before the pending run |
| Fen.RankRoundTrip | src/main/java/nhom16oop/core/model/BoardState.java:80-95 | a rank field read back fills exactly that row with its pieces and ends on column 8 |
| Fen.JoinAppend | src/main/java/com/minhduc5a12/chess/utils/ChessNotationUtils.java:125-127 | joining one more part adds the separator and the part |
| Fen.PlacementIsJoin | src/main/java/com/minhduc5a12/chess/utils/ChessNotationUtils.java:106-128 | the placement field is the rank fields, rank 8 first, joined by '/' |
| Fen.PlacementSplits | src/main/java/nhom16oop/core/model/BoardState.java:79 | the placement field splits on '/' into the eight rank fields, rank 8 first, and holds no space |
| Fen.JoinNoSpace | src/main/java/com/minhduc5a12/chess/utils/ChessNotationUtils.java:106-128 | joining parts without spaces by a separator other than a space gives no space |
| Fen.JoinCons | src/main/java/com/minhduc5a12/chess/utils/ChessNotationUtils.java:125-127 | joining a part before others puts the separator between them |
| Fen.RanksRoundTrip | src/main/java/nhom16oop/core/model/BoardState.java:80-95 | the rank fields read back row by row give the board's pieces with has-moved cleared |
| Fen.RowsNext | src/main/java/nhom16oop/core/model/BoardState.java:80-95 | the rows read so far plus the next full row are the rows up to that one |
| Fen.CastlingFieldShape | src/main/java/com/minhduc5a12/chess/utils/ChessNotationUtils.java:136-149 | the castling field is not empty, holds no space, and holds each of K, Q, k and q exactly when that right holds |
| Fen.IntToStringShape | src/main/java/com/minhduc5a12/chess/utils/ChessNotationUtils.java:84-88 | a clock field is not empty and holds no space |
| Fen.EnPassantFieldShape | src/main/java/com/minhduc5a12/chess/utils/ChessNotationUtils.java:153-158 | the en-passant field is not empty and holds no space |
| Fen.FenFourSplits | src/main/java/com/minhduc5a12/chess/utils/ChessNotationUtils.java:100-161 | getFenFourParts splits on spaces into the placement, side, castling and en-passant fields |
| Fen.FenStringSplits | src/main/java/com/minhduc5a12/chess/utils/ChessNotationUtils.java:23-91 | getFEN is getFenFourParts followed by the two clocks, and splits on spaces into its six fields |
| Fen.FenRoundTrip | src/main/java/nhom16oop/core/model/BoardState.java:70-110 | reading back what getFenFourParts wrote gives the same pieces with has-moved cleared, the same side to move and the same castling rights |
| Fen.FenFourDeterminesPosition | src/main/java/com/minhduc5a12/chess/utils/ChessNotationUtils.java:100-161 | equal keys come only from positions with the same kinds and colours on every square, side to move, castling rights and en-passant target |
| Fen.RankScanIgnoresMoved | src/main/java/com/minhduc5a12/chess/utils/ChessNotationUtils.java:107-121 | the has-moved flags do not show in a rank field |
| Fen.PlacementIgnoresMoved | src/main/java/com/minhduc5a12/chess/utils/ChessNotationUtils.java:106-128 | the has-moved flags do not show in the placement field |
| Fen.FenFourIgnoresMoved | src/main/java/com/minhduc5a12/chess/utils/ChessNotationUtils.java:100-161 | positions that differ only in has-moved flags have the same key |
| Fen.FenFourEqualIff | src/main/java/com/minhduc5a12/chess/utils/ChessNotationUtils.java:100-161 | two keys are equal exactly when the positions agree on everything but the has-moved flags |
| Fen.ParseRankErrSticks | src/main/java/nhom16oop/core/model/BoardState.java:84-94 | once a prefix of a rank fails to read, the whole rank fails with that error |
| Fen.ParseRanksErrSticks | src/main/java/nhom16oop/core/model/BoardState.java:80-95 | once the first rows fail to read, every longer read fails with that error |
| NotationUtils.WritePlacement | src/main/java/com/minhduc5a12/chess/utils/ChessNotationUtils.java:104-128 | the placement loops write exactly the placement field, which splits on '/' into the eight rank fields |
| NotationUtils.GetFenFourParts | src/main/java/com/minhduc5a12/chess/utils/ChessNotationUtils.java:100-161 | the key written is placement, side, castling and en-passant target, and splits on spaces into exactly those four fields |
| NotationUtils.WriteCastling | src/main/java/com/minhduc5a12/chess/utils/ChessNotationUtils.java:135-149 | the castling field is K, Q, k, q for the flags that hold, or "-", never empty and without spaces |
| NotationUtils.GetFen | src/main/java/com/minhduc5a12/chess/utils/ChessNotationUtils.java:23-91 | getFEN is the four-field key followed by the halfmove clock and the fullmove number, six space-separated fields |
| BoardStates.CornerNames | src/main/java/com/minhduc5a12/chess/core/model/ChessPosition.java:50-52 | the names H1, A1, H8 and A8 look up the four corner squares |
| BoardStates.MapRightsFails | src/main/java/nhom16oop/core/model/BoardState.java:47-68 | the map constructor fails on a non-empty map exactly when a king of either colour is missing (IllegalStateException) or a written castling probe of the white or the black king runs off the board (InvalidPositionException), White examined before Black; otherwise each flag is the intended castling answer |
| BoardStates.GFileBoardConstructorThrows | src/main/java/nhom16oop/core/model/BoardState.java:50-62 | a white king on g1 beside its unmoved rook, with no black king: the map constructor throws InvalidPositionException from White's probe, not the IllegalStateException of the missing king |
| BoardStates.EnPassantTargetMeaning | src/main/java/nhom16oop/core/model/BoardState.java:201-208 | a target exists exactly after a pawn went two rows, and it is the square on its file between its start and end rows |
| BoardStates.NoTargetBeforeRelocation | src/main/java/nhom16oop/core/model/BoardState.java:201-208 | while the end square is still empty there is no target |
| BoardStates.RightsAfterMeaning | src/main/java/nhom16oop/core/model/BoardState.java:116-147 | each castling flag survives a move exactly when it held and the move moved neither that colour's king nor that colour's rook off the flag's corner |
| BoardStates.BoardState.WithMap | src/main/java/nhom16oop/core/model/BoardState.java:26-35 | a fresh state: White to move, clocks 0 and 1, no target, every castling flag set |
| BoardStates.BoardState.FromMap | src/main/java/nhom16oop/core/model/BoardState.java:47-68 | BoardState(ChessPieceMap) shares the map, runs the written canCastle calls, fails exactly when MapRights does and with its exception, and otherwise takes its castling flags from MapRights |
| BoardStates.BoardState.ReadRank | src/main/java/nhom16oop/core/model/BoardState.java:80-95 | reading one rank field places exactly what ParseRank reads, or fails with its error |
| BoardStates.BoardState.FromFen | src/main/java/nhom16oop/core/model/BoardState.java:70-110 | BoardState(String) fails exactly when ParseFen does and otherwise holds the board, side and castling flags ParseFen reads, with the default clocks, no last move and no target |
| BoardStates.BoardState.SetLastMove | src/main/java/nhom16oop/core/model/BoardState.java:116-147 | records the move, sets the target EnPassantTarget gives and the flags RightsAfter gives, and leaves side and clocks alone |
| BoardStates.BoardState.UpdateEnPassantTargetSquare | src/main/java/nhom16oop/core/model/BoardState.java:201-208 | only the target changes, to EnPassantTarget of the last move |
| BoardStates.BoardState.SetCurrentPlayerColor | src/main/java/nhom16oop/core/model/BoardState.java:157-159 | only the side to move changes |
| BoardStates.BoardState.ClearHalfmoveClock | src/main/java/nhom16oop/core/model/BoardState.java:169-171 | only the halfmove clock changes, to 0 |
| BoardStates.BoardState.IncrementHalfmoveClock | src/main/java/nhom16oop/core/model/BoardState.java:177-179 | only the halfmove clock changes, by one with 32-bit wrap-around |
| BoardStates.BoardState.IncrementFullmoveNumber | src/main/java/nhom16oop/core/model/BoardState.java:188-190 | only the fullmove number changes, by one with 32-bit wrap-around |
| BoardStates.BoardState.Equals | src/main/java/nhom16oop/core/model/BoardState.java:245-254 | two states are equal exactly when their keys are, that is when they agree on pieces (has-moved aside), side, castling flags and target |
| BoardStates.BoardState.HashCode | src/main/java/nhom16oop/core/model/BoardState.java:233-235 | the String hash of the key, so equal states hash alike |
| BoardStates.BoardState.DeepCopy | src/main/java/nhom16oop/core/model/BoardState.java:256-269 | fails exactly when the map constructor would on this board, with its exception (IllegalStateException for a missing king, InvalidPositionException for an overrunning castling probe); otherwise a fresh state and fresh map holding the same squares and every field copied, with the same key |
| BoardStates.BoardState.UpdateFrom | src/main/java/nhom16oop/core/model/BoardState.java:271-281 | every field but the map is taken from the other state |
| BoardManagers.PlacedExact | src/main/java/com/minhduc5a12/chess/game/BoardManager.java:133-139 | after n files each placed file holds its back-row piece and a pawn on the two rows, unmoved, and every other square is as before |
| BoardManagers.PlacedSquares | src/main/java/com/minhduc5a12/chess/game/BoardManager.java:133-139 | the occupied squares after n files are the old ones plus the two rows of the placed files |
| BoardManagers.PlacedSize | src/main/java/com/minhduc5a12/chess/game/BoardManager.java:133-139 | on two empty rows, placing n files adds exactly 2n pieces |
| BoardManagers.PlacedStepSize | src/main/java/com/minhduc5a12/chess/game/BoardManager.java:135-138 | one more file adds exactly two pieces when both rows were empty |
| BoardManagers.TwoNewSquares | src/main/java/com/minhduc5a12/chess/game/BoardManager.java:136-137 | two stores on distinct empty squares grow the map by two |
| BoardManagers.InitialBoardExact | src/main/java/com/minhduc5a12/chess/game/BoardManager.java:113-117 | the starting board holds, square by square, the standard array, White on rows 1 and 2 and Black on rows 8 and 7 |
| BoardManagers.InitialBoardSize | src/main/java/com/minhduc5a12/chess/game/BoardManager.java:113-117 | the starting board holds exactly 32 pieces |
| BoardManagers.InitialKings | src/main/java/com/minhduc5a12/chess/game/BoardManager.java:113-117 | on the starting board the kings are found on e1 and e8 |
| BoardManagers.MarkedMovedKeepsKey | src/main/java/com/minhduc5a12/chess/game/BoardManager.java:90-96 | marking a piece as moved changes neither the occupied squares nor the repetition key |
| BoardManagers.BoardManager.constructor | src/main/java/com/minhduc5a12/chess/game/BoardManager.java:28-31 | a fresh manager over an empty map in the default state, with no recorded positions |
| BoardManagers.BoardManager.SetPiece | src/main/java/com/minhduc5a12/chess/game/BoardManager.java:39-41 | the square now holds the piece, nothing else changes |
| BoardManagers.BoardManager.SetPieceAt | src/main/java/com/minhduc5a12/chess/game/BoardManager.java:50-52 | coordinates off the board fail with an InvalidPositionException and change nothing; otherwise the square holds the piece |
| BoardManagers.BoardManager.GetPiece | src/main/java/com/minhduc5a12/chess/game/BoardManager.java:60-62 | the piece on the square, or none |
| BoardManagers.BoardManager.GetPieceByNotation | src/main/java/com/minhduc5a12/chess/game/BoardManager.java:72-74 | fails exactly on a malformed name, and otherwise gives the piece on the named square |
| BoardManagers.BoardManager.RemovePiece | src/main/java/com/minhduc5a12/chess/game/BoardManager.java:81-83 | the square is emptied, nothing else changes |
| BoardManagers.BoardManager.UpdatePieceMovement | src/main/java/com/minhduc5a12/chess/game/BoardManager.java:90-96 | the piece on the end square, if any, is marked as moved |
| BoardManagers.BoardManager.UpdateBoardStateHistory | src/main/java/com/minhduc5a12/chess/game/BoardManager.java:101-108 | the current key is counted once more and no other count changes |
| BoardManagers.BoardManager.SetupInitialPosition | src/main/java/com/minhduc5a12/chess/game/BoardManager.java:113-117 | the board becomes the standard starting board |
| BoardManagers.BoardManager.Clear | src/main/java/com/minhduc5a12/chess/game/BoardManager.java:122-124 | the board becomes empty |
| BoardManagers.BoardManager.PlaceInitialPieces | src/main/java/com/minhduc5a12/chess/game/BoardManager.java:133-139 | the loop places exactly the eight files Placed describes |
| BoardManagers.BoardManager.SetLastMove | src/main/java/com/minhduc5a12/chess/game/BoardManager.java:159-162 | the state records the move, its en-passant target and the castling flags RightsAfter leaves, and nothing else changes |
| BoardManagers.IsThreefoldRepetition | src/main/java/com/minhduc5a12/chess/utils/BoardUtils.java:117-123 | true exactly when the current key has been recorded at least three times |
| GameHistories.SnapKeyIsKey | src/main/java/com/minhduc5a12/chess/history/GameHistoryManager.java:64 | a snapshot is counted under the key of the state it was taken from |
| GameHistories.Bumped | src/main/java/com/minhduc5a12/chess/history/GameHistoryManager.java:64 | merge(k, 1, sum) raises k's count by one, keeps every count positive and changes no other key |
| GameHistories.Lowered | src/main/java/com/minhduc5a12/chess/history/GameHistoryManager.java:73 | computeIfPresent lowers k's count by one, drops the entry that held 1, leaves an absent key absent, and changes no other key |
| GameHistories.LoweredUndoesBumped | src/main/java/com/minhduc5a12/chess/history/GameHistoryManager.java:59-75 | decrementing right after incrementing the same key gives back the table |
| GameHistories.TalliesStep | src/main/java/com/minhduc5a12/chess/history/GameHistoryManager.java:59-75 | a table that counts a multiset of keys still counts it after bumping (one more occurrence) and after lowering (one fewer, if any) |
| GameHistories.GameHistoryManager.constructor | src/main/java/com/minhduc5a12/chess/history/GameHistoryManager.java:19-23 | empty stacks and an empty table |
| GameHistories.GameHistoryManager.SaveStateForUndo | src/main/java/com/minhduc5a12/chess/history/GameHistoryManager.java:25-35 | null is ignored; a copy that fails, as MapRights says (a missing king or an overrunning castling probe), changes nothing; otherwise a fresh copy equal to the state is pushed on the undo stack and its key counted once more, the redo stack untouched |
| GameHistories.GameHistoryManager.SaveStateForRedo | src/main/java/com/minhduc5a12/chess/history/GameHistoryManager.java:37-45 | null is ignored; otherwise a fresh copy equal to the state is pushed on the redo stack, the table and undo stack untouched |
| GameHistories.GameHistoryManager.ClearRedoStack | src/main/java/com/minhduc5a12/chess/history/GameHistoryManager.java:55-57 | the redo stack is emptied, nothing else changes |
| GameHistories.GameHistoryManager.IncrementBoardStateCount | src/main/java/com/minhduc5a12/chess/history/GameHistoryManager.java:59-66 | null is ignored; otherwise the table becomes Bumped at the state's key |
| GameHistories.GameHistoryManager.DecrementBoardStateCount | src/main/java/com/minhduc5a12/chess/history/GameHistoryManager.java:68-75 | null is ignored; otherwise the table becomes Lowered at the state's key |
| GameActions.Switched | src/main/java/com/minhduc5a12/chess/game/GameActionManager.java:138-145 | the opponent moves next, and the full-move number goes up by one (32-bit) exactly when that is White |
| GameActions.SwitchedTwice | src/main/java/com/minhduc5a12/chess/game/GameActionManager.java:138-145 | two switches give the same side back with the full-move number one higher, whichever side started |
| GameActions.ParseStockfishMove | src/main/java/com/minhduc5a12/chess/game/GameActionManager.java:161-170 | a null or short string, or a malformed square, is an IllegalArgumentException; otherwise the move whose notation is the first four characters |
| GameActions.ParseStockfishMoveRoundTrip | src/main/java/com/minhduc5a12/chess/game/GameActionManager.java:161-170 | every move's four-character notation parses back to that move |
| GameActions.ParseAgreesWithEngine | src/main/java/com/minhduc5a12/chess/game/GameActionManager.java:161-170 | the hint parser and the engine player accept the same strings and read the same move from them |
| GameActions.Restoration | src/main/java/com/minhduc5a12/chess/game/GameActionManager.java:209-210 | a restored state holds the snapshot's squares, move, side and clocks, with the en-passant target and castling flags setLastMove derives again |
| GameActions.RestorationIdempotent | src/main/java/com/minhduc5a12/chess/game/GameActionManager.java:209-210 | restoring an already restored state changes nothing |
| GameActions.RestorationFindsTarget | src/main/java/com/minhduc5a12/chess/game/GameActionManager.java:209-210 | a snapshot recorded after a double step without a target gets one when restored, so its key changes |
| GameActions.GameActionManager.constructor | src/main/java/com/minhduc5a12/chess/game/GameActionManager.java:37-43 | the manager works on the given board and history managers |
| GameActions.GameActionManager.AllApartPush | src/main/java/com/minhduc5a12/chess/game/GameActionManager.java:191-199 | pushing a separate snapshot keeps every stacked snapshot apart from the live state |
| GameActions.GameActionManager.AllApartPop | src/main/java/com/minhduc5a12/chess/game/GameActionManager.java:79 | popping leaves the rest apart, and the popped snapshot is apart from the live state |
| GameActions.GameActionManager.SwitchTurn | src/main/java/com/minhduc5a12/chess/game/GameActionManager.java:138-145 | side and full-move number become Switched of the old ones; move, target, flags and halfmove clock stay |
| GameActions.GameActionManager.CopyPieces | src/main/java/com/minhduc5a12/chess/game/GameActionManager.java:200-205 | after clearing and copying every entry, the live map equals the snapshot's map |
| GameActions.GameActionManager.RecordUndo | src/main/java/com/minhduc5a12/chess/game/GameActionManager.java:192-196 | the live key and then the restored key are counted once fewer, and the live state is pushed on the redo stack; a failing copy throws after the first decrement |
| GameActions.GameActionManager.RecordRedo | src/main/java/com/minhduc5a12/chess/game/GameActionManager.java:192-199 | the live key is counted once fewer, then once more as it is pushed on the undo stack, and the restored key once more; a failing copy throws after the decrement |
| GameActions.GameActionManager.ApplySnapshot | src/main/java/com/minhduc5a12/chess/game/GameActionManager.java:201-210 | the live state becomes Restoration of the snapshot |
| GameActions.GameActionManager.RestoreBoardState | src/main/java/com/minhduc5a12/chess/game/GameActionManager.java:191-217 | the bookkeeping of RecordUndo or RecordRedo, then the live state becomes Restoration of the snapshot, unless a copy failed, which leaves the live state as it was |
| GameActions.GameActionManager.UndoMove | src/main/java/com/minhduc5a12/chess/game/GameActionManager.java:72-85 | nothing when the game has ended or the undo stack is empty; otherwise the top is popped and restored, the old live state goes on the redo stack, and the live key and then the restored key are counted once fewer; a failing copy surfaces as an error after the first decrement, with the redo stack and the live state unchanged |
| GameActions.GameActionManager.RedoMove | src/main/java/com/minhduc5a12/chess/game/GameActionManager.java:90-108 | nothing when the game has ended or the redo stack is empty; otherwise the top is popped and restored, the old live state goes on the undo stack, the live key is counted once fewer and then once more, and the restored key once more; a failure is caught after the decrement and reported as no redo, with the undo stack and the live state unchanged |
| GameActions.GameActionManager.ResignGame | src/main/java/com/minhduc5a12/chess/game/GameActionManager.java:113-125 | nothing once the game has ended; otherwise the opponent of the side to move wins |
| Engines.PromotionPiece | src/main/java/com/minhduc5a12/chess/players/StockfishPlayer.java:130-141 | q, r, b and n in either case give that kind, any other letter a queen, of the engine's colour and unmoved |
| Engines.PromotionLetters | src/main/java/com/minhduc5a12/chess/players/StockfishPlayer.java:130-141 | each promotion kind is read back from its letter in lower and upper case |
| Engines.IsCastlingExact | src/main/java/com/minhduc5a12/chess/players/StockfishPlayer.java:123-128 | true exactly for a king-style two-file move along rank 1 or 8 from the e-file |
| Engines.DecodeEngineMove | src/main/java/com/minhduc5a12/chess/players/StockfishPlayer.java:60-69 | fails exactly on a short string or a malformed square; otherwise the move named by the first four characters, with a promotion piece exactly when there is a fifth character |
| Engines.EngineRequest | src/main/java/com/minhduc5a12/chess/players/StockfishPlayer.java:53-100 | a move reaches movePiece exactly when the game is on, the engine answered, the answer decodes and its start square holds a piece |
| Engines.EngineRequestRoundTrip | src/main/java/com/minhduc5a12/chess/players/StockfishPlayer.java:53-100 | an answer in long algebraic form, with or without a promotion letter, reaches movePiece as that move and that piece |
| JavaInts.Wrap64 | src/main/java/nhom16oop/game/ChessTimer.java:58 | the long that 64-bit arithmetic leaves: the exact value when it fits, and always congruent to it modulo 2^64 |
| JavaInts.JavaRem | src/main/java/nhom16oop/game/ChessTimer.java:176 | the remainder completing the truncating quotient, with the sign of the dividend and smaller than the divisor in magnitude |
| Timers.TicksCountDown | src/main/java/nhom16oop/game/ChessTimer.java:56-82 | a running clock from t >= 0 loses exactly 100 ms per tick until it reaches zero, and then stays at zero |
| Timers.RunsOutAfter | src/main/java/nhom16oop/game/ChessTimer.java:56-82 | a clock holding t > 0 runs out on exactly the ceil(t/100)-th tick, never earlier |
| Timers.Pad2Value | src/main/java/nhom16oop/game/ChessTimer.java:177 | "%02d" of 0..99 is two digits that read back as the number |
| Timers.FormatTimeExample | src/main/java/nhom16oop/game/ChessTimer.java:173-178 | 125000 ms is shown as 02:05 |
| Timers.FormatTimeReadsBack | src/main/java/nhom16oop/game/ChessTimer.java:173-178 | below 100 minutes the text is MM:SS, seconds below 60, and minutes*60+seconds is the whole seconds of the clock |
| Timers.ChessTimer.constructor | src/main/java/nhom16oop/game/ChessTimer.java:35-44 | both clocks start at initialMinutes*60 (int) *1000 (long), both stopped |
| Timers.ChessTimer.Tick | src/main/java/nhom16oop/game/ChessTimer.java:56-82 | a running clock loses 100 ms and stops at zero, reporting the time-out exactly on the tick that reaches zero or below; a stopped clock and the other clock are untouched; at most one clock runs |
| Timers.ChessTimer.StartTimer | src/main/java/nhom16oop/game/ChessTimer.java:90-106 | the chosen clock runs, its Swing timer is on, the other clock is stopped, the times are untouched |
| Timers.ChessTimer.StopTimer | src/main/java/nhom16oop/game/ChessTimer.java:113-121 | only the chosen clock's running flag is cleared |
| Timers.ChessTimer.StopAllTimers | src/main/java/nhom16oop/game/ChessTimer.java:126-136 | both clocks and both Swing timers are stopped, the times untouched |
| Timers.ChessTimer.Reset | src/main/java/nhom16oop/game/ChessTimer.java:141-148 | everything is stopped and both clocks are back to the initial time |
| Timers.ChessTimer.GetTimeRemaining | src/main/java/nhom16oop/game/ChessTimer.java:156-158 | the chosen side's remaining time |
| Timers.ChessTimer.SetTimeRemaining | src/main/java/nhom16oop/game/ChessTimer.java:159-165 | only the chosen side's time changes |
| Timers.ChessTimer.IsTimeLow | src/main/java/nhom16oop/game/ChessTimer.java:186-189 | true exactly when the side has less than 30 seconds left |
| Timers.InitialTimeExact | src/main/java/nhom16oop/game/ChessTimer.java:36 | up to 35791 minutes the int product does not wrap and the clocks start at minutes*60000 ms |
| Controllers.DialogPiece | src/main/java/nhom16oop/game/ChessController.java:458-477 | the dialog's "Rook", "Bishop" and "Knight" give those kinds, anything else a queen, of the pawn's colour and unmoved |
| Controllers.Mover | src/main/java/nhom16oop/game/ChessController.java:214-222 | a pawn reaching row 8 or row 1 is replaced by the piece handed in, or else by a dialog piece of its colour; any other mover is placed as it is |
| Controllers.RelocatedExact | src/main/java/nhom16oop/game/ChessController.java:230-234 | the end square holds the placed piece marked moved, the start square is empty, every other square is unchanged |
| Controllers.RelocatedIsSimulated | src/main/java/nhom16oop/game/ChessController.java:230-234 | for a non-capturing-in-passing move the board played is the board the check test simulated, with the mover marked moved |
| Controllers.CastledSteps | src/main/java/nhom16oop/game/ChessController.java:341-347 | the castling board is the four map updates and the two has-moved marks in source order, a missing rook stored as an empty square |
| Controllers.CastledExact | src/main/java/nhom16oop/game/ChessController.java:321-347 | with the rook present, king and rook stand on their targets marked moved, the squares they left are empty, nothing else changes |
| Controllers.PassantShapeIsPawnRule | src/main/java/nhom16oop/game/ChessController.java:383-405 | performEnPassant's shape guards accept exactly the moves the pawn generator's en-passant rule produces |
| Controllers.PassantIsSimulated | src/main/java/nhom16oop/game/ChessController.java:407-431 | the board played is the simulated board minus the captured pawn, whose safety was checked, with the mover marked moved |
| Controllers.EndOutcomeMeaning | src/main/java/nhom16oop/game/ChessController.java:677-703 | outside puzzle mode the game goes on exactly when the side to move has a valid move, the clock is below 50 and the material suffices; checkmate means in check with no valid move; stalemate is never in check |
| Controllers.PuzzleOutcomeMeaning | src/main/java/nhom16oop/game/ChessController.java:644-675 | in puzzle mode the human's opponent mated solves it; otherwise a counter at the limit fails it; at the limit one of the two always happens |
| Controllers.RemainingMoves | src/main/java/nhom16oop/game/ChessController.java:933-935 | Math.max(0, max - current) in int arithmetic is never negative |
| Controllers.RemainingMovesMeaning | src/main/java/nhom16oop/game/ChessController.java:933-935 | for non-negative counts the remaining moves are max - current, and none remain exactly when the limit is reached |
| Controllers.PuzzleSideOfFields | src/main/java/nhom16oop/game/ChessController.java:147-149 | a FEN made of space-free fields gives the human White exactly when its second field is "w" |
| Controllers.JudgedKeeps | src/main/java/nhom16oop/game/ChessController.java:641-707 | the end check only sets the ended, completed and failed flags, each exactly when the outcome calls for it, and never clears one |
| Controllers.AfterExecuteJudged | src/main/java/nhom16oop/game/ChessController.java:239-289 | after executeMove the position, record and counter are those the move left, and the game has ended exactly when the repetition or the end check ended it |
| Controllers.ExecuteBoard | src/main/java/nhom16oop/game/ChessController.java:224-234 | executeMove moves the piece, marked moved, empties the start square, records the move, clears the castling flags it rules out, and leaves an en-passant target only when the end square held a pawn before the move and the move spans two rows |
| Controllers.ExecuteRepetition | src/main/java/nhom16oop/game/ChessController.java:239-249 | a position already recorded three times with the mover still to move ends the game before the clock, record, turn and counter change |
| Controllers.ExecuteBookkeeping | src/main/java/nhom16oop/game/ChessController.java:253-286 | otherwise the clock is reset by a capture or pawn move and raised otherwise, the new position is recorded with the mover to move, the turn passes, and the puzzle counter goes up exactly when puzzle mode hands the move to the non-human side |
| Controllers.CastlingRights | src/main/java/nhom16oop/game/ChessController.java:337 | castling clears both flags of the castling side and keeps the other side's |
| Controllers.CastlingOnHomeRow | src/main/java/nhom16oop/game/ChessController.java:299-371 | with the king on its home row the guards ensure the rook; king and rook land on their targets marked moved, the clock goes up, the position is recorded with the castling side to move, the turn passes, the puzzle counter stays |
| Controllers.PassantEffects | src/main/java/nhom16oop/game/ChessController.java:424-443 | the pawn lands on the target marked moved, the captured pawn and the start square are emptied, the position is recorded with the capturing side to move, the clock is cleared, the turn passes, the puzzle counter stays |
| Controllers.Dispatch | src/main/java/nhom16oop/game/ChessController.java:486-517 | a move goes anywhere only when its start square holds a piece, the game is on, the move is among the current valid moves and leaves the king safe |
| Controllers.DispatchRoutes | src/main/java/nhom16oop/game/ChessController.java:496-517 | a pawn's diagonal step onto an empty square goes to performEnPassant, whose guards then match the pawn's en-passant rule, and an executed move is never a king's two-file move |
| Controllers.StartingBoard | src/main/java/nhom16oop/game/ChessController.java:84-85 | a fresh board manager on the standard starting array, White to move, every flag set, recorded once |
| Controllers.StartingArray | src/main/java/nhom16oop/game/ChessController.java:174-177 | the standard starting board holds the starting array square by square |
| Controllers.ChessController.constructor | src/main/java/nhom16oop/game/ChessController.java:76-86 | a player-versus-player game on the starting array, White to move, that position recorded once, empty stacks, not ended |
| Controllers.ChessController.SetPlayerVsPlayer | src/main/java/nhom16oop/game/ChessController.java:95-104 | only the mode changes |
| Controllers.ChessController.SetPlayerVsAI | src/main/java/nhom16oop/game/ChessController.java:111-125 | only the mode and the human's colour change |
| Controllers.ChessController.SetPuzzleMode | src/main/java/nhom16oop/game/ChessController.java:134-169 | puzzle mode with the given limit, a zero counter, cleared flags, and the human on the side the FEN's second field names |
| Controllers.ChessController.Clear | src/main/java/nhom16oop/game/ChessController.java:182-185 | every square is emptied, nothing else changes |
| Controllers.ChessController.SetGameEnded | src/main/java/nhom16oop/game/ChessController.java:925-927 | only the ended flag changes |
| Controllers.ChessController.HandleTimeOut | src/main/java/nhom16oop/game/ChessController.java:790-803 | the game ends; the other side wins exactly when it had not ended before |
| Controllers.ChessController.ResignGame | src/main/java/com/minhduc5a12/chess/game/GameActionManager.java:113-125 | the game ends; the opponent of the side to move wins exactly when it had not ended before |
| Controllers.ChessController.GetPuzzleRemainingMoves | src/main/java/nhom16oop/game/ChessController.java:933-935 | the remaining moves RemainingMoves gives |
| Controllers.ChessController.CheckGameEndConditions | src/main/java/nhom16oop/game/ChessController.java:641-707 | the outcome is that of the position as it stands, and the flags become Judged of the game |
| Controllers.ChessController.EndCheck | src/main/java/nhom16oop/game/ChessController.java:644-703 | the tests in source order give the outcome EndOutcome names, with no effect |
| Controllers.ChessController.SaveUndo | src/main/java/nhom16oop/game/ChessController.java:224 | saveStateForUndo of the live state, failing exactly when its copy does (MapRights fails: a missing king or an overrunning castling probe), and the stacks stay apart from the live state |
| Controllers.ChessController.PlayMove | src/main/java/nhom16oop/game/ChessController.java:226-234 | setLastMove then the relocation: the view becomes Played |
| Controllers.ChessController.Clock | src/main/java/nhom16oop/game/ChessController.java:253-257 | the halfmove clock is cleared or raised by one, nothing else changes |
| Controllers.ChessController.Record | src/main/java/nhom16oop/game/ChessController.java:260 | the live key is recorded once more, nothing else changes |
| Controllers.ChessController.Switch | src/main/java/nhom16oop/game/ChessController.java:261 | the turn switches, nothing else changes |
| Controllers.ChessController.PuzzleTick | src/main/java/nhom16oop/game/ChessController.java:279-286 | in puzzle mode the counter goes up when the side now to move is not the human |
| Controllers.ChessController.ExecuteMove | src/main/java/nhom16oop/game/ChessController.java:197-289 | the redo stack is cleared; a copy of the state that fails as MapRights says throws before the move; otherwise it returns true and the view becomes AfterExecute, the old state pushed on the undo stack |
| Controllers.ChessController.PlayAndJudge | src/main/java/nhom16oop/game/ChessController.java:226-289 | after the save, the view becomes AfterExecute |
| Controllers.ChessController.Play | src/main/java/nhom16oop/game/ChessController.java:214-286 | the promoted mover is played, and the view becomes Executed; the repetition flag is the threefold test on the played position |
| Controllers.ChessController.Step | src/main/java/nhom16oop/game/ChessController.java:226-286 | the move played and then either the repetition ending alone or the clock, record, turn and counter, in that order |
| Controllers.ChessController.Advance | src/main/java/nhom16oop/game/ChessController.java:253-286 | the clock, record, turn and counter, in that order |
| Controllers.ChessController.CastlePieces | src/main/java/nhom16oop/game/ChessController.java:321-347 | the board becomes Castled, and a missing rook is a NullPointerException at the second has-moved mark |
| Controllers.ChessController.CastlingGuards | src/main/java/nhom16oop/game/ChessController.java:300-317 | true exactly when CastlingAllowed holds, and then the king's square found |
| Controllers.ChessController.PerformCastling | src/main/java/nhom16oop/game/ChessController.java:299-371 | false and nothing changed unless the guards hold; then the redo stack is cleared, the state saved, and the view becomes AfterCastling, with a missing rook surfacing as an error |
| Controllers.ChessController.Castle | src/main/java/nhom16oop/game/ChessController.java:335-371 | after the save the view becomes AfterCastling, true when the rook was there and a NullPointerException otherwise |
| Controllers.ChessController.MoveCastlingPieces | src/main/java/nhom16oop/game/ChessController.java:337-362 | the view becomes Castling, with a NullPointerException exactly when the rook is missing |
| Controllers.ChessController.PlaceCastlingPieces | src/main/java/nhom16oop/game/ChessController.java:337-347 | the view becomes CastlingMoved, with a NullPointerException exactly when the rook is missing |
| Controllers.ChessController.CaptureInPassing | src/main/java/nhom16oop/game/ChessController.java:428-431 | the board becomes PassantBoard |
| Controllers.ChessController.PerformEnPassant | src/main/java/nhom16oop/game/ChessController.java:380-448 | false and nothing changed unless every guard holds; then the redo stack is cleared, the state saved, and the view becomes AfterPassant |
| Controllers.ChessController.PassantGuards | src/main/java/nhom16oop/game/ChessController.java:381-412 | true exactly when PassantAllowed holds, without changing the board |
| Controllers.ChessController.CaptureAndJudge | src/main/java/nhom16oop/game/ChessController.java:424-445 | after the save the view becomes AfterPassant |
| Controllers.ChessController.Capture | src/main/java/nhom16oop/game/ChessController.java:424-443 | the view becomes Passant |
| Controllers.ChessController.MovePiece | src/main/java/nhom16oop/game/ChessController.java:486-529 | the route is Dispatch; a refused move and a false result leave everything unchanged; each route's successful result leaves the view its transition gives |
| Controllers.ChessController.Routing | src/main/java/nhom16oop/game/ChessController.java:487-506 | the route Dispatch names for the live board |
| Controllers.ChessController.TryCastling | src/main/java/nhom16oop/game/ChessController.java:497-505 | false exactly when castling is not allowed for the king's colour and side, and then nothing changes; true leaves AfterCastling |
| Controllers.ChessController.TryEnPassant | src/main/java/nhom16oop/game/ChessController.java:506-513 | false exactly when en passant is not allowed, and then nothing changes; true leaves AfterPassant |

## Left out

- The Swing user interface, sounds, listeners and dialogs are not modelled. The answer of the promotion dialog is the parameter `selected`. Hint highlighting and `showHint` are display only.
- The executor that runs `checkGameEndConditions` is modelled as a synchronous call at the end of each move. In castling the source submits the check before `switchTurn`, and the puzzle counter races the check; the model fixes one order. The `checkGameEndConditionsAsync` at the end of `restoreBoardState` is not modelled.
- The Stockfish process is not modelled: starting it, writing commands, reading lines. The engine's answer is an `Option<string>` parameter. The AI follow-up moves in `movePiece` and `setPlayerVsAI` are not modelled, because they depend on that process.
- Saving and loading games to files is I/O and is not modelled.
- `BoardManager.loadFromFEN` is not part of this model. `Controllers.ChessController.SetPuzzleMode` therefore sets the mode and the counters without replacing the board.
- The timer glue is not modelled: `initializeTimer`, pause and resume, `switchTimer` and the listeners. The Swing `Timer` is a running flag, and one timer event is the explicit method `Tick`.
- Pieces, positions and moves are values. The `deepCopy` methods of `ChessPosition`, `ChessMove` and the pieces are therefore identities and have no member. `setHasMoved` becomes a new value of the piece. No live piece object is shared between two boards in the source, so aliasing between boards is not modelled.
- A `Pawn` with no attached board state is not modelled. The last move it reads is a parameter of the generators.
- `Pawns.EnPassant` yields no move when the square behind the pawn is off the board. There Java's `ChessPosition` constructor would throw `InvalidPositionException`. This needs a pawn on its last row, which promotion rules out in play.
- `Controllers.ChessController.ExecuteMove` requires a piece on the start square. The source would throw a `NullPointerException` there, and no caller reaches that case.
- In castling, Java writes a `null` value into the map when the corner is empty. The model stores an empty square and reports `NullPointer` where the source dereferences it.
- Hash collisions of `BoardState` keys are not modelled. `BoardManager`'s `HashMap` is always passed the same mutable state object as its key, so an entry matches by its stored hash and by identity, and `equals` is never consulted. Two positions whose four-field keys have colliding `String` hashes are therefore merged into one count in the source. The model's `multiset<string>` keeps them apart.
- `GameHistories.GameHistoryManager`'s counts are maintained and proved like the rest. No repetition decision reads them.
- The check sound chosen after a move, the getters, `shutdown` and logging have no effect on the game and are not modelled.
- The 32-bit `int` clocks are not modelled past wrap-around. The half-move clock and full-move number wrap through `Wrap32`, but no lemma says anything about a game of more than 2^31 moves.
- KingCandidatesExact: uses the intended castling test, so on a board where the written probe of an unmoved king on the g-file or b-file runs off the board (`Kings.ProbeOverruns`) it lists the candidates where `King.generateValidMoves` throws `InvalidPositionException`. `Kings.KingMovesAsWrittenAgrees` states the written behaviour and that it agrees everywhere else.
- KingMovesExact: the same gap as KingCandidatesExact. It gives a move list on the boards where the source's generator throws.
- GenerateKingMoves: calls the intended `CastleKingside` and `CastleQueenside`, so it returns a move list where the source throws on the same boards. Propagating that exception would give every caller a `Result`.
- Legality.GenerateValidMoves: inherits the gap of GenerateKingMoves through the king's generator. On the boards of `Kings.ProbeOverruns` the source throws where the model answers as if the castling test were bounded.
- Legality.IsValidMove: inherits the gap of GenerateKingMoves through the king's generator. On the boards of `Kings.ProbeOverruns` the source throws where the model answers as if the castling test were bounded.
- Legality.ValidMoveIsSafeMove: inherits the gap of GenerateKingMoves through the king's generator. On the boards of `Kings.ProbeOverruns` the source throws where the model answers as if the castling test were bounded.
- Legality.EscapeExact: inherits the gap of GenerateKingMoves through the king's generator. On the boards of `Kings.ProbeOverruns` the source throws where the model answers as if the castling test were bounded.
- Legality.PieceEscape: inherits the gap of GenerateKingMoves through the king's generator. On the boards of `Kings.ProbeOverruns` the source throws where the model answers as if the castling test were bounded.
- Legality.AnyEscape: inherits the gap of GenerateKingMoves through the king's generator. On the boards of `Kings.ProbeOverruns` the source throws where the model answers as if the castling test were bounded.
- Legality.IsStalemate: inherits the gap of GenerateKingMoves through the king's generator. On the boards of `Kings.ProbeOverruns` the source throws where the model answers as if the castling test were bounded.
- Legality.IsMoveValidUnderCheck: inherits the gap of GenerateKingMoves. When the side is not in check it asks `isValidMove`, which on the boards of `Kings.ProbeOverruns` throws `InvalidPositionException` in the source (for example `Kings.GFileBoard` with the king move g1-f1), where the model answers.
- Legality.ValidUnderCheckAgrees: equates isMoveValidUnderCheck with the bounded `Legality.IsValidMove`, so it inherits the same gap on the boards of `Kings.ProbeOverruns`.
- Legality.MateAndStalemateMeaning: inherits the gap of GenerateKingMoves through the king's generator. On the boards of `Kings.ProbeOverruns` the source throws where the model answers as if the castling test were bounded.
- Controllers.ChessController.CastlingGuards uses the intended castling test too. Its answer differs from the source only if the first king the scan finds is an unmoved king on the g-file asked for kingside castling or on the b-file asked for queenside castling.
- Controllers.ChessController.PerformCastling: inherits the gap of CastlingGuards.
- Controllers.ChessController.TryCastling: inherits the gap of CastlingGuards.
- Controllers.ChessController.CheckGameEndConditions: inherits the gap of Legality.IsStalemate. In the source that exception would be raised inside the executor's task, after the move. Its checkmate test has no such gap (`Legality.CheckmatePathNeverOverruns`).
- Text.ToUpper: ASCII letters only. Java's `String.toUpperCase` also maps non-ASCII lower-case letters, which the model leaves unchanged. Lookup answers the same either way, because only ASCII letters name squares.
- Text.ToLower: ASCII letters only. Java's `Character.toLowerCase` also maps non-ASCII upper-case letters (U+00C0 to U+00E0, U+212A KELVIN SIGN to 'k'), which the model leaves unchanged.
- BoardStates.BoardState.ReadRank: the character classes are ASCII only. Java's `Character.isDigit` and `getNumericValue` read other Unicode digits by their value (U+0663 as 3), and `isUpperCase`/`toLowerCase` read U+212A as a white King. The model takes one empty column for each such character.
- BoardStates.BoardState.FromFen: inherits the ASCII restriction of ReadRank. For example `8/8/8/8/8/8/8/\u212A7 w - -` puts a white King on a1 in Java and leaves a1 empty in the model.

## Findings

| source | as written | input that shows it | evidently intended | confidence | as-written member | corrected member |
|---|---|---|---|---|---|---|
| src/main/java/com/minhduc5a12/chess/core/pieces/King.java:83-90, 116-123 | The loop that simulates the king's walk probes the column two beyond the king's target square without a bounds check. An unmoved king on the g-file (or b-file), with an unmoved rook in the corner and an empty path, makes it build an off-board position, which throws `InvalidPositionException`. | A white king on g1 with an unmoved rook on h1 (`Kings.KingsideThrowsOnGFile`); a king on b1 with a rook on a1 (`Kings.QueensideThrowsOnBFile`) | the answer false: no castling | not executed | Kings.KingsideAsWrittenAgrees, Kings.KingsideThrowsOnGFile, Kings.QueensideAsWrittenAgrees, Kings.QueensideThrowsOnBFile, Kings.CastleThrowsExactly, Kings.KingMovesAsWrittenAgrees, BoardStates.GFileBoardConstructorThrows | Kings.CastleKingside, Kings.CastleQueenside |
