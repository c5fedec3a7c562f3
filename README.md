# Offline chess: engine and FEN codec in Dafny

This project models the two computational cores of an offline chess app.

**The engine** (`app/.../engine`) is modelled by the modules `EngineModels`, `EngineBoard` and `EngineMoveGen`.
- A position is 64 cells plus the side to move, four castling flags and an optional en-passant target.
- `make` applies a fully described move, and `isSquareAttacked` is the attack oracle.
- `kingSquare` finds a king, and `start` builds the initial position.
- The move generator produces pseudo-legal moves per piece and filters them to the legal ones.
- The screen uses one status rule on top of that: checkmate, stalemate, or "side to move is thinking".

A position is never changed in place: `make` copies the cells, writes into the copy and returns a new position. The model therefore keeps `Board` as a value. Each operation that works by loops and writes is a `method`, proved equal to a specification function:
- `Make` uses a 64-cell `array` and is proved equal to `Applied`.
- `IsSquareAttacked` is proved equal to `Attacked`.
- `PseudoLegal` is proved equal to `Pseudo`, whose moves come grouped by origin square in ascending cell index, and `LegalMoves` to `Legal`.

Lemmas then state what those functions mean:
- which cells a move changes;
- how castling rights shrink;
- when an en-passant target appears;
- which moves the generator produces, stated move by move and independent of generation order;
- what the legal-move filter keeps and when it fails;
- when the status is checkmate, stalemate or "thinking".

**The FEN codec** (`chess-core`) is modelled by the modules `CoreModels`, `Text`, `CoreFen` and `CoreFenMethods`.
- `fenToState` reads Forsyth-Edwards Notation into a `GameState`, and `stateToFen` prints one.
- `CoreFen` gives each as a function, and `CoreFenMethods` gives each as the loop it is. The parser writes into a 64-cell `array`, and the printer appends to a string builder.
- `Text` models the Kotlin string operations the codec relies on: `trim()`, `split(Regex("\\s+"))`, `split("/")`, `toString()` and `toIntOrNull()`.
- The main results are:
  - exactly which inputs the parser accepts;
  - what it builds from them, rank by rank and field by field;
  - the round trip `ParseFen(RenderFen(g)) == Some(g)` for every valid state;
  - that reading a printed state is stable;
  - the start position's round trip, stated over all six fields.

Failures are modelled as `None`. This covers every `require`/`error` in the parser, an array index past the board, and the engine's "King not found". The engine puts rank 0 on Black's side; chess-core puts a1 at (file 0, rank 0).

## Model

| member | source | states |
|---|---|---|
| CoreModels.NewSquare | chess-core/src/main/java/com/timur/chessiq/core/model/ChessModels.kt:8-10 | Building a square succeeds exactly when file and rank are both in 0..7, and the square keeps them |
| CoreModels.NewGameState | chess-core/src/main/java/com/timur/chessiq/core/model/ChessModels.kt:25-34 | Building a state succeeds exactly when the board has 64 cells; the state then holds the given fields and is valid |
| CoreModels.Defaults | chess-core/src/main/java/com/timur/chessiq/core/model/ChessModels.kt:18-31 | By default all four castling rights are held, there is no en-passant square, the halfmove clock is 0 and the fullmove number is 1 |
| Text.RegexSpaceIsWhitespace | chess-core/src/main/java/com/timur/chessiq/core/fen/Fen.kt:22 | Every character the `\s` class matches is whitespace that `trim()` removes |
| Text.TrimStart | chess-core/src/main/java/com/timur/chessiq/core/fen/Fen.kt:22 | The result is a suffix of the input; what was dropped is whitespace; the result does not start with whitespace |
| Text.TrimEnd | chess-core/src/main/java/com/timur/chessiq/core/fen/Fen.kt:22 | The result is a prefix of the input; what was dropped is whitespace; the result does not end with whitespace |
| Text.Trim | chess-core/src/main/java/com/timur/chessiq/core/fen/Fen.kt:22 | `trim()` returns the infix of the input left after its leading whitespace, everything before and after that infix is whitespace, and a non-empty result starts and ends with non-whitespace |
| Text.TrimSolidEnds | chess-core/src/main/java/com/timur/chessiq/core/fen/Fen.kt:22 | A text that starts and ends with non-whitespace is unchanged by `trim()` |
| Text.Word | chess-core/src/main/java/com/timur/chessiq/core/fen/Fen.kt:22 | The longest prefix free of `\s` characters; it ends at the input's end or at a `\s` character |
| Text.Fields | chess-core/src/main/java/com/timur/chessiq/core/fen/Fen.kt:22 | Every field between runs of `\s` is non-empty and holds no `\s` character |
| Text.Parts | chess-core/src/main/java/com/timur/chessiq/core/fen/Fen.kt:22 | Trimming and splitting on `\s+` gives at least one part |
| Text.JoinSix | chess-core/src/main/java/com/timur/chessiq/core/fen/Fen.kt:104 | Six fields joined with spaces form the printer's template string |
| Text.FieldsOfJoin | chess-core/src/main/java/com/timur/chessiq/core/fen/Fen.kt:22 | The `\s`-separated fields of non-empty, whitespace-free strings joined by single spaces are those strings |
| Text.PartsOfJoin | chess-core/src/main/java/com/timur/chessiq/core/fen/Fen.kt:22 | Trimming and splitting the space-joined list of non-empty, whitespace-free strings gives the list back |
| Text.Split | chess-core/src/main/java/com/timur/chessiq/core/fen/Fen.kt:27 | Splitting on a character gives at least one piece, and no piece contains that character |
| Text.JoinSplit | chess-core/src/main/java/com/timur/chessiq/core/fen/Fen.kt:27 | Joining the pieces with the delimiter gives the text back |
| Text.SplitJoin | chess-core/src/main/java/com/timur/chessiq/core/fen/Fen.kt:27 | Splitting undoes joining pieces that do not contain the delimiter |
| Text.DigitValue | chess-core/src/main/java/com/timur/chessiq/core/fen/Fen.kt:33 | A digit's value lies in 0..9 |
| Text.DigitChar | chess-core/src/main/java/com/timur/chessiq/core/fen/Fen.kt:84 | The character written for a count 0..9 is a digit that reads back as that count |
| Text.NatText | chess-core/src/main/java/com/timur/chessiq/core/fen/Fen.kt:104 | The decimal text of a natural number is non-empty and all digits |
| Text.IntText | chess-core/src/main/java/com/timur/chessiq/core/fen/Fen.kt:104 | `Int.toString()` is non-empty, ends in a digit and contains no whitespace and no `/` |
| Text.ParseInt | chess-core/src/main/java/com/timur/chessiq/core/fen/Fen.kt:70-71 | `toIntOrNull()` only ever yields a 32-bit value |
| Text.NatTextValue | chess-core/src/main/java/com/timur/chessiq/core/fen/Fen.kt:104 | The digits printed for `n` denote `n` |
| Text.ParseIntSpec | chess-core/src/main/java/com/timur/chessiq/core/fen/Fen.kt:70-71 | `toIntOrNull()` succeeds exactly on an optional `-` or `+` followed by at least one digit whose signed value fits in 32 bits, and then yields that signed value |
| Text.ParseIntText | chess-core/src/main/java/com/timur/chessiq/core/fen/Fen.kt:70-71 | Reading back the printed text of any 32-bit integer gives that integer |
| CoreFen.PieceToChar | chess-core/src/main/java/com/timur/chessiq/core/fen/Fen.kt:14-17 | The letter printed for a piece maps back to that piece in the parser's table, and is neither a digit, whitespace nor `/` |
| CoreFen.CharToPieceInverse | chess-core/src/main/java/com/timur/chessiq/core/fen/Fen.kt:5-12 | The letter table is one-to-one: a known letter is the printed letter of its piece |
| CoreFen.Nones | chess-core/src/main/java/com/timur/chessiq/core/fen/Fen.kt:25 | `n` cells, all empty |
| CoreFen.ParseRow | chess-core/src/main/java/com/timur/chessiq/core/fen/Fen.kt:29-44 | A row that parses leaves a 64-cell board |
| CoreFen.ParseRows | chess-core/src/main/java/com/timur/chessiq/core/fen/Fen.kt:29-45 | Rows that parse leave a 64-cell board |
| CoreFen.ContinueRow | chess-core/src/main/java/com/timur/chessiq/core/fen/Fen.kt:29-45 | Finishing a row and the rows after it leaves a 64-cell board |
| CoreFen.ParseEnPassant | chess-core/src/main/java/com/timur/chessiq/core/fen/Fen.kt:61-69 | An en-passant square that is read lies on the board |
| CoreFen.ParseFields | chess-core/src/main/java/com/timur/chessiq/core/fen/Fen.kt:21-74 | Every state the parser builds is valid: 64 cells and an on-board en-passant square |
| CoreFen.RankTextsFromAt | chess-core/src/main/java/com/timur/chessiq/core/fen/Fen.kt:79-89 | Ranks are printed from the top: rank `r` is printed `rank - r` places after rank `rank` |
| CoreFen.Place | chess-core/src/main/java/com/timur/chessiq/core/fen/Fen.kt:34-38 | Writing a row's pieces keeps the board's size |
| CoreFen.PlaceAt | chess-core/src/main/java/com/timur/chessiq/core/fen/Fen.kt:33-38 | Cell by cell, a written row's piece replaces the cell under it, and every other cell (including under a digit's empty run) is kept |
| CoreFen.PlaceNones | chess-core/src/main/java/com/timur/chessiq/core/fen/Fen.kt:33 | A digit's run of empty cells writes nothing and only moves the file on |
| CoreFen.ParseRowSpec | chess-core/src/main/java/com/timur/chessiq/core/fen/Fen.kt:29-44 | A row parses exactly when it holds only digits, piece letters and `/` and describes exactly the files left in its rank; it then writes its pieces into that rank and keeps every other cell |
| CoreFen.ParseRowsSpec | chess-core/src/main/java/com/timur/chessiq/core/fen/Fen.kt:25-45 | The rows parse exactly when each describes 8 cells; rank `r` of the board is then what row `7 - r` describes |
| CoreFen.ParseFieldsAccepts | chess-core/src/main/java/com/timur/chessiq/core/fen/Fen.kt:21-74 | The parser accepts exactly when there are at least 4 fields, 8 placement rows of 8 cells each, a side `w` or `b`, and an en-passant field `-` or a square a1..h8; castling and counters never reject |
| CoreFen.ParseFieldsBuilds | chess-core/src/main/java/com/timur/chessiq/core/fen/Fen.kt:21-74 | The built state has: each rank as its row describes; White to move exactly for `w`; each right exactly when its letter occurs; no en-passant square exactly for `-`, otherwise the square spelt by file letter and rank digit; and counters equal to their integer value, or 0 and 1 when missing or not integers |
| CoreFen.RunText | chess-core/src/main/java/com/timur/chessiq/core/fen/Fen.kt:84-88 | A run of 1..8 empty cells is printed as its length, a single digit |
| CoreFen.CellsTextPrinted | chess-core/src/main/java/com/timur/chessiq/core/fen/Fen.kt:80-88 | Printing cells after a pending run writes only digits and piece letters, never two digits in a row, and it reads back as the run's empty cells followed by the cells |
| CoreFen.RankTextSpec | chess-core/src/main/java/com/timur/chessiq/core/fen/Fen.kt:80-88 | A printed rank reads back as exactly that rank's eight cells and is free of whitespace and `/` |
| CoreFen.PrintedRanks | chess-core/src/main/java/com/timur/chessiq/core/fen/Fen.kt:79-89 | Every printed rank, at its place from the top, reads back as its own rank's cells |
| CoreFen.SplitPrinted | chess-core/src/main/java/com/timur/chessiq/core/fen/Fen.kt:27 | Eight printed ranks joined with `/` split back into those ranks |
| CoreFen.PlacementSolid | chess-core/src/main/java/com/timur/chessiq/core/fen/Fen.kt:78-90 | The printed placement is non-empty and free of whitespace, so it stays one field |
| CoreFen.ShortFieldsSolid | chess-core/src/main/java/com/timur/chessiq/core/fen/Fen.kt:92-102 | The printed side, castling and en-passant fields are non-empty and free of whitespace |
| CoreFen.PlacementRoundTrip | chess-core/src/main/java/com/timur/chessiq/core/fen/Fen.kt:25-45 | Reading back the printed placement gives 8 rows that parse to the same board |
| CoreFen.RenderedParts | chess-core/src/main/java/com/timur/chessiq/core/fen/Fen.kt:104 | The printed text splits back into its six fields |
| CoreFen.SideRead | chess-core/src/main/java/com/timur/chessiq/core/fen/Fen.kt:47-51 | The printed side to move reads back as itself |
| CoreFen.CastlingRead | chess-core/src/main/java/com/timur/chessiq/core/fen/Fen.kt:53-59 | The printed castling field (`KQkq` subset or `-`) reads back as the same rights |
| CoreFen.EpRead | chess-core/src/main/java/com/timur/chessiq/core/fen/Fen.kt:61-69 | The printed en-passant field reads back as the same optional square |
| CoreFen.RoundTrip | chess-core/src/main/java/com/timur/chessiq/core/fen/Fen.kt:76-105 | Reading what the printer writes for any valid state gives that state back |
| CoreFen.ReparseStable | chess-core/src/main/java/com/timur/chessiq/core/fen/Fen.kt:21-74 | A state read from a FEN is valid, and printing it gives a FEN that reads as the same state |
| CoreFen.StartState | chess-core/src/main/java/com/timur/chessiq/core/fen/Fen.kt:108 | The initial position, White to move with all rights held, is a valid state |
| CoreFen.StartRendered | chess-core/src/main/java/com/timur/chessiq/core/fen/Fen.kt:108 | Printing the initial position writes the start FEN |
| CoreFen.StartFenRoundTrip | chess-core/src/test/java/com/timur/chessiq/core/fen/FenTest.kt:9-15 | The start FEN reads as the initial position with White to move, and printing it gives the start FEN again, all six fields |
| CoreFenMethods.ReadRow | chess-core/src/main/java/com/timur/chessiq/core/fen/Fen.kt:29-44 | The row loop succeeds exactly when the row parses, and the array then holds the parsed board |
| CoreFenMethods.ReadBoard | chess-core/src/main/java/com/timur/chessiq/core/fen/Fen.kt:25-45 | Reading the placement fails unless there are 8 rows, and otherwise gives what the rows parse to |
| CoreFenMethods.ReadEnPassant | chess-core/src/main/java/com/timur/chessiq/core/fen/Fen.kt:61-69 | The en-passant block computes the field's reading, failing where building the square fails |
| CoreFenMethods.FenToState | chess-core/src/main/java/com/timur/chessiq/core/fen/Fen.kt:21-74 | `fenToState` computes the parser function, whose acceptance, result and round trip are proved above |
| CoreFenMethods.AppendRank | chess-core/src/main/java/com/timur/chessiq/core/fen/Fen.kt:80-88 | The file loop appends exactly the printed rank to the builder |
| CoreFenMethods.WritePlacement | chess-core/src/main/java/com/timur/chessiq/core/fen/Fen.kt:78-90 | The rank loop writes the eight printed ranks from the top, separated by `/` |
| CoreFenMethods.WriteCastling | chess-core/src/main/java/com/timur/chessiq/core/fen/Fen.kt:94-100 | The castling field lists the held rights in the order `KQkq`, or is `-` |
| CoreFenMethods.StateToFen | chess-core/src/main/java/com/timur/chessiq/core/fen/Fen.kt:76-105 | `stateToFen` computes the printer function, which the parser inverts |
| EngineModels.Side.Other | app/src/main/java/com/timur/chessiq/engine/Models.kt:3 | The other side differs from this side |
| EngineModels.OtherIsInvolution | app/src/main/java/com/timur/chessiq/engine/Models.kt:3 | Taking the other side twice gives the side back |
| EngineModels.FromIdx | app/src/main/java/com/timur/chessiq/engine/Models.kt:10 | For an index in 0..63, `fromIdx` gives an on-board square whose index is that index |
| EngineModels.FromIdxOfIdx | app/src/main/java/com/timur/chessiq/engine/Models.kt:9-10 | `fromIdx` undoes `idx` on the board |
| EngineModels.IdxInjective | app/src/main/java/com/timur/chessiq/engine/Models.kt:9 | Distinct on-board squares have distinct indices |
| EngineModels.MoveDefaults | app/src/main/java/com/timur/chessiq/engine/Models.kt:13-21 | A move built from two squares has no promotion and every flag false |
| EngineBoard.CastleCellAfter | app/src/main/java/com/timur/chessiq/engine/Board.kt:18-25 | After castling, the king's target holds what stood on file 4 of the home rank and the rook's target holds what stood on the rook's corner; both origins are empty and every other cell is kept |
| EngineBoard.CastleCells | app/src/main/java/com/timur/chessiq/engine/Board.kt:18-25 | The castling block leaves every cell as the move's result prescribes |
| EngineBoard.OrdinaryCells | app/src/main/java/com/timur/chessiq/engine/Board.kt:26-35 | The ordinary-move block leaves every cell as the move's result prescribes |
| EngineBoard.MoverFlags | app/src/main/java/com/timur/chessiq/engine/Board.kt:37-48 | Each right survives the mover exactly when it was held and the mover is neither that side's king nor its rook leaving that corner |
| EngineBoard.CaptureFlags | app/src/main/java/com/timur/chessiq/engine/Board.kt:49-55 | Each right survives the capture exactly when it was held and no rook of that side is captured on that corner |
| EngineBoard.EnPassantAfterMove | app/src/main/java/com/timur/chessiq/engine/Board.kt:57-66 | The new en-passant target is the move's prescribed one |
| EngineBoard.Make | app/src/main/java/com/timur/chessiq/engine/Board.kt:16-69 | `make` returns exactly the position the move leads to, as the lemmas below describe it |
| EngineBoard.AppliedValid | app/src/main/java/com/timur/chessiq/engine/Board.kt:68 | The position after a move is well formed, and the other side is to move |
| EngineBoard.OrdinaryMoveCells | app/src/main/java/com/timur/chessiq/engine/Board.kt:26-35 | In an ordinary move, the destination gets the mover or its promotion, the origin empties, an en-passant victim is removed, and no other square changes |
| EngineBoard.CastleMoveCells | app/src/main/java/com/timur/chessiq/engine/Board.kt:18-25 | Castling moves king and rook on the mover's home rank (e to g with h to f, or e to c with a to d), empties their origins and changes no other square |
| EngineBoard.RightsOnlyShrink | app/src/main/java/com/timur/chessiq/engine/Board.kt:37-55 | Rights are never regained; a king move drops both of its side's rights; a rook leaving or captured on a home corner drops that corner's right |
| EngineBoard.EnPassantTarget | app/src/main/java/com/timur/chessiq/engine/Board.kt:57-66 | A target appears exactly after a pawn double push (White rank 6 to 4, Black 1 to 3), and it is the square passed over |
| EngineBoard.Ray | app/src/main/java/com/timur/chessiq/engine/Board.kt:83-91 | The ray walk answers true exactly when the first occupied square in that direction holds an attacker of one of the given kinds |
| EngineBoard.KnightNear | app/src/main/java/com/timur/chessiq/engine/Board.kt:75-82 | The knight block answers true exactly when an attacking knight stands a knight's jump away |
| EngineBoard.PawnNear | app/src/main/java/com/timur/chessiq/engine/Board.kt:101-108 | The pawn block answers true exactly when an attacking pawn stands on one of the two squares it inspects |
| EngineBoard.KingInRow | app/src/main/java/com/timur/chessiq/engine/Board.kt:109-115 | One row of the king scan finds an attacking king exactly when one stands a single step away in that row |
| EngineBoard.KingNear | app/src/main/java/com/timur/chessiq/engine/Board.kt:109-115 | The king block answers true exactly when an attacking king is adjacent |
| EngineBoard.IsSquareAttacked | app/src/main/java/com/timur/chessiq/engine/Board.kt:74-117 | The oracle answers true exactly when a knight, a rook or bishop ray (queens on both), a pawn or an adjacent king of the attacker reaches the square |
| EngineBoard.FirstKingSpec | app/src/main/java/com/timur/chessiq/engine/Board.kt:119-125 | The scan finds nothing exactly when the side has no king; otherwise it finds the side's lowest-indexed king |
| EngineBoard.KingSquare | app/src/main/java/com/timur/chessiq/engine/Board.kt:119-125 | `kingSquare` returns the first king of the side, or fails when there is none |
| EngineBoard.Start | app/src/main/java/com/timur/chessiq/engine/Board.kt:128-136 | The initial position has the standard layout, White to move, all rights held and no en-passant target |
| EngineBoard.StartLayout | app/src/main/java/com/timur/chessiq/engine/Board.kt:128-136 | In the initial layout: 32 pieces; exactly ranks 0, 1, 6 and 7 occupied; Black's pieces on ranks 0 and 1; kings on e8 and e1 |
| EngineMoveGen.Step | app/src/main/java/com/timur/chessiq/engine/MoveGen.kt:86-89 | One knight or king step adds its move exactly as the generator's step rule does |
| EngineMoveGen.PawnPushes | app/src/main/java/com/timur/chessiq/engine/MoveGen.kt:48-62 | The push block adds the single and double pushes of the pawn rule |
| EngineMoveGen.PawnCapture | app/src/main/java/com/timur/chessiq/engine/MoveGen.kt:64-75 | The capture block for one side file adds the pawn capture rule's move |
| EngineMoveGen.GenPawn | app/src/main/java/com/timur/chessiq/engine/MoveGen.kt:43-81 | `genPawn` adds the pawn rule's moves, whose meaning `PawnMember` states |
| EngineMoveGen.GenKnight | app/src/main/java/com/timur/chessiq/engine/MoveGen.kt:83-92 | `genKnight` adds the knight rule's moves, whose meaning `KnightMember` states |
| EngineMoveGen.RayOpen | app/src/main/java/com/timur/chessiq/engine/MoveGen.kt:99-103 | On an empty on-board square, a slide adds a quiet move and continues |
| EngineMoveGen.RayBlocked | app/src/main/java/com/timur/chessiq/engine/MoveGen.kt:99-103 | On an occupied square, a slide adds a capture if the piece is an enemy and then stops |
| EngineMoveGen.SlideRay | app/src/main/java/com/timur/chessiq/engine/MoveGen.kt:97-105 | One direction's loop adds exactly that direction's slide moves |
| EngineMoveGen.GenSlide | app/src/main/java/com/timur/chessiq/engine/MoveGen.kt:94-106 | `genSlide` adds the slide moves of every given direction, in order |
| EngineMoveGen.GenKing | app/src/main/java/com/timur/chessiq/engine/MoveGen.kt:108-135 | `genKing` adds the king's steps and then its castling moves |
| EngineMoveGen.GenCastles | app/src/main/java/com/timur/chessiq/engine/MoveGen.kt:116-134 | The castling block adds each castling move whose right is held, whose squares between are empty and whose king's squares are not attacked |
| EngineMoveGen.GenFrom | app/src/main/java/com/timur/chessiq/engine/MoveGen.kt:23-38 | One cell of the scan dispatches on the piece kind of a mover's piece and adds its moves |
| EngineMoveGen.PseudoLegal | app/src/main/java/com/timur/chessiq/engine/MoveGen.kt:17-41 | `pseudoLegal` returns the pseudo-legal list, whose members `PseudoMoves` characterises and whose order `PseudoOrdered` states |
| EngineMoveGen.LegalMoves | app/src/main/java/com/timur/chessiq/engine/MoveGen.kt:6-14 | `legalMoves` returns the legal filter's result, or fails where `kingSquare` would throw |
| EngineMoveGen.GameStatus | app/src/main/java/com/timur/chessiq/ui/ChessScreen.kt:24-32 | The status rule's result, which `StatusSpec` characterises |
| EngineMoveGen.StepMember | app/src/main/java/com/timur/chessiq/engine/MoveGen.kt:86-89 | A step adds exactly the move onto an on-board square not held by the mover, flagged as a capture when occupied |
| EngineMoveGen.KnightMember | app/src/main/java/com/timur/chessiq/engine/MoveGen.kt:83-92 | The knight's moves are exactly the knight jumps onto on-board squares not held by the mover |
| EngineMoveGen.KingMember | app/src/main/java/com/timur/chessiq/engine/MoveGen.kt:108-135 | The king's moves are exactly its single steps and its open castling moves |
| EngineMoveGen.RayMember | app/src/main/java/com/timur/chessiq/engine/MoveGen.kt:97-105 | A direction's slide moves are the empty squares up to the first occupied one, plus that one if it holds an enemy |
| EngineMoveGen.SlidesMember | app/src/main/java/com/timur/chessiq/engine/MoveGen.kt:94-106 | A slider's moves are exactly the slide moves in one of its directions |
| EngineMoveGen.PushesMember | app/src/main/java/com/timur/chessiq/engine/MoveGen.kt:48-62 | The pushes are exactly: one step forward onto an empty square (tagged as a queen promotion on the last rank), and two steps from the start rank when both squares are empty |
| EngineMoveGen.CapturesMember | app/src/main/java/com/timur/chessiq/engine/MoveGen.kt:64-75 | The captures are exactly the diagonal steps forward onto enemy pieces, tagged as queen promotions on the last rank |
| EngineMoveGen.PawnMember | app/src/main/java/com/timur/chessiq/engine/MoveGen.kt:43-81 | A pawn's moves are exactly its pushes, its captures and the en-passant capture onto the target one rank ahead on an adjacent file |
| EngineMoveGen.PawnAttackReversed | app/src/main/java/com/timur/chessiq/engine/Board.kt:101-108 | The pawn block sees a pawn that stands one step beyond the square in its own moving direction, on an adjacent file; its captures come from the opposite side |
| EngineMoveGen.OnlyPawnsAttack | app/src/main/java/com/timur/chessiq/engine/Board.kt:74-117 | When every piece of the attacker is a pawn, the oracle reports an attack exactly when its pawn block does |
| EngineMoveGen.PawnCaptureUnseen | app/src/main/java/com/timur/chessiq/engine/Board.kt:101-108 | A White pawn on d2 (engine file 3, rank 6) can capture a Black knight on e3 (file 4, rank 5), yet the oracle does not report e3 as attacked by White |
| EngineMoveGen.MovesFromMember | app/src/main/java/com/timur/chessiq/engine/MoveGen.kt:23-38 | The moves added for a cell are exactly the moves of the piece there, when it belongs to the side to move |
| EngineMoveGen.PseudoMoves | app/src/main/java/com/timur/chessiq/engine/MoveGen.kt:17-41 | A move is pseudo-legal exactly when it is a move of a piece of the side to move under that piece's rule |
| EngineMoveGen.MovesFromGrows | app/src/main/java/com/timur/chessiq/engine/MoveGen.kt:23-38 | Scanning one cell only appends to the list built so far, and every appended move starts on that cell |
| EngineMoveGen.PseudoOrdered | app/src/main/java/com/timur/chessiq/engine/MoveGen.kt:23-27 | The pseudo-legal list comes grouped by origin square, in ascending cell index |
| EngineMoveGen.PseudoSound | app/src/main/java/com/timur/chessiq/engine/MoveGen.kt:17-135 | Every generated move starts from a piece of the side to move, with the following properties: ordinary moves land on the board on empty or enemy squares, flagged as captures exactly when occupied; only pawns promote, always to a queen, exactly on the last rank; en passant lands on the board's target; castling is a king move of one kind at a time, with that side open |
| EngineMoveGen.PseudoApplicable | app/src/main/java/com/timur/chessiq/engine/MoveGen.kt:9-10 | Every generated move can be applied: every cell `make` touches for it is on the board |
| EngineMoveGen.LegalFilterSpec | app/src/main/java/com/timur/chessiq/engine/MoveGen.kt:9-13 | The filter fails exactly when some candidate leaves the mover without a king, and otherwise keeps, in order, the candidates after which the king is unattacked |
| EngineMoveGen.LegalSpec | app/src/main/java/com/timur/chessiq/engine/MoveGen.kt:6-14 | Legal moves fail exactly when some pseudo-legal move loses the king; otherwise they are exactly the pseudo-legal moves after which the mover's king is not attacked |
| EngineMoveGen.StatusSpec | app/src/main/java/com/timur/chessiq/ui/ChessScreen.kt:24-32 | Checkmate, with the other side winning, when no move is safe and the king is attacked; stalemate when no move is safe and the king is not attacked; "thinking" for the side to move when some move is safe |

## Left out

- The user interface is not part of this model: the Compose screen, the glossy theme, the unicode piece glyphs (`Models.kt:23-30`), promotion dialogs and the status strings' wording. `EngineMoveGen.GameStatus` returns a `Status` value in place of the display text.
- `Board.copy()` and the private mutable copy are not modelled separately. `Make` copies the cells into a fresh array itself, and a position is never changed in place.
- `EngineBoard.PawnNear` reproduces the pawn check as written: it inspects the rank below the target for White and the rank above for Black. That is the side the attacking pawns move toward, opposite to where the generator's captures come from (`MoveGen.kt:44,64-66`). `PawnAttackReversed`, `OnlyPawnsAttack` and `PawnCaptureUnseen` state the consequence. The model keeps the oracle as written because the legality filter and the castling checks depend on it.
- The promotion kind is always a queen in generated moves, as in the source. Under-promotion is not modelled.
- Exceptions are modelled as `None`, all alike, without their messages. This covers `require`/`error` in `fenToState`, an index past the 64 cells, building an off-board square, and `kingSquare` finding no king. `LegalMoves` and `GameStatus` fail as a whole where the source would throw.
- The generator's `add` callback is modelled as appending to a sequence that is passed along and returned.
- `Text.IsDigit` covers the ASCII digits only. In a placement row, Kotlin's `Char.isDigit()`/`digitToInt()` also accept the other Unicode decimal digits, and would treat them as empty-square runs.
- `Text.ParseInt` reads ASCII digits only. `toIntOrNull()` for the clocks also reads any other Unicode decimal digit, so the model rejects clock fields that the code would accept.
- The file counter in a placement row is an unbounded integer. 32-bit wrap-around of that counter is not modelled; it would take a row of hundreds of millions of digits.
- `GameState.board` is an `Array` in the source, and its data-class equality compares array references. The model compares boards by contents, so `ParseFen(RenderFen(g)) == Some(g)` is a statement about contents.
- `CoreFen.ParseFieldsAccepts` and `CoreFen.ParseFieldsBuilds` are stated over the fields after trimming and splitting. `CoreFen.ParseFen` is exactly `ParseFields` of those fields, and `Text.PartsOfJoin` relates them to printed text.
- `/` inside a placement row is handled as the source handles it (skipped). After the split on `/` no row can contain one, so that branch is unreachable from `fenToState`.
- `CoreFen.StartFenRoundTrip` states more than the source's test: all six fields survive printing, not only the first four.
