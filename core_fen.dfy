/** Forsyth-Edwards Notation for the chess-core game state: the parser
    `fenToState` and the printer `stateToFen`. Every way the parser can fail
    (a failed requirement, an unknown character, an index past the board)
    is the one outcome `None`. */
module CoreFen {
  import opened Wrappers
  import opened Text
  import opened CoreModels

  type Cells = seq<Option<Piece>>

  // ------------------------------------------------------ piece letters

  /** The `charToPiece` table: upper case for White, lower case for Black. */
  function CharToPiece(c: char): Option<Piece> {
    if c == 'P' then Some(Piece(P, White))
    else if c == 'N' then Some(Piece(N, White))
    else if c == 'B' then Some(Piece(B, White))
    else if c == 'R' then Some(Piece(R, White))
    else if c == 'Q' then Some(Piece(Q, White))
    else if c == 'K' then Some(Piece(K, White))
    else if c == 'p' then Some(Piece(P, Black))
    else if c == 'n' then Some(Piece(N, Black))
    else if c == 'b' then Some(Piece(B, Black))
    else if c == 'r' then Some(Piece(R, Black))
    else if c == 'q' then Some(Piece(Q, Black))
    else if c == 'k' then Some(Piece(K, Black))
    else None
  }

  /** `pieceToChar`: the letter the table maps to the piece. */
  function PieceToChar(p: Piece): (c: char)
    ensures CharToPiece(c) == Some(p)
    ensures !IsDigit(c) && !IsWhitespace(c) && c != '/'
  {
    match p.color
    case White => (match p.kind case P => 'P' case N => 'N' case B => 'B' case R => 'R' case Q => 'Q' case K => 'K')
    case Black => (match p.kind case P => 'p' case N => 'n' case B => 'b' case R => 'r' case Q => 'q' case K => 'k')
  }

  /** The table is one-to-one: a letter it knows is the letter of its piece. */
  lemma CharToPieceInverse(c: char)
    requires CharToPiece(c).Some?
    ensures PieceToChar(CharToPiece(c).value) == c
  {
  }

  /** Index of a square in the 64 cells; a1 is 0 and h8 is 63. */
  function Idx(file: int, rank: int): int {
    rank * 8 + file
  }

  /** The eight cells of rank `rank`, from the a-file to the h-file. */
  function RankCells(board: Cells, rank: int): Cells
    requires |board| == 64 && 0 <= rank <= 7
  {
    board[Idx(0, rank)..Idx(8, rank)]
  }

  /** `n` empty cells. */
  function Nones(n: nat): (cells: Cells)
    ensures |cells| == n && forall k :: 0 <= k < n ==> cells[k] == None
  {
    seq(n, _ => None)
  }

  function EmptyCells(): Cells {
    Nones(64)
  }

  // ----------------------------------------------------------- parsing

  /** Parsing the rest `row` of the placement row for `rank`, `file` files
      in. A digit skips that many files, a piece letter fills the current
      cell (failing when the index is past the array) and moves one file on;
      a finished row must have reached file 8. */
  function ParseRow(row: string, rank: int, file: int, cells: Cells): (r: Option<Cells>)
    requires |cells| == 64 && 0 <= rank <= 7 && file >= 0
    ensures r.Some? ==> |r.value| == 64
  {
    if row == [] then
      if file == 8 then Some(cells) else None
    else
      var c := row[0];
      if IsDigit(c) then ParseRow(row[1..], rank, file + DigitValue(c), cells)
      else if CharToPiece(c).Some? then
        var i := Idx(file, rank);
        if i < 64 then ParseRow(row[1..], rank, file + 1, cells[i := CharToPiece(c)]) else None
      else if c == '/' then ParseRow(row[1..], rank, file, cells)
      else None
  }

  /** Parsing rows `k..7` of the placement; row `k` describes rank `7 - k`. */
  function ParseRows(rows: seq<string>, k: int, cells: Cells): (r: Option<Cells>)
    requires |rows| == 8 && 0 <= k <= 8 && |cells| == 64
    ensures r.Some? ==> |r.value| == 64
    decreases 8 - k, 1
  {
    if k == 8 then Some(cells) else ContinueRow(rows, k, rows[k], 0, cells)
  }

  /** Finishing row `k` from the rest `rest` of it, then the rows below. */
  function ContinueRow(rows: seq<string>, k: int, rest: string, file: int, cells: Cells): (r: Option<Cells>)
    requires |rows| == 8 && 0 <= k < 8 && |cells| == 64 && file >= 0
    ensures r.Some? ==> |r.value| == 64
    decreases 8 - k, 0
  {
    match ParseRow(rest, 7 - k, file, cells)
    case None => None
    case Some(next) => ParseRows(rows, k + 1, next)
  }

  function ParseSide(s: string): Option<Color> {
    if s == "w" then Some(White) else if s == "b" then Some(Black) else None
  }

  function ParseCastling(s: string): CastlingRights {
    CastlingRights('K' in s, 'Q' in s, 'k' in s, 'q' in s)
  }

  /** `-` is no target; otherwise two characters, a file letter and a rank
      digit, which must name a square on the board. `None` is failure. */
  function ParseEnPassant(s: string): (r: Option<Option<Square>>)
    ensures r.Some? && r.value.Some? ==> r.value.value.OnBoard()
  {
    if s == "-" then Some(None)
    else if |s| != 2 then None
    else match NewSquare(s[0] as int - 'a' as int, s[1] as int - '1' as int)
      case None => None
      case Some(sq) => Some(Some(sq))
  }

  /** A move counter: field `i` read as an integer, or `default` when the
      field is missing or is not an integer. */
  function Counter(parts: seq<string>, i: nat, default: Int32): Int32 {
    if i < |parts| then
      match ParseInt(parts[i])
      case Some(n) => n
      case None => default
    else default
  }

  /** `fenToState` once the text is split into fields. */
  function ParseFields(parts: seq<string>): (r: Option<GameState>)
    ensures r.Some? ==> r.value.Valid()
  {
    if |parts| < 4 then None
    else
      var rows := Split(parts[0], '/');
      if |rows| != 8 then None
      else match (ParseRows(rows, 0, EmptyCells()), ParseSide(parts[1]), ParseEnPassant(parts[3]))
        case (Some(board), Some(side), Some(ep)) =>
          Some(GameState(board, side, ParseCastling(parts[2]), ep, Counter(parts, 4, 0), Counter(parts, 5, 1)))
        case _ => None
  }

  /** `fenToState`. */
  function ParseFen(fen: string): Option<GameState> {
    ParseFields(Parts(fen))
  }

  // ---------------------------------------------------------- printing

  /** What is written for a run of `empty` empty cells: nothing for no
      run, otherwise its length. A run is at most eight long, so its length
      is one digit. */
  function Pending(empty: int): string
    requires 0 <= empty <= 8
  {
    if empty > 0 then [DigitChar(empty)] else ""
  }

  /** The cells `cells`, the last ones of a rank, printed after a run of
      `empty` empty cells not yet written: a run of empty cells is written
      as its length, just before the next piece or at the end of the rank. */
  function CellsText(cells: Cells, empty: int): string
    requires 0 <= empty && empty + |cells| <= 8
    decreases |cells|
  {
    if cells == [] then Pending(empty)
    else match cells[0]
      case None => CellsText(cells[1..], empty + 1)
      case Some(p) => Pending(empty) + [PieceToChar(p)] + CellsText(cells[1..], 0)
  }

  /** Rank `rank` as printed. */
  function RankText(board: Cells, rank: int): string
    requires |board| == 64 && 0 <= rank <= 7
  {
    CellsText(RankCells(board, rank), 0)
  }

  /** The printed ranks from rank `rank` down to rank 0. */
  function RankTextsFrom(board: Cells, rank: int): (texts: seq<string>)
    requires |board| == 64 && 0 <= rank <= 7
    ensures |texts| == rank + 1
  {
    [RankText(board, rank)] + (if rank == 0 then [] else RankTextsFrom(board, rank - 1))
  }

  /** Rank `r` is printed `rank - r` places in. */
  lemma {:induction false} RankTextsFromAt(board: Cells, rank: int, r: int)
    requires |board| == 64 && 0 <= r <= rank <= 7
    ensures RankTextsFrom(board, rank)[rank - r] == RankText(board, r)
    decreases rank
  {
    var texts := RankTextsFrom(board, rank);
    if r < rank {
      var below := RankTextsFrom(board, rank - 1);
      assert texts == [RankText(board, rank)] + below;
      assert texts[rank - r] == below[rank - 1 - r];
      RankTextsFromAt(board, rank - 1, r);
    }
  }

  /** Joining the ranks from `rank` down: one rank, then `/` and the rest. */
  lemma JoinRankTexts(board: Cells, rank: int)
    requires |board| == 64 && 0 <= rank <= 7
    ensures Join(RankTextsFrom(board, rank), '/')
      == if rank == 0 then RankText(board, 0)
         else RankText(board, rank) + "/" + Join(RankTextsFrom(board, rank - 1), '/')
  {
  }

  /** The placement field: the printed ranks, rank 8 first, `/` between. */
  function PlacementText(board: Cells): string
    requires |board| == 64
  {
    Join(RankTextsFrom(board, 7), '/')
  }

  function SideText(c: Color): string {
    if c == White then "w" else "b"
  }

  /** The rights held, in the order `KQkq`, or `-` when none is. */
  function CastlingText(cr: CastlingRights): string {
    var s := (if cr.whiteKingSide then "K" else "") + (if cr.whiteQueenSide then "Q" else "")
      + (if cr.blackKingSide then "k" else "") + (if cr.blackQueenSide then "q" else "");
    if s == [] then "-" else s
  }

  /** The target square as a file letter and a rank digit, or `-`. */
  function EpText(ep: Option<Square>): string
    requires ep.Some? ==> ep.value.OnBoard()
  {
    match ep
    case None => "-"
    case Some(sq) => [('a' as int + sq.file) as char, ('1' as int + sq.rank) as char]
  }

  /** The six fields of `stateToFen` after the placement `placement`. */
  function RenderFields(placement: string, g: GameState): seq<string>
    requires g.enPassant.Some? ==> g.enPassant.value.OnBoard()
  {
    [placement, SideText(g.sideToMove), CastlingText(g.castling),
     EpText(g.enPassant), IntText(g.halfmoveClock), IntText(g.fullmoveNumber)]
  }

  /** `stateToFen`: the six fields, separated by single spaces. */
  function RenderFen(g: GameState): string
    requires g.Valid()
  {
    Join(RenderFields(PlacementText(g.board), g), ' ')
  }

  const StartFen: string := "rnbqkbnr/pppppppp/8/8/8/8/PPPPPPPP/RNBQKBNR w KQkq - 0 1"

  // ------------------------------------------- what a placement row means

  /** A placement row holds digits, piece letters and `/` only. */
  predicate RowChars(row: string) {
    forall k :: 0 <= k < |row| ==> IsDigit(row[k]) || CharToPiece(row[k]).Some? || row[k] == '/'
  }

  /** The cells a placement row describes, from file a on: a digit `d`
      stands for `d` empty cells, a letter for its piece, and `/` for
      nothing. */
  function Expand(row: string): Cells {
    if row == [] then []
    else
      var c := row[0];
      var rest := Expand(row[1..]);
      if IsDigit(c) then Nones(DigitValue(c)) + rest
      else if CharToPiece(c).Some? then [CharToPiece(c)] + rest
      else rest
  }

  /** A row the parser accepts on its own: it describes exactly 8 cells. */
  predicate RowOk(row: string) {
    RowChars(row) && |Expand(row)| == 8
  }

  /** `cells` with the pieces of `exp` written from index `start` on; the
      empty cells of `exp` leave the cells under them as they were. */
  function Place(cells: Cells, start: nat, exp: Cells): (r: Cells)
    requires start + |exp| <= |cells|
    ensures |r| == |cells|
    decreases |exp|
  {
    if exp == [] then cells
    else Place(if exp[0].Some? then cells[start := exp[0]] else cells, start + 1, exp[1..])
  }

  /** Cell by cell: inside the window a piece of `exp` wins, everything
      else is kept. */
  lemma {:induction false} PlaceAt(cells: Cells, start: nat, exp: Cells)
    requires start + |exp| <= |cells|
    ensures forall i :: 0 <= i < |cells| ==>
      Place(cells, start, exp)[i] ==
        if start <= i < start + |exp| && exp[i - start].Some? then exp[i - start] else cells[i]
    decreases |exp|
  {
    if exp != [] {
      var next := if exp[0].Some? then cells[start := exp[0]] else cells;
      PlaceAt(next, start + 1, exp[1..]);
    }
  }

  /** A run of empty cells writes nothing. */
  lemma {:induction false} PlaceNones(cells: Cells, start: nat, n: nat, exp: Cells)
    requires start + n + |exp| <= |cells|
    ensures Place(cells, start, Nones(n) + exp) == Place(cells, start + n, exp)
    decreases n
  {
    if n == 0 {
      assert Nones(n) + exp == exp;
    } else {
      assert (Nones(n) + exp)[0] == None;
      assert (Nones(n) + exp)[1..] == Nones(n - 1) + exp;
      PlaceNones(cells, start + 1, n - 1, exp);
      assert Place(cells, start, Nones(n) + exp) == Place(cells, start + 1, Nones(n - 1) + exp);
    }
  }

  /** What `ParseRow` returns, according to the row's meaning. */
  predicate RowParsed(row: string, rank: int, file: int, cells: Cells)
    requires |cells| == 64 && 0 <= rank <= 7 && file >= 0
  {
    ParseRow(row, rank, file, cells) ==
      if RowChars(row) && file + |Expand(row)| == 8
      then Some(Place(cells, Idx(file, rank), Expand(row))) else None
  }

  lemma RowCharsCons(row: string)
    requires row != []
    ensures RowChars(row) <==>
      (IsDigit(row[0]) || CharToPiece(row[0]).Some? || row[0] == '/') && RowChars(row[1..])
  {
    assert forall k :: 1 <= k < |row| ==> row[k] == row[1..][k - 1];
  }

  lemma DigitParsed(row: string, rank: int, file: int, cells: Cells)
    requires |cells| == 64 && 0 <= rank <= 7 && file >= 0
    requires row != [] && IsDigit(row[0])
    requires RowParsed(row[1..], rank, file + DigitValue(row[0]), cells)
    ensures RowParsed(row, rank, file, cells)
  {
    var d, rest := DigitValue(row[0]), row[1..];
    RowCharsCons(row);
    assert Expand(row) == Nones(d) + Expand(rest);
    if RowChars(row) && file + |Expand(row)| == 8 {
      PlaceNones(cells, Idx(file, rank), d, Expand(rest));
    }
  }

  lemma PieceParsed(row: string, rank: int, file: int, cells: Cells)
    requires |cells| == 64 && 0 <= rank <= 7 && file >= 0
    requires row != [] && !IsDigit(row[0]) && CharToPiece(row[0]).Some? && Idx(file, rank) < 64
    requires RowParsed(row[1..], rank, file + 1, cells[Idx(file, rank) := CharToPiece(row[0])])
    ensures RowParsed(row, rank, file, cells)
  {
    var p, rest := CharToPiece(row[0]), row[1..];
    RowCharsCons(row);
    assert Expand(row) == [p] + Expand(rest);
    assert ([p] + Expand(rest))[1..] == Expand(rest);
  }

  lemma SlashParsed(row: string, rank: int, file: int, cells: Cells)
    requires |cells| == 64 && 0 <= rank <= 7 && file >= 0
    requires row != [] && row[0] == '/'
    requires RowParsed(row[1..], rank, file, cells)
    ensures RowParsed(row, rank, file, cells)
  {
    RowCharsCons(row);
    assert Expand(row) == Expand(row[1..]);
  }

  /** `ParseRow` succeeds exactly on a row of known characters whose cells
      fill the rank up from `file`; it then writes the row's pieces into
      that rank from `file` on and leaves every other cell as it was. */
  lemma {:induction false} ParseRowSpec(row: string, rank: int, file: int, cells: Cells)
    requires |cells| == 64 && 0 <= rank <= 7 && file >= 0
    ensures ParseRow(row, rank, file, cells) ==
      if RowChars(row) && file + |Expand(row)| == 8
      then Some(Place(cells, Idx(file, rank), Expand(row))) else None
  {
    if row != [] {
      var c := row[0];
      RowCharsCons(row);
      if IsDigit(c) {
        ParseRowSpec(row[1..], rank, file + DigitValue(c), cells);
        DigitParsed(row, rank, file, cells);
      } else if CharToPiece(c).Some? {
        var i := Idx(file, rank);
        if i < 64 {
          ParseRowSpec(row[1..], rank, file + 1, cells[i := CharToPiece(c)]);
          PieceParsed(row, rank, file, cells);
        } else {
          assert Expand(row) == [CharToPiece(c)] + Expand(row[1..]);
        }
      } else if c == '/' {
        ParseRowSpec(row[1..], rank, file, cells);
        SlashParsed(row, rank, file, cells);
      }
    }
  }

  /** Writing a whole rank into a board whose ranks up to it are empty:
      the rank holds exactly the written cells, the ranks below stay empty
      and the ranks above are kept. */
  lemma RankPlaced(cells: Cells, rank: int, exp: Cells)
    requires |cells| == 64 && 0 <= rank <= 7 && |exp| == 8
    requires forall i :: 0 <= i < Idx(0, rank + 1) ==> cells[i] == None
    ensures var next := Place(cells, Idx(0, rank), exp);
      && (forall f :: 0 <= f < 8 ==> next[Idx(f, rank)] == exp[f])
      && (forall i :: 0 <= i < Idx(0, rank) ==> next[i] == None)
      && (forall i :: Idx(0, rank + 1) <= i < 64 ==> next[i] == cells[i])
  {
    var next := Place(cells, Idx(0, rank), exp);
    PlaceAt(cells, Idx(0, rank), exp);
    forall f | 0 <= f < 8
      ensures next[Idx(f, rank)] == exp[f]
    {
      assert Idx(f, rank) - Idx(0, rank) == f;
    }
  }

  /** Rank `7 - k` written first, then the ranks below it: together the
      ranks from `7 - k` down, with everything above kept. */
  lemma RowsCombine(rows: seq<string>, k: int, cells: Cells, next: Cells, res: Cells)
    requires |rows| == 8 && 0 <= k < 8 && |cells| == 64 && |next| == 64 && |res| == 64
    requires forall j :: k <= j < 8 ==> |Expand(rows[j])| == 8
    requires forall f :: 0 <= f < 8 ==> next[Idx(f, 7 - k)] == Expand(rows[k])[f]
    requires forall i :: Idx(0, 8 - k) <= i < 64 ==> next[i] == cells[i]
    requires forall r, f :: 0 <= r < 7 - k && 0 <= f < 8 ==> res[Idx(f, r)] == Expand(rows[7 - r])[f]
    requires forall i :: Idx(0, 7 - k) <= i < 64 ==> res[i] == next[i]
    ensures forall r, f :: 0 <= r < 8 - k && 0 <= f < 8 ==> res[Idx(f, r)] == Expand(rows[7 - r])[f]
    ensures forall i :: Idx(0, 8 - k) <= i < 64 ==> res[i] == cells[i]
  {
    forall r, f | 0 <= r < 8 - k && 0 <= f < 8
      ensures res[Idx(f, r)] == Expand(rows[7 - r])[f]
    {
      if r == 7 - k {
        assert res[Idx(f, r)] == next[Idx(f, r)];
      }
    }
  }

  /** Rows `k..7` parse exactly when each describes 8 cells; rank `r` of the
      result is then what row `7 - r` describes, provided the ranks still
      to be parsed start out empty. */
  lemma {:induction false} ParseRowsSpec(rows: seq<string>, k: int, cells: Cells)
    requires |rows| == 8 && 0 <= k <= 8 && |cells| == 64
    requires forall i :: 0 <= i < Idx(0, 8 - k) ==> cells[i] == None
    ensures ParseRows(rows, k, cells).Some? <==> forall j :: k <= j < 8 ==> RowOk(rows[j])
    ensures ParseRows(rows, k, cells).Some? ==>
      (forall r, f :: 0 <= r < 8 - k && 0 <= f < 8 ==>
        ParseRows(rows, k, cells).value[Idx(f, r)] == Expand(rows[7 - r])[f])
      && (forall i :: Idx(0, 8 - k) <= i < 64 ==> ParseRows(rows, k, cells).value[i] == cells[i])
    decreases 8 - k
  {
    if k < 8 {
      ParseRowSpec(rows[k], 7 - k, 0, cells);
      assert (forall j :: k <= j < 8 ==> RowOk(rows[j]))
        <==> RowOk(rows[k]) && (forall j :: k + 1 <= j < 8 ==> RowOk(rows[j]));
      if RowOk(rows[k]) {
        var next := Place(cells, Idx(0, 7 - k), Expand(rows[k]));
        RankPlaced(cells, 7 - k, Expand(rows[k]));
        ParseRowsSpec(rows, k + 1, next);
        assert ParseRows(rows, k, cells) == ParseRows(rows, k + 1, next);
        if ParseRows(rows, k + 1, next).Some? {
          RowsCombine(rows, k, cells, next, ParseRows(rows, k + 1, next).value);
        }
      }
    }
  }

  predicate EpOk(s: string) {
    s == "-" || (|s| == 2 && 'a' <= s[0] <= 'h' && '1' <= s[1] <= '8')
  }

  /** What `fenToState` accepts, once the text is split into fields: at
      least four fields, a placement of eight rows of eight cells each, a
      side `w` or `b` and an en-passant field that is `-` or a square;
      castling letters and counters never make it fail. */
  lemma ParseFieldsAccepts(parts: seq<string>)
    ensures ParseFields(parts).Some? <==>
      && |parts| >= 4
      && |Split(parts[0], '/')| == 8
      && (forall j :: 0 <= j < 8 ==> RowOk(Split(parts[0], '/')[j]))
      && (parts[1] == "w" || parts[1] == "b")
      && EpOk(parts[3])
  {
    if |parts| >= 4 && |Split(parts[0], '/')| == 8 {
      ParseRowsSpec(Split(parts[0], '/'), 0, EmptyCells());
    }
  }

  /** What `fenToState` builds from the fields: the first row of the
      placement is rank 8, each rank holds what its row describes, the side
      is White exactly for `w`, each right is held exactly when its letter
      occurs, the en-passant square is read as file letter and rank digit,
      and a missing or non-numeric counter reads as 0 (halfmove) or 1
      (fullmove), a numeric one as its value. */
  lemma ParseFieldsBuilds(parts: seq<string>)
    requires ParseFields(parts).Some?
    ensures |parts| >= 4 && |Split(parts[0], '/')| == 8
    ensures forall j :: 0 <= j < 8 ==> RowOk(Split(parts[0], '/')[j])
    ensures var g, rows := ParseFields(parts).value, Split(parts[0], '/');
      && g.Valid()
      && (forall r :: 0 <= r < 8 ==> RankCells(g.board, r) == Expand(rows[7 - r]))
      && (g.sideToMove == White <==> parts[1] == "w")
      && (g.castling.whiteKingSide <==> 'K' in parts[2]) && (g.castling.whiteQueenSide <==> 'Q' in parts[2])
      && (g.castling.blackKingSide <==> 'k' in parts[2]) && (g.castling.blackQueenSide <==> 'q' in parts[2])
      && (g.enPassant == None <==> parts[3] == "-")
      && (g.enPassant != None ==>
            (|parts[3]| == 2
             && g.enPassant.value.file == parts[3][0] as int - 'a' as int
             && g.enPassant.value.rank == parts[3][1] as int - '1' as int))
      && g.halfmoveClock == (if |parts| > 4 && ParseInt(parts[4]).Some? then ParseInt(parts[4]).value else 0)
      && g.fullmoveNumber == (if |parts| > 5 && ParseInt(parts[5]).Some? then ParseInt(parts[5]).value else 1)
  {
    var rows := Split(parts[0], '/');
    ParseRowsSpec(rows, 0, EmptyCells());
    var board := ParseFields(parts).value.board;
    forall r | 0 <= r < 8
      ensures RankCells(board, r) == Expand(rows[7 - r])
    {
      forall f | 0 <= f < 8
        ensures RankCells(board, r)[f] == Expand(rows[7 - r])[f]
      {
        RankCellsAt(board, r, f);
      }
    }
  }

  // ------------------------------------------- what the printer writes

  /** No two digits stand next to each other. */
  predicate NoAdjacentDigits(s: string) {
    forall k :: 0 <= k < |s| - 1 ==> !(IsDigit(s[k]) && IsDigit(s[k + 1]))
  }

  lemma {:induction false} ExpandAppend(x: string, y: string)
    ensures Expand(x + y) == Expand(x) + Expand(y)
  {
    if x == [] {
      assert x + y == y;
    } else {
      assert (x + y)[1..] == x[1..] + y;
      ExpandAppend(x[1..], y);
    }
  }

  lemma NoAdjacentDigitsAppend(x: string, y: string)
    requires NoAdjacentDigits(x) && NoAdjacentDigits(y)
    requires x == [] || y == [] || !IsDigit(x[|x| - 1]) || !IsDigit(y[0])
    ensures NoAdjacentDigits(x + y)
  {
    var s := x + y;
    forall k | 0 <= k < |s| - 1
      ensures !(IsDigit(s[k]) && IsDigit(s[k + 1]))
    {
      if k + 1 < |x| {
        assert s[k] == x[k] && s[k + 1] == x[k + 1];
      } else if k >= |x| {
        assert s[k] == y[k - |x|] && s[k + 1] == y[k + 1 - |x|];
      }
    }
  }

  /** A run of at most eight empty cells is written as `Int.toString`
      writes its length. */
  lemma RunText(empty: int)
    requires 1 <= empty <= 8
    ensures IntText(empty) == Pending(empty)
  {
  }

  /** Only digits and piece letters. */
  predicate RowSymbols(t: string) {
    forall k :: 0 <= k < |t| ==> IsDigit(t[k]) || CharToPiece(t[k]).Some?
  }

  /** What printing some cells after a pending run gives: digits and piece
      letters only, no two digits adjacent, and read back, the run's empty
      cells followed by the cells. */
  predicate PrintedRun(t: string, empty: nat, cells: Cells) {
    RowSymbols(t) && NoAdjacentDigits(t) && Expand(t) == Nones(empty) + cells
  }

  lemma PendingPrinted(empty: int)
    requires 0 <= empty <= 8
    ensures PrintedRun(Pending(empty), empty, [])
  {
    if empty > 0 {
      var t := Pending(empty);
      assert Expand(t) == Nones(empty) + Expand([]);
    }
    assert Nones(empty) + [] == Nones(empty);
  }

  /** An empty cell joins the pending run. */
  lemma EmptyCellPrinted(t: string, empty: int, cells: Cells)
    requires 0 <= empty && PrintedRun(t, empty + 1, cells)
    ensures PrintedRun(t, empty, [None] + cells)
  {
    assert Nones(empty + 1) == Nones(empty) + [None];
  }

  /** A piece is written after the pending run. */
  lemma PiecePrinted(empty: int, p: Piece, rest: string, cells: Cells)
    requires 0 <= empty <= 8 && PrintedRun(rest, 0, cells)
    ensures PrintedRun(Pending(empty) + [PieceToChar(p)] + rest, empty, [Some(p)] + cells)
  {
    var pending, c := Pending(empty), PieceToChar(p);
    PendingPrinted(empty);
    assert Expand([c]) == [Some(p)] + Expand([]);
    ExpandAppend(pending, [c]);
    ExpandAppend(pending + [c], rest);
    assert Nones(0) + cells == cells;
    NoAdjacentDigitsAppend(pending, [c]);
    NoAdjacentDigitsAppend(pending + [c], rest);
  }

  lemma {:induction false} CellsTextPrinted(cells: Cells, empty: int)
    requires 0 <= empty && empty + |cells| <= 8
    ensures PrintedRun(CellsText(cells, empty), empty, cells)
    decreases |cells|
  {
    if cells == [] {
      PendingPrinted(empty);
    } else {
      assert cells == [cells[0]] + cells[1..];
      match cells[0]
      case None =>
        CellsTextPrinted(cells[1..], empty + 1);
        EmptyCellPrinted(CellsText(cells[1..], empty + 1), empty, cells[1..]);
      case Some(p) =>
        CellsTextPrinted(cells[1..], 0);
        PiecePrinted(empty, p, CellsText(cells[1..], 0), cells[1..]);
    }
  }

  /** What a printed rank is: read back, it describes exactly the rank's
      eight cells; it is free of whitespace and `/` and has no two adjacent
      digits. */
  predicate PrintedRank(t: string, cells: Cells) {
    && t != [] && RowOk(t) && Solid(t) && '/' !in t && NoAdjacentDigits(t)
    && Expand(t) == cells
  }

  lemma PrintedRunRank(t: string, cells: Cells)
    requires |cells| == 8 && PrintedRun(t, 0, cells)
    ensures PrintedRank(t, cells)
  {
    assert Nones(0) + cells == cells;
  }

  lemma RankTextSpec(board: Cells, rank: int)
    requires |board| == 64 && 0 <= rank <= 7
    ensures PrintedRank(RankText(board, rank), RankCells(board, rank))
  {
    CellsTextPrinted(RankCells(board, rank), 0);
    PrintedRunRank(RankText(board, rank), RankCells(board, rank));
  }

  /** Each printed rank describes its own rank's cells; rank `r` comes
      `7 - r` places in. */
  lemma PrintedRanks(board: Cells)
    requires |board| == 64
    ensures forall r :: 0 <= r < 8 ==> PrintedRank(RankTextsFrom(board, 7)[7 - r], RankCells(board, r))
  {
    forall r | 0 <= r < 8
      ensures PrintedRank(RankTextsFrom(board, 7)[7 - r], RankCells(board, r))
    {
      RankTextsFromAt(board, 7, r);
      PrintedAt(RankTextsFrom(board, 7)[7 - r], board, r);
    }
  }

  lemma PrintedAt(t: string, board: Cells, rank: int)
    requires |board| == 64 && 0 <= rank <= 7 && t == RankText(board, rank)
    ensures PrintedRank(t, RankCells(board, rank))
  {
    RankTextSpec(board, rank);
  }

  /** Eight printed ranks joined with `/` split back into themselves. */
  lemma {:induction false} SplitPrinted(texts: seq<string>, board: Cells)
    requires |board| == 64 && |texts| == 8
    requires forall r :: 0 <= r < 8 ==> PrintedRank(texts[7 - r], RankCells(board, r))
    ensures Split(Join(texts, '/'), '/') == texts
  {
    forall k | 0 <= k < 8
      ensures '/' !in texts[k]
    {
      var r := 7 - k;
      assert PrintedRank(texts[7 - r], RankCells(board, r));
    }
    SplitJoin(texts, '/');
  }

  lemma {:induction false} JoinSolid(ps: seq<string>, d: char)
    requires |ps| >= 1 && !IsWhitespace(d)
    requires forall k :: 0 <= k < |ps| ==> Solid(ps[k])
    ensures Solid(Join(ps, d))
  {
    if |ps| > 1 {
      JoinSolid(ps[1..], d);
    }
  }

  /** Eight printed ranks joined with `/` are non-empty and free of
      whitespace. */
  lemma {:induction false} JoinPrintedSolid(texts: seq<string>, board: Cells)
    requires |board| == 64 && |texts| == 8
    requires forall r :: 0 <= r < 8 ==> PrintedRank(texts[7 - r], RankCells(board, r))
    ensures Join(texts, '/') != [] && Solid(Join(texts, '/'))
  {
    forall k | 0 <= k < 8
      ensures texts[k] != [] && Solid(texts[k])
    {
      var r := 7 - k;
      assert PrintedRank(texts[7 - r], RankCells(board, r));
    }
    JoinSolid(texts, '/');
    JoinEnds(texts, '/');
  }

  lemma PlacementSolid(board: Cells)
    requires |board| == 64
    ensures PlacementText(board) != [] && Solid(PlacementText(board))
  {
    PrintedRanks(board);
    JoinPrintedSolid(RankTextsFrom(board, 7), board);
  }

  /** The five fields after the placement are non-empty and free of
      whitespace. */
  lemma ShortFieldsSolid(g: GameState)
    requires g.enPassant.Some? ==> g.enPassant.value.OnBoard()
    ensures SideText(g.sideToMove) != [] && Solid(SideText(g.sideToMove))
    ensures CastlingText(g.castling) != [] && Solid(CastlingText(g.castling))
    ensures EpText(g.enPassant) != [] && Solid(EpText(g.enPassant))
  {
  }

  /** Eight rows, each describing exactly its rank's cells, read back as
      the board. */
  lemma {:induction false} RowsReadBack(rows: seq<string>, board: Cells)
    requires |board| == 64 && |rows| == 8
    requires forall r :: 0 <= r < 8 ==> PrintedRank(rows[7 - r], RankCells(board, r))
    ensures ParseRows(rows, 0, EmptyCells()) == Some(board)
  {
    forall k | 0 <= k < 8
      ensures RowOk(rows[k])
    {
      var r := 7 - k;
      assert PrintedRank(rows[7 - r], RankCells(board, r));
    }
    ParseRowsSpec(rows, 0, EmptyCells());
    var parsed := ParseRows(rows, 0, EmptyCells()).value;
    forall r, f | 0 <= r < 8 && 0 <= f < 8
      ensures parsed[Idx(f, r)] == board[Idx(f, r)]
    {
      assert PrintedRank(rows[7 - r], RankCells(board, r));
      RankCellsAt(board, r, f);
    }
    SameCells(parsed, board);
  }

  /** Eight printed ranks joined with `/` read back as the board. */
  lemma PrintedReadBack(texts: seq<string>, board: Cells)
    requires |board| == 64 && |texts| == 8
    requires forall r :: 0 <= r < 8 ==> PrintedRank(texts[7 - r], RankCells(board, r))
    ensures var rows := Split(Join(texts, '/'), '/');
      |rows| == 8 && ParseRows(rows, 0, EmptyCells()) == Some(board)
  {
    SplitPrinted(texts, board);
    RowsReadBack(texts, board);
  }

  /** Reading back the printed placement gives the board back. */
  lemma PlacementRoundTrip(board: Cells)
    requires |board| == 64
    ensures var rows := Split(PlacementText(board), '/');
      |rows| == 8 && ParseRows(rows, 0, EmptyCells()) == Some(board)
  {
    PrintedRanks(board);
    PrintedReadBack(RankTextsFrom(board, 7), board);
  }

  lemma RankCellsAt(board: Cells, rank: int, file: int)
    requires |board| == 64 && 0 <= rank <= 7 && 0 <= file < 8
    ensures RankCells(board, rank)[file] == board[Idx(file, rank)]
  {
  }

  /** Two boards that agree on every square are equal. */
  lemma SameCells(a: Cells, b: Cells)
    requires |a| == 64 && |b| == 64
    requires forall r, f :: 0 <= r < 8 && 0 <= f < 8 ==> a[Idx(f, r)] == b[Idx(f, r)]
    ensures a == b
  {
    forall i | 0 <= i < 64
      ensures a[i] == b[i]
    {
      assert i == Idx(i % 8, i / 8);
    }
  }

  /** With a placement that is non-empty and free of whitespace, the
      printed text splits back into its six fields. */
  lemma RenderedParts(placement: string, g: GameState)
    requires g.enPassant.Some? ==> g.enPassant.value.OnBoard()
    requires placement != [] && Solid(placement)
    ensures Parts(Join(RenderFields(placement, g), ' ')) == RenderFields(placement, g)
  {
    var fs := RenderFields(placement, g);
    ShortFieldsSolid(g);
    assert forall k :: 0 <= k < 6 ==> fs[k] != [] && Solid(fs[k]);
    PartsOfJoin(fs);
  }

  lemma SideRead(c: Color)
    ensures ParseSide(SideText(c)) == Some(c)
  {
  }

  /** The printed rights read back as the same rights. */
  lemma CastlingRead(cr: CastlingRights)
    ensures ParseCastling(CastlingText(cr)) == cr
  {
    var s := CastlingText(cr);
    assert 'K' in s <==> cr.whiteKingSide;
    assert 'Q' in s <==> cr.whiteQueenSide;
    assert 'k' in s <==> cr.blackKingSide;
    assert 'q' in s <==> cr.blackQueenSide;
  }

  lemma EpRead(ep: Option<Square>)
    requires ep.Some? ==> ep.value.OnBoard()
    ensures ParseEnPassant(EpText(ep)) == Some(ep)
  {
  }

  /** Six fields that each read back as the matching part of `g` read
      back as `g`. */
  lemma ParseSixFields(fs: seq<string>, g: GameState)
    requires |fs| == 6 && |g.board| == 64
    requires |Split(fs[0], '/')| == 8 && ParseRows(Split(fs[0], '/'), 0, EmptyCells()) == Some(g.board)
    requires ParseSide(fs[1]) == Some(g.sideToMove) && ParseCastling(fs[2]) == g.castling
    requires ParseEnPassant(fs[3]) == Some(g.enPassant)
    requires ParseInt(fs[4]) == Some(g.halfmoveClock as int) && ParseInt(fs[5]) == Some(g.fullmoveNumber as int)
    ensures ParseFields(fs) == Some(g)
  {
  }

  /** Printing `g` with a placement that reads back as `g`'s board, then
      reading, gives `g` back. */
  lemma {:induction false} RoundTripWith(placement: string, g: GameState)
    requires g.Valid()
    requires placement != [] && Solid(placement)
    requires |Split(placement, '/')| == 8 && ParseRows(Split(placement, '/'), 0, EmptyCells()) == Some(g.board)
    ensures ParseFen(Join(RenderFields(placement, g), ' ')) == Some(g)
  {
    var fs := RenderFields(placement, g);
    RenderedParts(placement, g);
    SideRead(g.sideToMove);
    CastlingRead(g.castling);
    EpRead(g.enPassant);
    ParseIntText(g.halfmoveClock);
    ParseIntText(g.fullmoveNumber);
    ParseSixFields(fs, g);
  }

  /** Reading back what the printer writes gives the state back. */
  lemma RoundTrip(g: GameState)
    requires g.Valid()
    ensures ParseFen(RenderFen(g)) == Some(g)
  {
    PlacementSolid(g.board);
    PlacementRoundTrip(g.board);
    RoundTripWith(PlacementText(g.board), g);
  }

  /** Printing a state read from a FEN gives back a FEN that reads as the
      same state. */
  lemma ReparseStable(fen: string)
    requires ParseFen(fen).Some?
    ensures ParseFen(fen).value.Valid()
    ensures ParseFen(RenderFen(ParseFen(fen).value)) == ParseFen(fen)
  {
    RoundTrip(ParseFen(fen).value);
  }

  // ---------------------------------------------------- the start position

  /** The back-rank pieces from the a-file to the h-file. */
  function BackRankKind(file: int): PieceType {
    if file == 0 || file == 7 then R
    else if file == 1 || file == 6 then N
    else if file == 2 || file == 5 then B
    else if file == 3 then Q
    else K
  }

  /** Cell `i` of the initial position. */
  function StartCell(i: int): Option<Piece> {
    if i < 8 then Some(Piece(BackRankKind(i), White))
    else if i < 16 then Some(Piece(P, White))
    else if i < 48 then None
    else if i < 56 then Some(Piece(P, Black))
    else Some(Piece(BackRankKind(i - 56), Black))
  }

  /** The initial position, White to move, all rights held. */
  function StartState(): (g: GameState)
    ensures g.Valid()
  {
    GameState(seq(64, i => StartCell(i)), White, CastlingRights())
  }

  /** Cells that all hold pieces are written as their letters. */
  lemma {:induction false} LettersText(cells: Cells, letters: string)
    requires |cells| == |letters| <= 8
    requires forall k :: 0 <= k < |cells| ==> cells[k].Some? && PieceToChar(cells[k].value) == letters[k]
    ensures CellsText(cells, 0) == letters
    decreases |cells|
  {
    if cells != [] {
      LettersText(cells[1..], letters[1..]);
      assert letters == [letters[0]] + letters[1..];
    }
  }

  /** Empty cells only lengthen the pending run. */
  lemma {:induction false} NonesText(cells: Cells, empty: int)
    requires 0 <= empty && empty + |cells| <= 8
    requires forall k :: 0 <= k < |cells| ==> cells[k] == None
    ensures CellsText(cells, empty) == Pending(empty + |cells|)
    decreases |cells|
  {
    if cells != [] {
      NonesText(cells[1..], empty + 1);
    }
  }

  lemma StartRank7()
    ensures RankText(StartState().board, 7) == "rnbqkbnr"
  {
    LettersText(RankCells(StartState().board, 7), "rnbqkbnr");
  }

  lemma StartRank6()
    ensures RankText(StartState().board, 6) == "pppppppp"
  {
    LettersText(RankCells(StartState().board, 6), "pppppppp");
  }

  lemma StartRank1()
    ensures RankText(StartState().board, 1) == "PPPPPPPP"
  {
    LettersText(RankCells(StartState().board, 1), "PPPPPPPP");
  }

  lemma StartRank0()
    ensures RankText(StartState().board, 0) == "RNBQKBNR"
  {
    LettersText(RankCells(StartState().board, 0), "RNBQKBNR");
  }

  lemma StartEmptyRanks()
    ensures forall r :: 2 <= r <= 5 ==> RankText(StartState().board, r) == "8"
  {
    forall r | 2 <= r <= 5
      ensures RankText(StartState().board, r) == "8"
    {
      NonesText(RankCells(StartState().board, r), 0);
    }
  }

  /** The eight printed ranks, top first. */
  lemma RankTextsEight(board: Cells)
    requires |board| == 64
    ensures RankTextsFrom(board, 7) == [RankText(board, 7), RankText(board, 6), RankText(board, 5),
      RankText(board, 4), RankText(board, 3), RankText(board, 2), RankText(board, 1), RankText(board, 0)]
  {
    var texts := RankTextsFrom(board, 7);
    forall r | 0 <= r <= 7
      ensures texts[7 - r] == RankText(board, r)
    {
      RankTextsFromAt(board, 7, r);
    }
  }

  /** The printed ranks of the initial position. */
  lemma StartRankTexts()
    ensures RankTextsFrom(StartState().board, 7)
      == ["rnbqkbnr", "pppppppp", "8", "8", "8", "8", "PPPPPPPP", "RNBQKBNR"]
  {
    RankTextsEight(StartState().board);
    StartRank7();
    StartRank6();
    StartEmptyRanks();
    StartRank1();
    StartRank0();
  }

  lemma StartTopJoined()
    ensures Join(["rnbqkbnr", "pppppppp"], '/') == "rnbqkbnr/pppppppp"
  {
  }

  lemma StartMiddleJoined()
    ensures Join(["8", "8", "8", "8"], '/') == "8/8/8/8"
  {
  }

  lemma StartBottomJoined()
    ensures Join(["PPPPPPPP", "RNBQKBNR"], '/') == "PPPPPPPP/RNBQKBNR"
  {
  }

  lemma StartPiecesJoined(top: string, middle: string, bottom: string)
    requires top == "rnbqkbnr/pppppppp" && middle == "8/8/8/8" && bottom == "PPPPPPPP/RNBQKBNR"
    ensures top + "/" + middle + "/" + bottom == "rnbqkbnr/pppppppp/8/8/8/8/PPPPPPPP/RNBQKBNR"
  {
    assert top + "/" + middle == "rnbqkbnr/pppppppp/8/8/8/8";
  }

  /** Those ranks joined with `/`. */
  lemma StartRanksJoined()
    ensures Join(["rnbqkbnr", "pppppppp", "8", "8", "8", "8", "PPPPPPPP", "RNBQKBNR"], '/')
      == "rnbqkbnr/pppppppp/8/8/8/8/PPPPPPPP/RNBQKBNR"
  {
    var top, middle, bottom := ["rnbqkbnr", "pppppppp"], ["8", "8", "8", "8"], ["PPPPPPPP", "RNBQKBNR"];
    assert top + middle + bottom == ["rnbqkbnr", "pppppppp", "8", "8", "8", "8", "PPPPPPPP", "RNBQKBNR"];
    JoinConcat(top + middle, bottom, '/');
    JoinConcat(top, middle, '/');
    StartTopJoined();
    StartMiddleJoined();
    StartBottomJoined();
    StartPiecesJoined(Join(top, '/'), Join(middle, '/'), Join(bottom, '/'));
  }

  /** The placement field of the initial position. */
  lemma StartPlacement()
    ensures PlacementText(StartState().board) == "rnbqkbnr/pppppppp/8/8/8/8/PPPPPPPP/RNBQKBNR"
  {
    StartRankTexts();
    StartRanksJoined();
  }

  /** The six printed fields of the initial position. */
  lemma StartFields()
    ensures RenderFields(PlacementText(StartState().board), StartState())
      == ["rnbqkbnr/pppppppp/8/8/8/8/PPPPPPPP/RNBQKBNR", "w", "KQkq", "-", "0", "1"]
  {
    StartPlacement();
    StartFieldsAfter(PlacementText(StartState().board));
  }

  lemma StartFieldsAfter(placement: string)
    requires placement == "rnbqkbnr/pppppppp/8/8/8/8/PPPPPPPP/RNBQKBNR"
    ensures RenderFields(placement, StartState())
      == ["rnbqkbnr/pppppppp/8/8/8/8/PPPPPPPP/RNBQKBNR", "w", "KQkq", "-", "0", "1"]
  {
    assert CastlingText(CastlingRights()) == "KQkq";
    assert IntText(0) == "0" && IntText(1) == "1";
  }

  lemma StartTailJoined()
    ensures Join(["w", "KQkq", "-", "0", "1"], ' ') == "w KQkq - 0 1"
  {
  }

  lemma StartFenPieces(placement: string, tail: string)
    requires placement == "rnbqkbnr/pppppppp/8/8/8/8/PPPPPPPP/RNBQKBNR" && tail == "w KQkq - 0 1"
    ensures placement + " " + tail == StartFen
  {
  }

  /** Those fields joined with single spaces are the start FEN. */
  lemma StartFieldsJoined()
    ensures Join(["rnbqkbnr/pppppppp/8/8/8/8/PPPPPPPP/RNBQKBNR", "w", "KQkq", "-", "0", "1"], ' ') == StartFen
  {
    var head, tail := ["rnbqkbnr/pppppppp/8/8/8/8/PPPPPPPP/RNBQKBNR"], ["w", "KQkq", "-", "0", "1"];
    assert head + tail == ["rnbqkbnr/pppppppp/8/8/8/8/PPPPPPPP/RNBQKBNR", "w", "KQkq", "-", "0", "1"];
    JoinConcat(head, tail, ' ');
    StartTailJoined();
    StartFenPieces(Join(head, ' '), Join(tail, ' '));
  }

  /** Printing the initial position writes the start FEN. */
  lemma StartRendered()
    ensures RenderFen(StartState()) == StartFen
  {
    StartFields();
    StartFieldsJoined();
  }

  /** The start FEN reads as the initial position with White to move, and
      printing that position writes the start FEN again. */
  lemma StartFenRoundTrip()
    ensures ParseFen(StartFen) == Some(StartState())
    ensures ParseFen(StartFen).value.sideToMove == White
    ensures RenderFen(ParseFen(StartFen).value) == StartFen
  {
    StartRendered();
    RoundTrip(StartState());
  }
}
