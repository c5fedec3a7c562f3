/** `fenToState` and `stateToFen` as the loops they are: the parser fills
    a 64-cell array rank by rank and the printer appends to a growing
    text. Each is proved to compute the matching function of `CoreFen`,
    so the round trip proved there holds for them. */
module CoreFenMethods {
  import opened Wrappers
  import opened Text
  import opened CoreModels
  import opened CoreFen

  // ----------------------------------------------------------- parsing

  /** One row of the placement, written into `board` from file 0 on; false
      where the source throws. */
  method ReadRow(row: string, rankFromTop: int, board: array<Option<Piece>>) returns (ok: bool)
    requires board.Length == 64 && 0 <= rankFromTop < 8
    modifies board
    ensures ok <==> ParseRow(row, 7 - rankFromTop, 0, old(board[..])).Some?
    ensures ok ==> board[..] == ParseRow(row, 7 - rankFromTop, 0, old(board[..])).value
  {
    ghost var whole := ParseRow(row, 7 - rankFromTop, 0, board[..]);
    var file := 0;
    assert row[0..] == row;
    for j := 0 to |row|
      invariant file >= 0
      invariant ParseRow(row[j..], 7 - rankFromTop, file, board[..]) == whole
    {
      var c := row[j];
      assert row[j..][0] == c && row[j..][1..] == row[j + 1..];
      if IsDigit(c) {
        file := file + DigitValue(c);
      } else if CharToPiece(c).Some? {
        var rank := 7 - rankFromTop;
        var i := Idx(file, rank);
        if i >= 64 {
          return false;
        }
        board[i] := CharToPiece(c);
        file := file + 1;
      } else if c == '/' {
      } else {
        return false;
      }
    }
    ok := file == 8;
  }

  /** The placement field read into a fresh 64-cell array. */
  method ReadBoard(placement: string) returns (cells: Option<Cells>)
    ensures var ranks := Split(placement, '/');
      cells == if |ranks| == 8 then ParseRows(ranks, 0, EmptyCells()) else None
  {
    var board := new Option<Piece>[64](_ => None);
    assert board[..] == EmptyCells();
    var ranks := Split(placement, '/');
    if |ranks| != 8 {
      return None;
    }
    ghost var whole := ParseRows(ranks, 0, EmptyCells());
    for rankFromTop := 0 to 8
      invariant ParseRows(ranks, rankFromTop, board[..]) == whole
    {
      var ok := ReadRow(ranks[rankFromTop], rankFromTop, board);
      if !ok {
        return None;
      }
    }
    cells := Some(board[..]);
  }

  /** The en-passant field: `Some(None)` for `-`, `None` where the source
      throws. */
  method ReadEnPassant(sq: string) returns (ep: Option<Option<Square>>)
    ensures ep == ParseEnPassant(sq)
  {
    if sq == "-" {
      return Some(None);
    }
    if |sq| != 2 {
      return None;
    }
    var built := NewSquare(sq[0] as int - 'a' as int, sq[1] as int - '1' as int);
    if built.None? {
      return None;
    }
    ep := Some(built);
  }

  /** `fenToState`: `None` wherever the source throws. */
  method FenToState(fen: string) returns (r: Option<GameState>)
    ensures r == ParseFen(fen)
  {
    var parts := Parts(fen);
    if |parts| < 4 {
      return None;
    }
    var board := ReadBoard(parts[0]);
    if board.None? {
      return None;
    }
    var side: Color;
    if parts[1] == "w" {
      side := White;
    } else if parts[1] == "b" {
      side := Black;
    } else {
      return None;
    }
    var crStr := parts[2];
    var castling := CastlingRights('K' in crStr, 'Q' in crStr, 'k' in crStr, 'q' in crStr);
    var ep := ReadEnPassant(parts[3]);
    if ep.None? {
      return None;
    }
    var half := Counter(parts, 4, 0);
    var full := Counter(parts, 5, 1);
    r := NewGameState(board.value, side, castling, ep.value, half, full);
  }

  // ---------------------------------------------------------- printing

  /** Appending to a builder one piece after another. */
  lemma Regroup(before: string, x: string, y: string, rest: string)
    ensures before + x + y + rest == before + (x + y + rest)
  {
  }

  /** Appends rank `rank` as printed. */
  method AppendRank(sb: string, board: Cells, rank: int) returns (out: string)
    requires |board| == 64 && 0 <= rank <= 7
    ensures out == sb + RankText(board, rank)
  {
    ghost var cells := RankCells(board, rank);
    out := sb;
    var empty := 0;
    assert cells[0..] == cells;
    for file := 0 to 8
      invariant 0 <= empty <= file
      invariant out + CellsText(cells[file..], empty) == sb + RankText(board, rank)
    {
      var p := board[Idx(file, rank)];
      assert cells[file..][0] == p && cells[file..][1..] == cells[file + 1..];
      if p == None {
        empty := empty + 1;
      } else {
        ghost var before, run, rest := out, Pending(empty), CellsText(cells[file + 1..], 0);
        if empty > 0 {
          RunText(empty);
          out := out + IntText(empty);
          empty := 0;
        }
        assert out == before + run;
        out := out + [PieceToChar(p.value)];
        Regroup(before, run, [PieceToChar(p.value)], rest);
      }
    }
    assert cells[8..] == [];
    if empty > 0 {
      RunText(empty);
      out := out + IntText(empty);
    }
  }

  /** The placement field: ranks 8 down to 1, `/` between. */
  method WritePlacement(board: Cells) returns (sb: string)
    requires |board| == 64
    ensures sb == PlacementText(board)
  {
    sb := "";
    var rankFromTop := 7;
    while rankFromTop >= 0
      invariant -1 <= rankFromTop <= 7
      invariant rankFromTop >= 0 ==> sb + Join(RankTextsFrom(board, rankFromTop), '/') == PlacementText(board)
      invariant rankFromTop < 0 ==> sb == PlacementText(board)
      decreases rankFromTop + 1
    {
      ghost var before := sb;
      JoinRankTexts(board, rankFromTop);
      sb := AppendRank(sb, board, rankFromTop);
      if rankFromTop != 0 {
        sb := sb + "/";
        Regroup(before, RankText(board, rankFromTop), "/", Join(RankTextsFrom(board, rankFromTop - 1), '/'));
      }
      rankFromTop := rankFromTop - 1;
    }
  }

  /** The castling field: the rights held in the order `KQkq`, or `-`. */
  method WriteCastling(castling: CastlingRights) returns (cr: string)
    ensures cr == CastlingText(castling)
  {
    cr := "";
    if castling.whiteKingSide {
      cr := cr + "K";
    }
    if castling.whiteQueenSide {
      cr := cr + "Q";
    }
    if castling.blackKingSide {
      cr := cr + "k";
    }
    if castling.blackQueenSide {
      cr := cr + "q";
    }
    if cr == [] {
      cr := "-";
    }
  }

  /** `stateToFen`. */
  method StateToFen(state: GameState) returns (s: string)
    requires state.Valid()
    ensures s == RenderFen(state)
  {
    var sb := WritePlacement(state.board);
    var side := if state.sideToMove == White then "w" else "b";
    var cr := WriteCastling(state.castling);
    var ep := match state.enPassant
      case None => "-"
      case Some(sq) => [('a' as int + sq.file) as char, ('1' as int + sq.rank) as char];
    s := sb + " " + side + " " + cr + " " + ep + " " + IntText(state.halfmoveClock) + " " + IntText(state.fullmoveNumber);
    JoinSix(RenderFields(sb, state));
  }
}
