/** The engine's position: a 64-cell board, the side to move, four castling
    flags and an optional en-passant target. A position is never changed in
    place: `Make` builds the successor from a private copy of the cells. */
module EngineBoard {
  import opened Wrappers
  import opened EngineModels

  datatype Board = Board(
    squares: seq<Option<Piece>>,
    sideToMove: Side,
    whiteCastleK: bool,
    whiteCastleQ: bool,
    blackCastleK: bool,
    blackCastleQ: bool,
    enPassant: Option<Square>)
  {
    /** What the private constructor, `Start` and `Make` guarantee of every
        board: 64 cells, and an en-passant target (if any) on the board. */
    predicate Valid() {
      |squares| == 64 && (enPassant.Some? ==> enPassant.value.OnBoard())
    }

    function PieceAt(sq: Square): Option<Piece>
      requires Valid() && sq.OnBoard()
    {
      squares[sq.Idx()]
    }
  }

  // ---------------------------------------------------------------------
  // Applying a move
  // ---------------------------------------------------------------------

  predicate IsCastle(m: Move) {
    m.isCastleKing || m.isCastleQueen
  }

  /** The back rank of `side`: White's is rank 7, Black's rank 0. */
  function HomeRank(side: Side): int {
    if side == White then 7 else 0
  }

  /** The square of the pawn an en-passant capture by `side` onto `to` removes. */
  function EpVictim(side: Side, to: Square): Square {
    Square(to.file, if side == White then to.rank + 1 else to.rank - 1)
  }

  /** The four squares a castling move touches. */
  datatype CastleSquares = CastleSquares(kingFrom: Square, kingTo: Square, rookFrom: Square, rookTo: Square)

  function CastlePlan(side: Side, kingside: bool): CastleSquares {
    var rank := HomeRank(side);
    if kingside then CastleSquares(Square(4, rank), Square(6, rank), Square(7, rank), Square(5, rank))
    else CastleSquares(Square(4, rank), Square(2, rank), Square(0, rank), Square(3, rank))
  }

  /** Every cell `Make` reads or writes is on the board (the generator only
      produces such moves). */
  predicate Applicable(b: Board, m: Move) {
    m.from.OnBoard() && m.to.OnBoard() &&
    (!IsCastle(m) && m.isEnPassant ==> EpVictim(b.sideToMove, m.to).OnBoard())
  }

  /** The piece that lands on `m.to` in a non-castling move. */
  function Landing(b: Board, m: Move): Option<Piece>
    requires b.Valid() && Applicable(b, m)
  {
    if m.promotion.Some? then Some(Piece(m.promotion.value, b.sideToMove)) else b.PieceAt(m.from)
  }

  /** Cell `i` after the move, stated square by square. */
  function CellAfter(b: Board, m: Move, i: int): Option<Piece>
    requires b.Valid() && Applicable(b, m) && 0 <= i < 64
  {
    if IsCastle(m) then
      var c := CastlePlan(b.sideToMove, m.isCastleKing);
      if i == c.kingTo.Idx() then b.PieceAt(c.kingFrom)
      else if i == c.rookTo.Idx() then b.PieceAt(c.rookFrom)
      else if i == c.kingFrom.Idx() || i == c.rookFrom.Idx() then None
      else b.squares[i]
    else if i == m.to.Idx() then Landing(b, m)
    else if i == m.from.Idx() || (m.isEnPassant && i == EpVictim(b.sideToMove, m.to).Idx()) then None
    else b.squares[i]
  }

  /** A castling right survives a move unless that side's king moves, or a rook
      of that side leaves, or is captured on, the right's corner square. */
  function RightAfter(moved: Option<Piece>, captured: Option<Piece>, m: Move, side: Side, corner: Square, had: bool): bool {
    had && MoverKeeps(moved, m.from, side, corner) && CaptureKeeps(captured, m.to, side, corner)
  }

  predicate MoverKeeps(moved: Option<Piece>, from: Square, side: Side, corner: Square) {
    moved != Some(Piece(King, side)) && !(moved == Some(Piece(Rook, side)) && from == corner)
  }

  predicate CaptureKeeps(captured: Option<Piece>, to: Square, side: Side, corner: Square) {
    !(captured == Some(Piece(Rook, side)) && to == corner)
  }

  /** The en-passant target after the move: the square a pawn double push
      passed over, and none otherwise. */
  function EnPassantAfter(b: Board, m: Move): Option<Square>
    requires b.Valid() && Applicable(b, m)
  {
    var moved := b.PieceAt(m.from);
    var white := b.sideToMove == White;
    if moved.Some? && moved.value.kind == Pawn
       && m.from.rank == (if white then 6 else 1) && m.to.rank == (if white then 4 else 3)
    then Some(Square(m.from.file, if white then 5 else 2))
    else None
  }

  /** The position after `m`, as a value. */
  function Applied(b: Board, m: Move): Board
    requires b.Valid() && Applicable(b, m)
  {
    Board(
      seq(64, i requires 0 <= i < 64 => CellAfter(b, m, i)),
      b.sideToMove.Other(),
      RightAfter(b.PieceAt(m.from), b.PieceAt(m.to), m, White, Square(7, 7), b.whiteCastleK),
      RightAfter(b.PieceAt(m.from), b.PieceAt(m.to), m, White, Square(0, 7), b.whiteCastleQ),
      RightAfter(b.PieceAt(m.from), b.PieceAt(m.to), m, Black, Square(7, 0), b.blackCastleK),
      RightAfter(b.PieceAt(m.from), b.PieceAt(m.to), m, Black, Square(0, 0), b.blackCastleQ),
      EnPassantAfter(b, m))
  }

  /** The cells after a castling move, as four writes in source order. */
  function CastledCells(b: Board, m: Move): (cells: seq<Option<Piece>>)
    requires b.Valid() && Applicable(b, m) && IsCastle(m)
    ensures |cells| == 64
  {
    var base := if b.sideToMove == White then 56 else 0;
    var kf := base + 4;
    var kt := base + if m.isCastleKing then 6 else 2;
    var rf := base + if m.isCastleKing then 7 else 0;
    var rt := base + if m.isCastleKing then 5 else 3;
    b.squares[kt := b.squares[kf]][kf := None][rt := b.squares[rf]][rf := None]
  }

  lemma CastledCellsAfter(b: Board, m: Move)
    requires b.Valid() && Applicable(b, m) && IsCastle(m)
    ensures forall i :: 0 <= i < 64 ==> CastledCells(b, m)[i] == CellAfter(b, m, i)
  {
    forall i | 0 <= i < 64
      ensures CastledCells(b, m)[i] == CellAfter(b, m, i)
    {
      CastleCellAfter(b, m, i);
    }
  }

  /** The piece-moving half of `make` for a castling move, on a copy of the cells. */
  method CastleCells(b: Board, m: Move, cells: array<Option<Piece>>)
    requires b.Valid() && Applicable(b, m) && IsCastle(m)
    requires cells.Length == 64 && cells[..] == b.squares
    modifies cells
    ensures forall i :: 0 <= i < 64 ==> cells[i] == CellAfter(b, m, i)
  {
    var base := if b.sideToMove == White then 56 else 0;
    var kf := base + 4;
    var kt := base + if m.isCastleKing then 6 else 2;
    var rf := base + if m.isCastleKing then 7 else 0;
    var rt := base + if m.isCastleKing then 5 else 3;
    cells[kt] := cells[kf];
    cells[kf] := None;
    cells[rt] := cells[rf];
    cells[rf] := None;
    assert cells[..] == CastledCells(b, m);
    CastledCellsAfter(b, m);
  }

  /** `CellAfter` for a castling move, in cell indices. */
  lemma CastleCellAfter(b: Board, m: Move, i: int)
    requires b.Valid() && Applicable(b, m) && IsCastle(m) && 0 <= i < 64
    ensures var base := if b.sideToMove == White then 56 else 0;
      var kt := base + if m.isCastleKing then 6 else 2;
      var rf := base + if m.isCastleKing then 7 else 0;
      var rt := base + if m.isCastleKing then 5 else 3;
      CellAfter(b, m, i) ==
        if i == kt then b.squares[base + 4]
        else if i == rt then b.squares[rf]
        else if i == base + 4 || i == rf then None
        else b.squares[i]
  {
    var c := CastlePlan(b.sideToMove, m.isCastleKing);
    if b.sideToMove == White && m.isCastleKing {
      assert c == CastleSquares(Square(4, 7), Square(6, 7), Square(7, 7), Square(5, 7));
      assert CellAfter(b, m, i) == if i == 62 then b.squares[60] else if i == 61 then b.squares[63]
        else if i == 60 || i == 63 then None else b.squares[i];
    } else if b.sideToMove == White {
      assert c == CastleSquares(Square(4, 7), Square(2, 7), Square(0, 7), Square(3, 7));
      assert CellAfter(b, m, i) == if i == 58 then b.squares[60] else if i == 59 then b.squares[56]
        else if i == 60 || i == 56 then None else b.squares[i];
    } else if m.isCastleKing {
      assert c == CastleSquares(Square(4, 0), Square(6, 0), Square(7, 0), Square(5, 0));
      assert CellAfter(b, m, i) == if i == 6 then b.squares[4] else if i == 5 then b.squares[7]
        else if i == 4 || i == 7 then None else b.squares[i];
    } else {
      assert c == CastleSquares(Square(4, 0), Square(2, 0), Square(0, 0), Square(3, 0));
      assert CellAfter(b, m, i) == if i == 2 then b.squares[4] else if i == 3 then b.squares[0]
        else if i == 4 || i == 0 then None else b.squares[i];
    }
  }

  /** The piece-moving half of `make` for any other move, on a copy of the cells. */
  method OrdinaryCells(b: Board, m: Move, cells: array<Option<Piece>>)
    requires b.Valid() && Applicable(b, m) && !IsCastle(m)
    requires cells.Length == 64 && cells[..] == b.squares
    modifies cells
    ensures forall i :: 0 <= i < 64 ==> cells[i] == CellAfter(b, m, i)
  {
    var moving := cells[m.from.Idx()];
    cells[m.from.Idx()] := None;
    if m.isEnPassant {
      var dir := if b.sideToMove == White then 1 else -1;
      var capSq := Square(m.to.file, m.to.rank + dir);
      assert capSq == EpVictim(b.sideToMove, m.to);
      cells[capSq.Idx()] := None;
    }
    cells[m.to.Idx()] := if m.promotion.Some? then Some(Piece(m.promotion.value, b.sideToMove)) else moving;
  }

  /** The castling-flag updates of `make` driven by the moving piece: a king
      move clears both of its side's flags, a rook leaving a corner clears
      that corner's flag. */
  method MoverFlags(movedPiece: Option<Piece>, from: Square, wK0: bool, wQ0: bool, bK0: bool, bQ0: bool)
    returns (wK: bool, wQ: bool, bK: bool, bQ: bool)
    ensures wK == (wK0 && MoverKeeps(movedPiece, from, White, Square(7, 7)))
    ensures wQ == (wQ0 && MoverKeeps(movedPiece, from, White, Square(0, 7)))
    ensures bK == (bK0 && MoverKeeps(movedPiece, from, Black, Square(7, 0)))
    ensures bQ == (bQ0 && MoverKeeps(movedPiece, from, Black, Square(0, 0)))
  {
    wK, wQ, bK, bQ := wK0, wQ0, bK0, bQ0;
    if movedPiece == Some(Piece(King, White)) { wK, wQ := false, false; }
    if movedPiece == Some(Piece(King, Black)) { bK, bQ := false, false; }
    if movedPiece == Some(Piece(Rook, White)) && from.rank == 7 && (from.file == 0 || from.file == 7) {
      if from.file == 0 { wQ := false; } else { wK := false; }
    }
    if movedPiece == Some(Piece(Rook, Black)) && from.rank == 0 && (from.file == 0 || from.file == 7) {
      if from.file == 0 { bQ := false; } else { bK := false; }
    }
  }

  /** The castling-flag updates of `make` driven by the captured piece: a
      rook captured on a corner clears that corner's flag. */
  method CaptureFlags(cap: Option<Piece>, to: Square, wK0: bool, wQ0: bool, bK0: bool, bQ0: bool)
    returns (wK: bool, wQ: bool, bK: bool, bQ: bool)
    ensures wK == (wK0 && CaptureKeeps(cap, to, White, Square(7, 7)))
    ensures wQ == (wQ0 && CaptureKeeps(cap, to, White, Square(0, 7)))
    ensures bK == (bK0 && CaptureKeeps(cap, to, Black, Square(7, 0)))
    ensures bQ == (bQ0 && CaptureKeeps(cap, to, Black, Square(0, 0)))
  {
    wK, wQ, bK, bQ := wK0, wQ0, bK0, bQ0;
    if cap == Some(Piece(Rook, White)) && to.rank == 7 && (to.file == 0 || to.file == 7) {
      if to.file == 0 { wQ := false; } else { wK := false; }
    }
    if cap == Some(Piece(Rook, Black)) && to.rank == 0 && (to.file == 0 || to.file == 7) {
      if to.file == 0 { bQ := false; } else { bK := false; }
    }
  }

  /** The en-passant half of `make`: only a pawn's double push from its
      start rank leaves a target, the square it passed over. */
  method EnPassantAfterMove(b: Board, m: Move, movedPiece: Option<Piece>) returns (newEp: Option<Square>)
    requires b.Valid() && Applicable(b, m) && movedPiece == b.PieceAt(m.from)
    ensures newEp == EnPassantAfter(b, m)
  {
    newEp := None;
    if movedPiece.Some? && movedPiece.value.kind == Pawn {
      var startRank := if b.sideToMove == White then 6 else 1;
      var twoRank := if b.sideToMove == White then 4 else 3;
      if m.from.rank == startRank && m.to.rank == twoRank {
        newEp := Some(Square(m.from.file, if b.sideToMove == White then 5 else 2));
      }
    }
  }

  /** `make`: copy the cells, move the pieces, then update the castling flags
      and the en-passant target step by step. */
  method Make(b: Board, m: Move) returns (next: Board)
    requires b.Valid() && Applicable(b, m)
    ensures next == Applied(b, m)
  {
    var cells := new Option<Piece>[64](i requires 0 <= i < 64 => b.squares[i]);
    if m.isCastleKing || m.isCastleQueen {
      CastleCells(b, m, cells);
    } else {
      OrdinaryCells(b, m, cells);
    }
    assert cells[..] == seq(64, i requires 0 <= i < 64 => CellAfter(b, m, i));

    var movedPiece := b.PieceAt(m.from);
    var wK, wQ, bK, bQ := MoverFlags(movedPiece, m.from, b.whiteCastleK, b.whiteCastleQ, b.blackCastleK, b.blackCastleQ);
    wK, wQ, bK, bQ := CaptureFlags(b.PieceAt(m.to), m.to, wK, wQ, bK, bQ);

    var newEp := EnPassantAfterMove(b, m, movedPiece);

    next := Board(cells[..], b.sideToMove.Other(), wK, wQ, bK, bQ, newEp);
  }

  // ---------------------------------------------------------------------
  // Properties of a move's result
  // ---------------------------------------------------------------------

  lemma AppliedValid(b: Board, m: Move)
    requires b.Valid() && Applicable(b, m)
    ensures Applied(b, m).Valid()
    ensures Applied(b, m).sideToMove == b.sideToMove.Other()
  {
  }

  /** An ordinary (non-castling) move: the destination receives the moving
      piece or the promoted piece, the origin empties, and nothing else changes
      except the en-passant victim. */
  lemma OrdinaryMoveCells(b: Board, m: Move, sq: Square)
    requires b.Valid() && Applicable(b, m) && !IsCastle(m) && sq.OnBoard()
    ensures var a := Applied(b, m);
      && a.PieceAt(m.to) == (if m.promotion.Some? then Some(Piece(m.promotion.value, b.sideToMove)) else b.PieceAt(m.from))
      && (m.from != m.to ==> a.PieceAt(m.from) == None)
      && (m.isEnPassant ==> a.PieceAt(EpVictim(b.sideToMove, m.to)) == None)
      && (sq != m.from && sq != m.to && !(m.isEnPassant && sq == EpVictim(b.sideToMove, m.to))
          ==> a.PieceAt(sq) == b.PieceAt(sq))
  {
    var a := Applied(b, m);
    if m.from != m.to {
      IdxDistinct(m.from, m.to);
    }
    if m.isEnPassant {
      IdxDistinct(EpVictim(b.sideToMove, m.to), m.to);
    }
    if sq != m.from && sq != m.to && !(m.isEnPassant && sq == EpVictim(b.sideToMove, m.to)) {
      IdxDistinct(sq, m.from);
      IdxDistinct(sq, m.to);
      if m.isEnPassant {
        IdxDistinct(sq, EpVictim(b.sideToMove, m.to));
      }
    }
  }

  lemma IdxDistinct(x: Square, y: Square)
    requires x.OnBoard() && y.OnBoard() && x != y
    ensures x.Idx() != y.Idx()
  {
    if x.Idx() == y.Idx() {
      IdxInjective(x, y);
    }
  }

  /** Castling moves the king from file 4 to file 6 (kingside) or 2
      (queenside) and the rook from file 7 to 5 or from 0 to 3, on the mover's
      back rank (`CastlePlan`), whatever `m.from` and `m.to` say; no other
      square changes. */
  lemma CastleMoveCells(b: Board, m: Move, sq: Square)
    requires b.Valid() && Applicable(b, m) && IsCastle(m) && sq.OnBoard()
    ensures var a := Applied(b, m);
      var c := CastlePlan(b.sideToMove, m.isCastleKing);
      && a.PieceAt(c.kingTo) == b.PieceAt(c.kingFrom)
      && a.PieceAt(c.rookTo) == b.PieceAt(c.rookFrom)
      && a.PieceAt(c.kingFrom) == None
      && a.PieceAt(c.rookFrom) == None
      && (sq != c.kingFrom && sq != c.kingTo && sq != c.rookFrom && sq != c.rookTo
          ==> a.PieceAt(sq) == b.PieceAt(sq))
  {
    var a := Applied(b, m);
    var c := CastlePlan(b.sideToMove, m.isCastleKing);
    var rank := HomeRank(b.sideToMove);
    assert c.kingFrom == Square(4, rank) && c.kingTo.rank == rank && c.rookFrom.rank == rank && c.rookTo.rank == rank;
    assert c.kingFrom.OnBoard() && c.kingTo.OnBoard() && c.rookFrom.OnBoard() && c.rookTo.OnBoard();
    assert c.kingTo.file != 4 && c.rookTo.file != 4 && c.kingTo.file != c.rookTo.file;
    assert a.PieceAt(c.kingTo) == CellAfter(b, m, c.kingTo.Idx());
    assert a.PieceAt(c.rookTo) == CellAfter(b, m, c.rookTo.Idx());
    assert a.PieceAt(c.kingFrom) == CellAfter(b, m, c.kingFrom.Idx());
    assert a.PieceAt(c.rookFrom) == CellAfter(b, m, c.rookFrom.Idx());
    assert a.PieceAt(sq) == CellAfter(b, m, sq.Idx());
    if sq != c.kingFrom && sq != c.kingTo && sq != c.rookFrom && sq != c.rookTo {
      IdxDistinct(sq, c.kingFrom);
      IdxDistinct(sq, c.kingTo);
      IdxDistinct(sq, c.rookFrom);
      IdxDistinct(sq, c.rookTo);
    }
  }

  /** Castling rights are never regained, a king move clears both of its
      side's rights, and a rook leaving or captured on a home corner clears
      that corner's right. */
  lemma RightsOnlyShrink(b: Board, m: Move)
    requires b.Valid() && Applicable(b, m)
    ensures var a := Applied(b, m);
      && (a.whiteCastleK ==> b.whiteCastleK) && (a.whiteCastleQ ==> b.whiteCastleQ)
      && (a.blackCastleK ==> b.blackCastleK) && (a.blackCastleQ ==> b.blackCastleQ)
      && (b.PieceAt(m.from) == Some(Piece(King, White)) ==> !a.whiteCastleK && !a.whiteCastleQ)
      && (b.PieceAt(m.from) == Some(Piece(King, Black)) ==> !a.blackCastleK && !a.blackCastleQ)
      && (b.PieceAt(m.from) == Some(Piece(Rook, White)) && m.from == Square(7, 7) ==> !a.whiteCastleK)
      && (b.PieceAt(m.from) == Some(Piece(Rook, White)) && m.from == Square(0, 7) ==> !a.whiteCastleQ)
      && (b.PieceAt(m.from) == Some(Piece(Rook, Black)) && m.from == Square(7, 0) ==> !a.blackCastleK)
      && (b.PieceAt(m.from) == Some(Piece(Rook, Black)) && m.from == Square(0, 0) ==> !a.blackCastleQ)
      && (b.PieceAt(m.to) == Some(Piece(Rook, White)) && m.to == Square(7, 7) ==> !a.whiteCastleK)
      && (b.PieceAt(m.to) == Some(Piece(Rook, White)) && m.to == Square(0, 7) ==> !a.whiteCastleQ)
      && (b.PieceAt(m.to) == Some(Piece(Rook, Black)) && m.to == Square(7, 0) ==> !a.blackCastleK)
      && (b.PieceAt(m.to) == Some(Piece(Rook, Black)) && m.to == Square(0, 0) ==> !a.blackCastleQ)
  {
  }

  /** The new en-passant target is set exactly by a pawn double push:
      White from rank 6 to 4 gives (file, 5), Black from rank 1 to 3 gives (file, 2). */
  lemma EnPassantTarget(b: Board, m: Move)
    requires b.Valid() && Applicable(b, m)
    ensures var a := Applied(b, m);
      var moved := b.PieceAt(m.from);
      && (a.enPassant.Some? <==>
           moved.Some? && moved.value.kind == Pawn &&
           ((b.sideToMove == White && m.from.rank == 6 && m.to.rank == 4) ||
            (b.sideToMove == Black && m.from.rank == 1 && m.to.rank == 3)))
      && (a.enPassant.Some? ==>
           a.enPassant.value == Square(m.from.file, if b.sideToMove == White then 5 else 2))
  {
  }

  // ---------------------------------------------------------------------
  // The attack oracle
  // ---------------------------------------------------------------------

  const KnightJumps: seq<(int, int)> :=
    [(1, 2), (2, 1), (-1, 2), (-2, 1), (1, -2), (2, -1), (-1, -2), (-2, -1)]

  function Shift(sq: Square, df: int, dr: int): Square {
    Square(sq.file + df, sq.rank + dr)
  }

  /** A single step in one of the eight king directions. */
  predicate IsStep(df: int, dr: int) {
    -1 <= df <= 1 && -1 <= dr <= 1 && (df != 0 || dr != 0)
  }

  /** Piece `p` stands on `sq`, and `sq` is on the board. */
  predicate Holds(b: Board, sq: Square, p: Piece)
    requires b.Valid()
  {
    sq.OnBoard() && b.PieceAt(sq) == Some(p)
  }

  /** `n` steps of a unit offset `d` (-1, 0 or 1), kept linear for the solver. */
  function Steps(n: nat, d: int): int {
    if d > 0 then n else if d < 0 then -(n as int) else 0
  }

  /** The `n`-th square from `t` in the unit direction (df, dr). */
  function RayCell(t: Square, df: int, dr: int, n: nat): Square {
    Square(t.file + Steps(n, df), t.rank + Steps(n, dr))
  }

  lemma RayCellNext(t: Square, df: int, dr: int, n: nat)
    requires IsStep(df, dr)
    ensures RayCell(t, df, dr, n + 1) == Shift(RayCell(t, df, dr, n), df, dr)
  {
  }

  /** The ray squares before step `n` are all on the board and empty. */
  ghost predicate ClearBefore(b: Board, t: Square, df: int, dr: int, n: nat)
    requires b.Valid()
  {
    forall j :: 1 <= j < n ==> RayCell(t, df, dr, j).OnBoard() && b.PieceAt(RayCell(t, df, dr, j)).None?
  }

  /** The first occupied square of the ray holds a piece of `by` whose kind is in `kinds`. */
  ghost predicate RayAttack(b: Board, t: Square, attacker: Side, df: int, dr: int, kinds: set<PieceType>)
    requires b.Valid()
  {
    exists n: nat :: 1 <= n && ClearBefore(b, t, df, dr, n) && RayCell(t, df, dr, n).OnBoard() &&
      var p := b.PieceAt(RayCell(t, df, dr, n));
      p.Some? && p.value.side == attacker && p.value.kind in kinds
  }

  ghost predicate KnightAttack(b: Board, t: Square, attacker: Side)
    requires b.Valid()
  {
    exists k :: 0 <= k < |KnightJumps| && Holds(b, Shift(t, KnightJumps[k].0, KnightJumps[k].1), Piece(Knight, attacker))
  }

  /** The rank the oracle inspects for pawns of `attacker` when it checks a
      square of rank `rank`: one rank below for White, one above for Black.
      These are the squares such a pawn moves away from, not toward. */
  function PawnAttackRank(attacker: Side, rank: int): int {
    if attacker == White then rank - 1 else rank + 1
  }

  ghost predicate PawnAttack(b: Board, t: Square, attacker: Side)
    requires b.Valid()
  {
    Holds(b, Square(t.file - 1, PawnAttackRank(attacker, t.rank)), Piece(Pawn, attacker)) ||
    Holds(b, Square(t.file + 1, PawnAttackRank(attacker, t.rank)), Piece(Pawn, attacker))
  }

  ghost predicate KingAttack(b: Board, t: Square, attacker: Side)
    requires b.Valid()
  {
    exists df, dr :: IsStep(df, dr) && Holds(b, Shift(t, df, dr), Piece(King, attacker))
  }

  /** `t` is attacked by `by`: a knight jump, a rook or bishop ray (queens
      count on both), a pawn, or an adjacent king. */
  ghost predicate Attacked(b: Board, t: Square, attacker: Side)
    requires b.Valid()
  {
    || KnightAttack(b, t, attacker)
    || RayAttack(b, t, attacker, 1, 0, {Rook, Queen})
    || RayAttack(b, t, attacker, -1, 0, {Rook, Queen})
    || RayAttack(b, t, attacker, 0, 1, {Rook, Queen})
    || RayAttack(b, t, attacker, 0, -1, {Rook, Queen})
    || RayAttack(b, t, attacker, 1, 1, {Bishop, Queen})
    || RayAttack(b, t, attacker, 1, -1, {Bishop, Queen})
    || RayAttack(b, t, attacker, -1, 1, {Bishop, Queen})
    || RayAttack(b, t, attacker, -1, -1, {Bishop, Queen})
    || PawnAttack(b, t, attacker)
    || KingAttack(b, t, attacker)
  }

  /** How many more steps a coordinate can take in direction `d` on the board. */
  function StepsLeft(x: int, d: int): int {
    if d > 0 then 8 - x else if d < 0 then x + 1 else 0
  }

  /** Once the ray reaches a square that is off the board or occupied, the ray
      attacks exactly when that square is on the board and holds a matching piece. */
  lemma RayDecidedAt(b: Board, t: Square, attacker: Side, df: int, dr: int, kinds: set<PieceType>, n: nat)
    requires b.Valid() && IsStep(df, dr) && 1 <= n && ClearBefore(b, t, df, dr, n)
    requires !(RayCell(t, df, dr, n).OnBoard() && b.PieceAt(RayCell(t, df, dr, n)).None?)
    ensures RayAttack(b, t, attacker, df, dr, kinds) <==>
      RayCell(t, df, dr, n).OnBoard() &&
      var p := b.PieceAt(RayCell(t, df, dr, n));
      p.Some? && p.value.side == attacker && p.value.kind in kinds
  {
    if RayAttack(b, t, attacker, df, dr, kinds) {
      var k: nat :| 1 <= k && ClearBefore(b, t, df, dr, k) && RayCell(t, df, dr, k).OnBoard() &&
        var p := b.PieceAt(RayCell(t, df, dr, k));
        p.Some? && p.value.side == attacker && p.value.kind in kinds;
      assert k == n;
    }
  }

  lemma ClearBeforeStep(b: Board, t: Square, df: int, dr: int, n: nat)
    requires b.Valid() && ClearBefore(b, t, df, dr, n)
    requires RayCell(t, df, dr, n).OnBoard() && b.PieceAt(RayCell(t, df, dr, n)).None?
    ensures ClearBefore(b, t, df, dr, n + 1)
  {
  }

  /** The local `ray` of `isSquareAttacked`: walk from `t` until the edge or
      the first occupied square. */
  method Ray(b: Board, t: Square, attacker: Side, df: int, dr: int, kinds: set<PieceType>) returns (hit: bool)
    requires b.Valid() && IsStep(df, dr)
    ensures hit <==> RayAttack(b, t, attacker, df, dr, kinds)
  {
    var f, r := t.file + df, t.rank + dr;
    ghost var n: nat := 1;
    RayCellNext(t, df, dr, 0);
    while 0 <= f <= 7 && 0 <= r <= 7
      invariant 1 <= n && Square(f, r) == RayCell(t, df, dr, n)
      invariant ClearBefore(b, t, df, dr, n)
      decreases StepsLeft(f, df) + StepsLeft(r, dr)
    {
      var p := b.squares[r * 8 + f];
      assert p == b.PieceAt(RayCell(t, df, dr, n));
      if p.Some? {
        RayDecidedAt(b, t, attacker, df, dr, kinds, n);
        return p.value.side == attacker && p.value.kind in kinds;
      }
      ClearBeforeStep(b, t, df, dr, n);
      RayCellNext(t, df, dr, n);
      f, r, n := f + df, r + dr, n + 1;
    }
    RayDecidedAt(b, t, attacker, df, dr, kinds, n);
    return false;
  }

  /** The knight block of `isSquareAttacked`. */
  method KnightNear(b: Board, target: Square, attacker: Side) returns (found: bool)
    requires b.Valid()
    ensures found <==> KnightAttack(b, target, attacker)
  {
    for k := 0 to |KnightJumps|
      invariant forall j :: 0 <= j < k ==> !Holds(b, Shift(target, KnightJumps[j].0, KnightJumps[j].1), Piece(Knight, attacker))
    {
      var (df, dr) := KnightJumps[k];
      var f, r := target.file + df, target.rank + dr;
      if 0 <= f <= 7 && 0 <= r <= 7 {
        var p := b.squares[r * 8 + f];
        assert p == b.PieceAt(Shift(target, df, dr));
        if p.Some? && p.value.side == attacker && p.value.kind == Knight {
          assert Holds(b, Shift(target, KnightJumps[k].0, KnightJumps[k].1), Piece(Knight, attacker));
          return true;
        }
      }
      assert !Holds(b, Shift(target, KnightJumps[k].0, KnightJumps[k].1), Piece(Knight, attacker));
    }
    return false;
  }

  /** The pawn block of `isSquareAttacked`. */
  method PawnNear(b: Board, target: Square, attacker: Side) returns (found: bool)
    requires b.Valid()
    ensures found <==> PawnAttack(b, target, attacker)
  {
    var dir := if attacker == White then -1 else 1;
    var fileSteps := [-1, 1];
    for k := 0 to 2
      invariant k >= 1 ==> !Holds(b, Square(target.file - 1, PawnAttackRank(attacker, target.rank)), Piece(Pawn, attacker))
      invariant k >= 2 ==> !Holds(b, Square(target.file + 1, PawnAttackRank(attacker, target.rank)), Piece(Pawn, attacker))
    {
      var f, r := target.file + fileSteps[k], target.rank + dir;
      if 0 <= f <= 7 && 0 <= r <= 7 {
        var p := b.squares[r * 8 + f];
        if p.Some? && p.value.side == attacker && p.value.kind == Pawn {
          return true;
        }
      }
    }
    return false;
  }

  /** No king of `attacker` stands on a neighbour of `t` among the first `n`
      of the 3x3 scan (rank offset outer, file offset inner). */
  ghost predicate NoKingBefore(b: Board, t: Square, attacker: Side, n: int)
    requires b.Valid()
  {
    forall df, dr :: IsStep(df, dr) && (dr + 1) * 3 + (df + 1) < n ==>
      !Holds(b, Shift(t, df, dr), Piece(King, attacker))
  }

  /** One row (rank offset `dr`) of the king block of `isSquareAttacked`. */
  method KingInRow(b: Board, target: Square, attacker: Side, dr: int) returns (found: bool)
    requires b.Valid() && -1 <= dr <= 1
    ensures found ==> exists df :: IsStep(df, dr) && Holds(b, Shift(target, df, dr), Piece(King, attacker))
    ensures !found ==> forall df :: IsStep(df, dr) ==> !Holds(b, Shift(target, df, dr), Piece(King, attacker))
  {
    for df := -1 to 2
      invariant forall df' :: -1 <= df' < df && IsStep(df', dr) ==> !Holds(b, Shift(target, df', dr), Piece(King, attacker))
    {
      if dr != 0 || df != 0 {
        var f, r := target.file + df, target.rank + dr;
        if 0 <= f <= 7 && 0 <= r <= 7 {
          var p := b.squares[r * 8 + f];
          assert p == b.PieceAt(Shift(target, df, dr));
          if p.Some? && p.value.side == attacker && p.value.kind == King {
            assert IsStep(df, dr) && Holds(b, Shift(target, df, dr), Piece(King, attacker));
            return true;
          }
        }
        assert !Holds(b, Shift(target, df, dr), Piece(King, attacker));
      }
    }
    return false;
  }

  /** The king block of `isSquareAttacked`: the 3x3 neighbourhood, rank offset
      outer and file offset inner, skipping the target itself. */
  method KingNear(b: Board, target: Square, attacker: Side) returns (found: bool)
    requires b.Valid()
    ensures found <==> KingAttack(b, target, attacker)
  {
    for dr := -1 to 2
      invariant NoKingBefore(b, target, attacker, (dr + 1) * 3)
    {
      found := KingInRow(b, target, attacker, dr);
      if found {
        return;
      }
    }
    NoKingNoAttack(b, target, attacker);
    return false;
  }

  lemma NoKingNoAttack(b: Board, t: Square, attacker: Side)
    requires b.Valid() && NoKingBefore(b, t, attacker, 9)
    ensures !KingAttack(b, t, attacker)
  {
  }

  /** `isSquareAttacked`: knights, then the eight rays, then pawns, then the
      king, returning at the first hit. */
  method IsSquareAttacked(b: Board, target: Square, attacker: Side) returns (attacked: bool)
    requires b.Valid()
    ensures attacked <==> Attacked(b, target, attacker)
  {
    attacked := KnightNear(b, target, attacker);
    if attacked { return; }
    attacked := Ray(b, target, attacker, 1, 0, {Rook, Queen});
    if attacked { return; }
    attacked := Ray(b, target, attacker, -1, 0, {Rook, Queen});
    if attacked { return; }
    attacked := Ray(b, target, attacker, 0, 1, {Rook, Queen});
    if attacked { return; }
    attacked := Ray(b, target, attacker, 0, -1, {Rook, Queen});
    if attacked { return; }
    attacked := Ray(b, target, attacker, 1, 1, {Bishop, Queen});
    if attacked { return; }
    attacked := Ray(b, target, attacker, 1, -1, {Bishop, Queen});
    if attacked { return; }
    attacked := Ray(b, target, attacker, -1, 1, {Bishop, Queen});
    if attacked { return; }
    attacked := Ray(b, target, attacker, -1, -1, {Bishop, Queen});
    if attacked { return; }
    attacked := PawnNear(b, target, attacker);
    if attacked { return; }
    attacked := KingNear(b, target, attacker);
  }

  // ---------------------------------------------------------------------
  // Locating the king
  // ---------------------------------------------------------------------

  /** The lowest index at or after `i` holding `side`'s king, as a square. */
  function FirstKing(b: Board, side: Side, i: nat): Option<Square>
    requires b.Valid() && i <= 64
    decreases 64 - i
  {
    if i == 64 then None
    else if b.squares[i] == Some(Piece(King, side)) then Some(FromIdx(i))
    else FirstKing(b, side, i + 1)
  }

  function KingLocation(b: Board, side: Side): Option<Square>
    requires b.Valid()
  {
    FirstKing(b, side, 0)
  }

  /** `kingSquare` finds the lowest-index square holding `side`'s king, and
      finds nothing exactly when there is no such king. */
  lemma {:induction false} FirstKingSpec(b: Board, side: Side, i: nat)
    requires b.Valid() && i <= 64
    ensures var r := FirstKing(b, side, i);
      && (r.None? <==> forall j :: i <= j < 64 ==> b.squares[j] != Some(Piece(King, side)))
      && (r.Some? ==>
            && r.value.OnBoard() && i <= r.value.Idx()
            && b.PieceAt(r.value) == Some(Piece(King, side))
            && forall j :: i <= j < r.value.Idx() ==> b.squares[j] != Some(Piece(King, side)))
    decreases 64 - i
  {
    if i == 64 {
    } else if b.squares[i] == Some(Piece(King, side)) {
      var sq := FromIdx(i);
      assert sq.OnBoard() && sq.Idx() == i;
    } else {
      FirstKingSpec(b, side, i + 1);
    }
  }

  /** `kingSquare`; `None` stands for the "King not found" error. */
  method KingSquare(b: Board, side: Side) returns (sq: Option<Square>)
    requires b.Valid()
    ensures sq == KingLocation(b, side)
  {
    for i := 0 to 64
      invariant FirstKing(b, side, i) == KingLocation(b, side)
    {
      var p := b.squares[i];
      if p.Some? && p.value.kind == King && p.value.side == side {
        return Some(FromIdx(i));
      }
    }
    return None;
  }

  // ---------------------------------------------------------------------
  // The start position
  // ---------------------------------------------------------------------

  const BackRank: seq<PieceType> := [Rook, Knight, Bishop, Queen, King, Bishop, Knight, Rook]

  /** The piece `start` puts on (file, rank): Black on ranks 0-1, White on 6-7. */
  function StartPiece(file: int, rank: int): Option<Piece>
    requires 0 <= file < 8
  {
    if rank == 0 then Some(Piece(BackRank[file], Black))
    else if rank == 1 then Some(Piece(Pawn, Black))
    else if rank == 6 then Some(Piece(Pawn, White))
    else if rank == 7 then Some(Piece(BackRank[file], White))
    else None
  }

  /** `start`: fill the back ranks, then the pawn ranks. */
  method Start() returns (b: Board)
    ensures b.Valid()
    ensures forall sq: Square :: sq.OnBoard() ==> b.PieceAt(sq) == StartPiece(sq.file, sq.rank)
    ensures b.sideToMove == White && b.enPassant == None
    ensures b.whiteCastleK && b.whiteCastleQ && b.blackCastleK && b.blackCastleQ
  {
    var arr := new Option<Piece>[64](_ => None);
    for f := 0 to 8
      invariant forall sq: Square :: sq.OnBoard() ==>
        arr[sq.Idx()] == if (sq.rank == 0 || sq.rank == 7) && sq.file < f then StartPiece(sq.file, sq.rank) else None
    {
      arr[0 * 8 + f] := Some(Piece(BackRank[f], Black));
      arr[7 * 8 + f] := Some(Piece(BackRank[f], White));
    }
    for f := 0 to 8
      invariant forall sq: Square :: sq.OnBoard() ==>
        arr[sq.Idx()] == if sq.rank == 0 || sq.rank == 7 || ((sq.rank == 1 || sq.rank == 6) && sq.file < f)
                         then StartPiece(sq.file, sq.rank) else None
    {
      arr[1 * 8 + f] := Some(Piece(Pawn, Black));
      arr[6 * 8 + f] := Some(Piece(Pawn, White));
    }
    b := Board(arr[..], White, true, true, true, true, None);
  }

  function PieceCount(s: seq<Option<Piece>>): nat {
    if s == [] then 0 else (if s[0].Some? then 1 else 0) + PieceCount(s[1..])
  }

  lemma {:induction false} PieceCountAppend(s: seq<Option<Piece>>, t: seq<Option<Piece>>)
    ensures PieceCount(s + t) == PieceCount(s) + PieceCount(t)
  {
    if s != [] {
      assert (s + t)[0] == s[0] && (s + t)[1..] == s[1..] + t;
      PieceCountAppend(s[1..], t);
    } else {
      assert s + t == t;
    }
  }

  lemma {:induction false} PieceCountUniform(s: seq<Option<Piece>>, full: bool)
    requires forall i :: 0 <= i < |s| ==> s[i].Some? == full
    ensures PieceCount(s) == if full then |s| else 0
  {
    if s != [] {
      PieceCountUniform(s[1..], full);
    }
  }

  /** The start layout holds 32 pieces, Black's on ranks 0-1 and White's on
      ranks 6-7, with a king of each side on file 4. */
  lemma StartLayout(b: Board)
    requires b.Valid() && forall sq: Square :: sq.OnBoard() ==> b.PieceAt(sq) == StartPiece(sq.file, sq.rank)
    ensures PieceCount(b.squares) == 32
    ensures forall sq: Square :: sq.OnBoard() ==>
      && (b.PieceAt(sq).Some? <==> sq.rank <= 1 || sq.rank >= 6)
      && (b.PieceAt(sq).Some? ==> (b.PieceAt(sq).value.side == Black <==> sq.rank <= 1))
    ensures b.PieceAt(Square(4, 7)) == Some(Piece(King, White)) && b.PieceAt(Square(4, 0)) == Some(Piece(King, Black))
  {
    var s := b.squares;
    forall i | 0 <= i < 64
      ensures s[i].Some? <==> i < 16 || i >= 48
    {
      var sq := FromIdx(i);
      assert sq.OnBoard() && sq.Idx() == i;
    }
    assert s == s[..16] + s[16..48] + s[48..];
    PieceCountAppend(s[..16], s[16..48]);
    PieceCountAppend(s[..16] + s[16..48], s[48..]);
    PieceCountUniform(s[..16], true);
    PieceCountUniform(s[16..48], false);
    PieceCountUniform(s[48..], true);
  }
}
