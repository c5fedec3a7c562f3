/** The engine's move generator: pseudo-legal moves square by square in
    ascending index order, then the filter that drops every move leaving the
    mover's king attacked. The generators hand each move to an `add`
    callback that appends it to one growing list; here each generator takes
    the list built so far and returns it extended, and the functions below
    say what the extended list is. */
module EngineMoveGen {
  import opened Wrappers
  import opened EngineModels
  import opened EngineBoard

  // ---------------------------------------------------------------------
  // What each generator appends, as functions of the board
  // ---------------------------------------------------------------------

  /** A knight jump or king step to `from + (df, dr)`: added when the target
      is on the board and not held by a piece of `side`; a capture exactly
      when the target is occupied. */
  function AddStep(b: Board, from: Square, side: Side, df: int, dr: int, acc: seq<Move>): seq<Move>
    requires b.Valid()
  {
    var to := Shift(from, df, dr);
    if to.OnBoard() && (b.PieceAt(to).None? || b.PieceAt(to).value.side != side)
    then acc + [Move(from, to, isCapture := b.PieceAt(to).Some?)]
    else acc
  }

  function AddJumps(b: Board, from: Square, side: Side, jumps: seq<(int, int)>, acc: seq<Move>): seq<Move>
    requires b.Valid()
  {
    if jumps == [] then acc
    else AddJumps(b, from, side, jumps[1..], AddStep(b, from, side, jumps[0].0, jumps[0].1, acc))
  }

  /** One row of the king's 3x3 scan, file offsets `df` up to 1. */
  function AddKingRow(b: Board, from: Square, side: Side, dr: int, df: int, acc: seq<Move>): seq<Move>
    requires b.Valid() && -1 <= df <= 2
    decreases 2 - df
  {
    if df == 2 then acc
    else
      var acc' := if df != 0 || dr != 0 then AddStep(b, from, side, df, dr, acc) else acc;
      AddKingRow(b, from, side, dr, df + 1, acc')
  }

  /** The king's steps for rank offsets `dr` up to 1, rank offset outer. */
  function AddKingRows(b: Board, from: Square, side: Side, dr: int, acc: seq<Move>): seq<Move>
    requires b.Valid() && -1 <= dr <= 2
    decreases 2 - dr
  {
    if dr == 2 then acc
    else AddKingRows(b, from, side, dr + 1, AddKingRow(b, from, side, dr, -1, acc))
  }

  /** The slides along one unit direction from the `n`-th square on: every
      empty square, then the first occupied one if it holds an enemy. */
  function AddRay(b: Board, from: Square, side: Side, df: int, dr: int, n: nat, acc: seq<Move>): seq<Move>
    requires b.Valid() && IsStep(df, dr)
    decreases StepsLeft(from.file + Steps(n, df), df) + StepsLeft(from.rank + Steps(n, dr), dr)
  {
    var to := RayCell(from, df, dr, n);
    if !to.OnBoard() then acc
    else if b.PieceAt(to).None? then
      RayCellNext(from, df, dr, n);
      AddRay(b, from, side, df, dr, n + 1, acc + [Move(from, to)])
    else if b.PieceAt(to).value.side != side then acc + [Move(from, to, isCapture := true)]
    else acc
  }

  predicate AllSteps(dirs: seq<(int, int)>) {
    forall k :: 0 <= k < |dirs| ==> IsStep(dirs[k].0, dirs[k].1)
  }

  function AddSlides(b: Board, from: Square, side: Side, dirs: seq<(int, int)>, acc: seq<Move>): seq<Move>
    requires b.Valid() && AllSteps(dirs)
  {
    if dirs == [] then acc
    else AddSlides(b, from, side, dirs[1..], AddRay(b, from, side, dirs[0].0, dirs[0].1, 1, acc))
  }

  const BishopDirs: seq<(int, int)> := [(1, 1), (1, -1), (-1, 1), (-1, -1)]
  const RookDirs: seq<(int, int)> := [(1, 0), (-1, 0), (0, 1), (0, -1)]
  const QueenDirs: seq<(int, int)> := BishopDirs + RookDirs

  /** White pawns move toward rank 0, Black pawns toward rank 7. */
  function PawnDir(side: Side): int {
    if side == White then -1 else 1
  }

  function StartRank(side: Side): int {
    if side == White then 6 else 1
  }

  function LastRank(side: Side): int {
    if side == White then 0 else 7
  }

  /** A pawn landing on the last rank is tagged as a queen promotion. */
  function PromotionOn(side: Side, rank: int): Option<PieceType> {
    if rank == LastRank(side) then Some(Queen) else None
  }

  /** The single push onto an empty square, then the double push from the
      start rank when the second square is empty too. */
  function AddPushes(b: Board, from: Square, side: Side, acc: seq<Move>): seq<Move>
    requires b.Valid() && from.OnBoard()
  {
    var dir := PawnDir(side);
    var one := Square(from.file, from.rank + dir);
    var two := Square(from.file, from.rank + 2 * dir);
    if 0 <= one.rank <= 7 && b.PieceAt(one).None? then
      var acc' := acc + [Move(from, one, promotion := PromotionOn(side, one.rank))];
      if from.rank == StartRank(side) && b.PieceAt(two).None? then acc' + [Move(from, two)] else acc'
    else acc
  }

  /** The diagonal capture toward file offset `df`. */
  function AddPawnCapture(b: Board, from: Square, side: Side, df: int, acc: seq<Move>): seq<Move>
    requires b.Valid()
  {
    var to := Square(from.file + df, from.rank + PawnDir(side));
    if to.OnBoard() && b.PieceAt(to).Some? && b.PieceAt(to).value.side != side
    then acc + [Move(from, to, promotion := PromotionOn(side, to.rank), isCapture := true)]
    else acc
  }

  function Abs(x: int): int {
    if x < 0 then -x else x
  }

  /** The en-passant capture onto the board's target square: one rank ahead
      of the pawn, on an adjacent file. */
  predicate EnPassantReach(b: Board, from: Square, side: Side) {
    b.enPassant.Some? && b.enPassant.value.rank == from.rank + PawnDir(side)
    && Abs(b.enPassant.value.file - from.file) == 1
  }

  function AddEnPassant(b: Board, from: Square, side: Side, acc: seq<Move>): seq<Move> {
    if EnPassantReach(b, from, side) then acc + [Move(from, b.enPassant.value, isEnPassant := true)]
    else acc
  }

  function AddPawn(b: Board, from: Square, side: Side, acc: seq<Move>): seq<Move>
    requires b.Valid() && from.OnBoard()
  {
    var pushed := AddPushes(b, from, side, acc);
    var left := AddPawnCapture(b, from, side, -1, pushed);
    var right := AddPawnCapture(b, from, side, 1, left);
    AddEnPassant(b, from, side, right)
  }

  function HasKingsideRight(b: Board, side: Side): bool {
    if side == White then b.whiteCastleK else b.blackCastleK
  }

  function HasQueensideRight(b: Board, side: Side): bool {
    if side == White then b.whiteCastleQ else b.blackCastleQ
  }

  /** Kingside castling is offered: the right is held, the two squares
      between king and rook are empty, and the king's square, the square it
      crosses and the square it lands on are not attacked. */
  ghost predicate KingsideOpen(b: Board, side: Side)
    requires b.Valid()
  {
    var rank := HomeRank(side);
    HasKingsideRight(b, side)
    && b.PieceAt(Square(5, rank)).None? && b.PieceAt(Square(6, rank)).None?
    && !Attacked(b, Square(4, rank), side.Other())
    && !Attacked(b, Square(5, rank), side.Other())
    && !Attacked(b, Square(6, rank), side.Other())
  }

  /** Queenside castling: the three squares between king and rook are empty
      and files 4, 3 and 2 are not attacked. */
  ghost predicate QueensideOpen(b: Board, side: Side)
    requires b.Valid()
  {
    var rank := HomeRank(side);
    HasQueensideRight(b, side)
    && b.PieceAt(Square(1, rank)).None? && b.PieceAt(Square(2, rank)).None? && b.PieceAt(Square(3, rank)).None?
    && !Attacked(b, Square(4, rank), side.Other())
    && !Attacked(b, Square(3, rank), side.Other())
    && !Attacked(b, Square(2, rank), side.Other())
  }

  /** The castling moves, each starting wherever the king stands. */
  ghost function AddCastles(b: Board, from: Square, side: Side, acc: seq<Move>): seq<Move>
    requires b.Valid()
  {
    var rank := HomeRank(side);
    var acc' := if KingsideOpen(b, side) then acc + [Move(from, Square(6, rank), isCastleKing := true)] else acc;
    if QueensideOpen(b, side) then acc' + [Move(from, Square(2, rank), isCastleQueen := true)] else acc'
  }

  ghost function AddKing(b: Board, from: Square, side: Side, acc: seq<Move>): seq<Move>
    requires b.Valid()
  {
    AddCastles(b, from, side, AddKingRows(b, from, side, -1, acc))
  }

  /** The moves of the piece on cell `i`, if it belongs to the side to move. */
  ghost function AddMovesFrom(b: Board, i: int, acc: seq<Move>): seq<Move>
    requires b.Valid() && 0 <= i < 64
  {
    var from := FromIdx(i);
    var side := b.sideToMove;
    match b.squares[i]
    case None => acc
    case Some(p) =>
      if p.side != side then acc
      else match p.kind
        case Pawn => AddPawn(b, from, side, acc)
        case Knight => AddJumps(b, from, side, KnightJumps, acc)
        case Bishop => AddSlides(b, from, side, BishopDirs, acc)
        case Rook => AddSlides(b, from, side, RookDirs, acc)
        case Queen => AddSlides(b, from, side, QueenDirs, acc)
        case King => AddKing(b, from, side, acc)
  }

  ghost function PseudoFrom(b: Board, i: int, acc: seq<Move>): seq<Move>
    requires b.Valid() && 0 <= i <= 64
    decreases 64 - i
  {
    if i == 64 then acc else PseudoFrom(b, i + 1, AddMovesFrom(b, i, acc))
  }

  /** Every pseudo-legal move of the side to move, in generation order. */
  ghost function Pseudo(b: Board): seq<Move>
    requires b.Valid()
  {
    PseudoFrom(b, 0, [])
  }

  // ---------------------------------------------------------------------
  // The generators
  // ---------------------------------------------------------------------

  /** The target test shared by the knight jumps and the king's scan. */
  method Step(b: Board, from: Square, side: Side, df: int, dr: int, moves: seq<Move>) returns (out: seq<Move>)
    requires b.Valid()
    ensures out == AddStep(b, from, side, df, dr, moves)
  {
    out := moves;
    var f, r := from.file + df, from.rank + dr;
    if 0 <= f <= 7 && 0 <= r <= 7 {
      var to := Square(f, r);
      var t := b.PieceAt(to);
      if t.None? || t.value.side != side {
        out := out + [Move(from, to, isCapture := t.Some?)];
      }
    }
  }

  /** The pushes of `genPawn`. */
  method PawnPushes(b: Board, from: Square, side: Side, moves: seq<Move>) returns (out: seq<Move>)
    requires b.Valid() && from.OnBoard()
    ensures out == AddPushes(b, from, side, moves)
  {
    var dir := if side == White then -1 else 1;
    var startRank := if side == White then 6 else 1;
    var lastRank := if side == White then 0 else 7;
    out := moves;
    var one := Square(from.file, from.rank + dir);
    if 0 <= one.rank <= 7 && b.PieceAt(one).None? {
      var promo := if one.rank == lastRank then Some(Queen) else None;
      out := out + [Move(from, one, promotion := promo)];
      if from.rank == startRank {
        var two := Square(from.file, from.rank + 2 * dir);
        if b.PieceAt(two).None? {
          out := out + [Move(from, two)];
        }
      }
    }
  }

  /** One diagonal capture of `genPawn`. */
  method PawnCapture(b: Board, from: Square, side: Side, df: int, moves: seq<Move>) returns (out: seq<Move>)
    requires b.Valid()
    ensures out == AddPawnCapture(b, from, side, df, moves)
  {
    var dir := if side == White then -1 else 1;
    var lastRank := if side == White then 0 else 7;
    out := moves;
    var f, r := from.file + df, from.rank + dir;
    assert Square(f, r) == Square(from.file + df, from.rank + PawnDir(side));
    if 0 <= f <= 7 && 0 <= r <= 7 {
      var to := Square(f, r);
      var t := b.PieceAt(to);
      if t.Some? && t.value.side != side {
        var promo := if to.rank == lastRank then Some(Queen) else None;
        assert promo == PromotionOn(side, to.rank);
        out := out + [Move(from, to, promotion := promo, isCapture := true)];
      }
    }
  }

  /** `genPawn`: pushes, the two diagonal captures, then en passant. */
  method GenPawn(b: Board, from: Square, side: Side, moves: seq<Move>) returns (out: seq<Move>)
    requires b.Valid() && from.OnBoard()
    ensures out == AddPawn(b, from, side, moves)
  {
    var dir := if side == White then -1 else 1;
    out := PawnPushes(b, from, side, moves);
    ghost var pushed := out;
    var fileSteps := [-1, 1];
    for k := 0 to 2
      invariant k == 0 ==> out == pushed
      invariant k == 1 ==> out == AddPawnCapture(b, from, side, -1, pushed)
      invariant k == 2 ==> out == AddPawnCapture(b, from, side, 1, AddPawnCapture(b, from, side, -1, pushed))
    {
      out := PawnCapture(b, from, side, fileSteps[k], out);
    }
    var ep := b.enPassant;
    if ep.Some? && ep.value.rank == from.rank + dir && Abs(ep.value.file - from.file) == 1 {
      out := out + [Move(from, ep.value, isEnPassant := true)];
    }
  }

  /** `genKnight`: the eight jumps in their fixed order. */
  method GenKnight(b: Board, from: Square, side: Side, moves: seq<Move>) returns (out: seq<Move>)
    requires b.Valid()
    ensures out == AddJumps(b, from, side, KnightJumps, moves)
  {
    out := moves;
    for k := 0 to |KnightJumps|
      invariant AddJumps(b, from, side, KnightJumps[k..], out) == AddJumps(b, from, side, KnightJumps, moves)
    {
      assert KnightJumps[k..][1..] == KnightJumps[k + 1..];
      var (df, dr) := KnightJumps[k];
      out := Step(b, from, side, df, dr, out);
    }
  }

  /** An empty square on the ray is added and the ray goes on. */
  lemma RayOpen(b: Board, from: Square, side: Side, df: int, dr: int, n: nat, acc: seq<Move>)
    requires b.Valid() && IsStep(df, dr)
    requires RayCell(from, df, dr, n).OnBoard() && b.PieceAt(RayCell(from, df, dr, n)).None?
    ensures AddRay(b, from, side, df, dr, n, acc)
      == AddRay(b, from, side, df, dr, n + 1, acc + [Move(from, RayCell(from, df, dr, n))])
  {
  }

  /** An occupied square ends the ray, added as a capture when it holds an enemy. */
  lemma RayBlocked(b: Board, from: Square, side: Side, df: int, dr: int, n: nat, acc: seq<Move>)
    requires b.Valid() && IsStep(df, dr)
    requires RayCell(from, df, dr, n).OnBoard() && b.PieceAt(RayCell(from, df, dr, n)).Some?
    ensures AddRay(b, from, side, df, dr, n, acc)
      == if b.PieceAt(RayCell(from, df, dr, n)).value.side != side
         then acc + [Move(from, RayCell(from, df, dr, n), isCapture := true)] else acc
  {
  }

  /** One direction of `genSlide`: walk until the edge or the first
      occupied square. */
  method SlideRay(b: Board, from: Square, side: Side, df: int, dr: int, moves: seq<Move>) returns (out: seq<Move>)
    requires b.Valid() && IsStep(df, dr)
    ensures out == AddRay(b, from, side, df, dr, 1, moves)
  {
    out := moves;
    var f, r := from.file + df, from.rank + dr;
    ghost var n: nat := 1;
    while 0 <= f <= 7 && 0 <= r <= 7
      invariant 1 <= n && Square(f, r) == RayCell(from, df, dr, n)
      invariant AddRay(b, from, side, df, dr, n, out) == AddRay(b, from, side, df, dr, 1, moves)
      decreases StepsLeft(f, df) + StepsLeft(r, dr)
    {
      var to := Square(f, r);
      var t := b.PieceAt(to);
      if t.None? {
        RayOpen(b, from, side, df, dr, n, out);
        out := out + [Move(from, to)];
      } else {
        RayBlocked(b, from, side, df, dr, n, out);
        if t.value.side != side {
          out := out + [Move(from, to, isCapture := true)];
        }
        return;
      }
      RayCellNext(from, df, dr, n);
      f, r := f + df, r + dr;
      n := n + 1;
    }
  }

  /** `genSlide`: every direction in turn. */
  method GenSlide(b: Board, from: Square, side: Side, dirs: seq<(int, int)>, moves: seq<Move>) returns (out: seq<Move>)
    requires b.Valid() && AllSteps(dirs)
    ensures out == AddSlides(b, from, side, dirs, moves)
  {
    out := moves;
    for k := 0 to |dirs|
      invariant AddSlides(b, from, side, dirs[k..], out) == AddSlides(b, from, side, dirs, moves)
    {
      assert dirs[k..][1..] == dirs[k + 1..];
      out := SlideRay(b, from, side, dirs[k].0, dirs[k].1, out);
    }
  }

  /** `genKing`: the 3x3 scan (rank offset outer, file offset inner), then
      kingside and queenside castling. */
  method GenKing(b: Board, from: Square, side: Side, moves: seq<Move>) returns (out: seq<Move>)
    requires b.Valid()
    ensures out == AddKing(b, from, side, moves)
  {
    out := moves;
    for dr := -1 to 2
      invariant AddKingRows(b, from, side, dr, out) == AddKingRows(b, from, side, -1, moves)
    {
      for df := -1 to 2
        invariant AddKingRows(b, from, side, dr + 1, AddKingRow(b, from, side, dr, df, out))
                  == AddKingRows(b, from, side, -1, moves)
      {
        if df != 0 || dr != 0 {
          out := Step(b, from, side, df, dr, out);
        }
      }
    }
    out := GenCastles(b, from, side, out);
  }

  /** The castling half of `genKing`. */
  method GenCastles(b: Board, from: Square, side: Side, moves: seq<Move>) returns (out: seq<Move>)
    requires b.Valid()
    ensures out == AddCastles(b, from, side, moves)
  {
    out := moves;
    var rank := if side == White then 7 else 0;
    var enemy := side.Other();
    var canK := (side == White && b.whiteCastleK) || (side == Black && b.blackCastleK);
    var kingside := false;
    if canK && b.PieceAt(Square(5, rank)).None? && b.PieceAt(Square(6, rank)).None? {
      var a4 := IsSquareAttacked(b, Square(4, rank), enemy);
      if !a4 {
        var a5 := IsSquareAttacked(b, Square(5, rank), enemy);
        if !a5 {
          var a6 := IsSquareAttacked(b, Square(6, rank), enemy);
          kingside := !a6;
        }
      }
    }
    assert kingside == KingsideOpen(b, side);
    if kingside {
      out := out + [Move(from, Square(6, rank), isCastleKing := true)];
    }
    var canQ := (side == White && b.whiteCastleQ) || (side == Black && b.blackCastleQ);
    var queenside := false;
    if canQ && b.PieceAt(Square(1, rank)).None? && b.PieceAt(Square(2, rank)).None? && b.PieceAt(Square(3, rank)).None? {
      var a4 := IsSquareAttacked(b, Square(4, rank), enemy);
      if !a4 {
        var a3 := IsSquareAttacked(b, Square(3, rank), enemy);
        if !a3 {
          var a2 := IsSquareAttacked(b, Square(2, rank), enemy);
          queenside := !a2;
        }
      }
    }
    assert queenside == QueensideOpen(b, side);
    if queenside {
      out := out + [Move(from, Square(2, rank), isCastleQueen := true)];
    }
  }

  /** The body of `pseudoLegal`'s loop: dispatch on the kind of a piece of
      the side to move standing on cell `i`. */
  method GenFrom(b: Board, i: int, moves: seq<Move>) returns (out: seq<Move>)
    requires b.Valid() && 0 <= i < 64
    ensures out == AddMovesFrom(b, i, moves)
  {
    var side := b.sideToMove;
    var from := FromIdx(i);
    var p := b.PieceAt(from);
    if p.None? || p.value.side != side {
      return moves;
    }
    match p.value.kind {
      case Pawn => out := GenPawn(b, from, side, moves);
      case Knight => out := GenKnight(b, from, side, moves);
      case Bishop => out := GenSlide(b, from, side, BishopDirs, moves);
      case Rook => out := GenSlide(b, from, side, RookDirs, moves);
      case Queen => out := GenSlide(b, from, side, QueenDirs, moves);
      case King => out := GenKing(b, from, side, moves);
    }
  }

  /** `pseudoLegal`: every cell in ascending index order. */
  method PseudoLegal(b: Board) returns (moves: seq<Move>)
    requires b.Valid()
    ensures moves == Pseudo(b)
  {
    moves := [];
    for i := 0 to 64
      invariant PseudoFrom(b, i, moves) == Pseudo(b)
    {
      moves := GenFrom(b, i, moves);
    }
  }

  // ---------------------------------------------------------------------
  // The legality filter and the game status
  // ---------------------------------------------------------------------

  /** The pseudo-legal moves, from `ms` on, that leave the mover's king
      unattacked, appended to `kept`; `None` when some candidate leaves the
      mover without a king (`kingSquare` throws). */
  ghost function LegalFilter(b: Board, ms: seq<Move>, kept: seq<Move>): Option<seq<Move>>
    requires b.Valid() && forall k :: 0 <= k < |ms| ==> Applicable(b, ms[k])
  {
    if ms == [] then Some(kept)
    else
      AppliedValid(b, ms[0]);
      var next := Applied(b, ms[0]);
      match KingLocation(next, b.sideToMove)
      case None => None
      case Some(_) =>
        LegalFilter(b, ms[1..], if SafeAfter(b, ms[0]) then kept + [ms[0]] else kept)
  }

  ghost function Legal(b: Board): Option<seq<Move>>
    requires b.Valid()
  {
    PseudoApplicable(b);
    LegalFilter(b, Pseudo(b), [])
  }

  /** `legalMoves`: make each pseudo-legal move and keep it when the mover's
      king is then not attacked. */
  method LegalMoves(b: Board) returns (legal: Option<seq<Move>>)
    requires b.Valid()
    ensures legal == Legal(b)
  {
    var side := b.sideToMove;
    var opp := side.Other();
    var pseudo := PseudoLegal(b);
    PseudoApplicable(b);
    var kept: seq<Move> := [];
    for k := 0 to |pseudo|
      invariant LegalFilter(b, pseudo[k..], kept) == Legal(b)
    {
      assert pseudo[k..][1..] == pseudo[k + 1..];
      var next := Make(b, pseudo[k]);
      AppliedValid(b, pseudo[k]);
      var king := KingSquare(next, side);
      if king.None? {
        return None;
      }
      var attacked := IsSquareAttacked(next, king.value, opp);
      if !attacked {
        kept := kept + [pseudo[k]];
      }
    }
    return Some(kept);
  }

  /** The status line: checkmate (naming the winner), stalemate, or the side
      to move thinking. */
  datatype Status = Checkmate(winner: Side) | Stalemate | Thinking(toMove: Side)

  /** The status rule of the screen; `None` when `legalMoves` or `kingSquare`
      throws. */
  ghost function StatusOf(b: Board): Option<Status>
    requires b.Valid()
  {
    match Legal(b)
    case None => None
    case Some(moves) =>
      if moves != [] then Some(Thinking(b.sideToMove))
      else match KingLocation(b, b.sideToMove)
        case None => None
        case Some(king) =>
          if Attacked(b, king, b.sideToMove.Other()) then Some(Checkmate(b.sideToMove.Other()))
          else Some(Stalemate)
  }

  method GameStatus(b: Board) returns (status: Option<Status>)
    requires b.Valid()
    ensures status == StatusOf(b)
  {
    var moves := LegalMoves(b);
    if moves.None? {
      return None;
    }
    if moves.value == [] {
      var king := KingSquare(b, b.sideToMove);
      if king.None? {
        return None;
      }
      var inCheck := IsSquareAttacked(b, king.value, b.sideToMove.Other());
      if inCheck {
        return Some(Checkmate(b.sideToMove.Other()));
      }
      return Some(Stalemate);
    }
    return Some(Thinking(b.sideToMove));
  }

  // ---------------------------------------------------------------------
  // What the generated moves are, stated without the generation order
  // ---------------------------------------------------------------------

  /** `m` goes from `from` to an on-board square not held by `side`, is a
      capture exactly when that square is occupied, and carries no other
      flag. */
  predicate Target(b: Board, from: Square, side: Side, m: Move)
    requires b.Valid()
  {
    m.to.OnBoard() && (b.PieceAt(m.to).None? || b.PieceAt(m.to).value.side != side)
    && m == Move(from, m.to, isCapture := b.PieceAt(m.to).Some?)
  }

  predicate KnightOffset(df: int, dr: int) {
    (Abs(df) == 1 && Abs(dr) == 2) || (Abs(df) == 2 && Abs(dr) == 1)
  }

  predicate KnightMove(b: Board, from: Square, side: Side, m: Move)
    requires b.Valid()
  {
    Target(b, from, side, m) && KnightOffset(m.to.file - from.file, m.to.rank - from.rank)
  }

  predicate KingStep(b: Board, from: Square, side: Side, m: Move)
    requires b.Valid()
  {
    Target(b, from, side, m) && IsStep(m.to.file - from.file, m.to.rank - from.rank)
  }

  /** A slide along (df, dr) onto the `n`-th square of the ray or one
      beyond it, with every square before it empty. */
  ghost predicate RayFrom(b: Board, from: Square, side: Side, df: int, dr: int, n: nat, m: Move)
    requires b.Valid()
  {
    Target(b, from, side, m) &&
    exists j: nat :: n <= j && m.to == RayCell(from, df, dr, j) && ClearBefore(b, from, df, dr, j)
  }

  ghost predicate RayMove(b: Board, from: Square, side: Side, df: int, dr: int, m: Move)
    requires b.Valid()
  {
    RayFrom(b, from, side, df, dr, 1, m)
  }

  ghost predicate SlideMove(b: Board, from: Square, side: Side, dirs: seq<(int, int)>, m: Move)
    requires b.Valid()
  {
    exists k :: 0 <= k < |dirs| && RayMove(b, from, side, dirs[k].0, dirs[k].1, m)
  }

  /** The single push onto an empty square, and the double push from the
      start rank over two empty squares. */
  predicate PawnPush(b: Board, from: Square, side: Side, m: Move)
    requires b.Valid() && from.OnBoard()
  {
    var dir := PawnDir(side);
    var one := Square(from.file, from.rank + dir);
    || (one.OnBoard() && b.PieceAt(one).None? && m == Move(from, one, promotion := PromotionOn(side, one.rank)))
    || (from.rank == StartRank(side) && b.PieceAt(one).None? && b.PieceAt(Square(from.file, from.rank + 2 * dir)).None?
        && m == Move(from, Square(from.file, from.rank + 2 * dir)))
  }

  /** A diagonal capture of an enemy piece one rank ahead. */
  predicate PawnTake(b: Board, from: Square, side: Side, m: Move)
    requires b.Valid()
  {
    m.to.OnBoard() && m.to.rank == from.rank + PawnDir(side) && Abs(m.to.file - from.file) == 1
    && b.PieceAt(m.to).Some? && b.PieceAt(m.to).value.side != side
    && m == Move(from, m.to, promotion := PromotionOn(side, m.to.rank), isCapture := true)
  }

  /** A pawn move: a push, a diagonal capture, or the en-passant capture. */
  predicate PawnMove(b: Board, from: Square, side: Side, m: Move)
    requires b.Valid() && from.OnBoard()
  {
    || PawnPush(b, from, side, m)
    || PawnTake(b, from, side, m)
    || (EnPassantReach(b, from, side) && m == Move(from, b.enPassant.value, isEnPassant := true))
  }

  ghost predicate CastleMove(b: Board, from: Square, side: Side, m: Move)
    requires b.Valid()
  {
    || (KingsideOpen(b, side) && m == Move(from, Square(6, HomeRank(side)), isCastleKing := true))
    || (QueensideOpen(b, side) && m == Move(from, Square(2, HomeRank(side)), isCastleQueen := true))
  }

  /** The moves a piece of kind `kind` and side `side` standing on `from` has. */
  ghost predicate PieceMove(b: Board, from: Square, side: Side, kind: PieceType, m: Move)
    requires b.Valid() && from.OnBoard()
  {
    match kind
    case Pawn => PawnMove(b, from, side, m)
    case Knight => KnightMove(b, from, side, m)
    case Bishop => SlideMove(b, from, side, BishopDirs, m)
    case Rook => SlideMove(b, from, side, RookDirs, m)
    case Queen => SlideMove(b, from, side, QueenDirs, m)
    case King => KingStep(b, from, side, m) || CastleMove(b, from, side, m)
  }

  /** A pseudo-legal move: it starts on a piece of the side to move and is
      one of that piece's moves. */
  ghost predicate PseudoMove(b: Board, m: Move)
    requires b.Valid()
  {
    m.from.OnBoard() && b.PieceAt(m.from).Some? && b.PieceAt(m.from).value.side == b.sideToMove
    && PieceMove(b, m.from, b.sideToMove, b.PieceAt(m.from).value.kind, m)
  }

  // ---------------------------------------------------------------------
  // Each generator appends exactly the moves described above
  // ---------------------------------------------------------------------

  /** One step adds exactly the move onto its target square, when that is a
      target. */
  lemma StepMember(b: Board, from: Square, side: Side, df: int, dr: int, acc: seq<Move>, m: Move)
    requires b.Valid()
    ensures m in AddStep(b, from, side, df, dr, acc) <==>
      m in acc || (Target(b, from, side, m) && m.to == Shift(from, df, dr))
  {
  }

  lemma {:induction false} JumpsMember(b: Board, from: Square, side: Side, js: seq<(int, int)>, acc: seq<Move>, m: Move)
    requires b.Valid()
    ensures m in AddJumps(b, from, side, js, acc) <==>
      m in acc || (Target(b, from, side, m) && exists k :: 0 <= k < |js| && m.to == Shift(from, js[k].0, js[k].1))
    decreases |js|
  {
    if js != [] {
      StepMember(b, from, side, js[0].0, js[0].1, acc, m);
      JumpsMember(b, from, side, js[1..], AddStep(b, from, side, js[0].0, js[0].1, acc), m);
      if exists k :: 0 <= k < |js| && m.to == Shift(from, js[k].0, js[k].1) {
        var k :| 0 <= k < |js| && m.to == Shift(from, js[k].0, js[k].1);
        if k > 0 {
          assert js[1..][k - 1] == js[k];
        }
      }
      if exists k :: 0 <= k < |js[1..]| && m.to == Shift(from, js[1..][k].0, js[1..][k].1) {
        var k :| 0 <= k < |js[1..]| && m.to == Shift(from, js[1..][k].0, js[1..][k].1);
        assert js[1..][k] == js[k + 1];
      }
    }
  }

  /** `genKnight` adds exactly the knight moves: the on-board squares a
      knight's jump away that are empty or hold an enemy. */
  lemma KnightMember(b: Board, from: Square, side: Side, acc: seq<Move>, m: Move)
    requires b.Valid()
    ensures m in AddJumps(b, from, side, KnightJumps, acc) <==> m in acc || KnightMove(b, from, side, m)
  {
    JumpsMember(b, from, side, KnightJumps, acc, m);
    var df, dr := m.to.file - from.file, m.to.rank - from.rank;
    if KnightOffset(df, dr) {
      var k :=
        if df == 1 && dr == 2 then 0 else if df == 2 && dr == 1 then 1
        else if df == -1 && dr == 2 then 2 else if df == -2 && dr == 1 then 3
        else if df == 1 && dr == -2 then 4 else if df == 2 && dr == -1 then 5
        else if df == -1 && dr == -2 then 6 else 7;
      assert m.to == Shift(from, KnightJumps[k].0, KnightJumps[k].1);
    }
    if exists k :: 0 <= k < |KnightJumps| && m.to == Shift(from, KnightJumps[k].0, KnightJumps[k].1) {
      var k :| 0 <= k < |KnightJumps| && m.to == Shift(from, KnightJumps[k].0, KnightJumps[k].1);
      assert KnightOffset(KnightJumps[k].0, KnightJumps[k].1);
    }
  }

  lemma {:induction false} KingRowMember(b: Board, from: Square, side: Side, dr: int, df: int, acc: seq<Move>, m: Move)
    requires b.Valid() && -1 <= df <= 2
    ensures m in AddKingRow(b, from, side, dr, df, acc) <==>
      m in acc || (Target(b, from, side, m) && m.to.rank - from.rank == dr
                   && df <= m.to.file - from.file <= 1 && (m.to.file - from.file != 0 || dr != 0))
    decreases 2 - df
  {
    if df < 2 {
      var acc' := if df != 0 || dr != 0 then AddStep(b, from, side, df, dr, acc) else acc;
      StepMember(b, from, side, df, dr, acc, m);
      KingRowMember(b, from, side, dr, df + 1, acc', m);
    }
  }

  lemma {:induction false} KingRowsMember(b: Board, from: Square, side: Side, dr: int, acc: seq<Move>, m: Move)
    requires b.Valid() && -1 <= dr <= 2
    ensures m in AddKingRows(b, from, side, dr, acc) <==>
      m in acc || (Target(b, from, side, m) && dr <= m.to.rank - from.rank <= 1
                   && IsStep(m.to.file - from.file, m.to.rank - from.rank))
    decreases 2 - dr
  {
    if dr < 2 {
      KingRowMember(b, from, side, dr, -1, acc, m);
      KingRowsMember(b, from, side, dr + 1, AddKingRow(b, from, side, dr, -1, acc), m);
    }
  }

  /** `genKing` adds exactly the king's steps onto on-board squares that are
      empty or hold an enemy, and the castling moves that are open. */
  lemma KingMember(b: Board, from: Square, side: Side, acc: seq<Move>, m: Move)
    requires b.Valid()
    ensures m in AddKing(b, from, side, acc) <==>
      m in acc || KingStep(b, from, side, m) || CastleMove(b, from, side, m)
  {
    KingRowsMember(b, from, side, -1, acc, m);
  }

  /** Past an empty square, the ray's moves are the quiet move onto it and
      the moves from the next square on. */
  lemma RayEmptyStep(b: Board, from: Square, side: Side, df: int, dr: int, n: nat, m: Move)
    requires b.Valid() && IsStep(df, dr) && 1 <= n && ClearBefore(b, from, df, dr, n)
    requires RayCell(from, df, dr, n).OnBoard() && b.PieceAt(RayCell(from, df, dr, n)).None?
    ensures RayFrom(b, from, side, df, dr, n, m) <==>
      m == Move(from, RayCell(from, df, dr, n)) || RayFrom(b, from, side, df, dr, n + 1, m)
  {
    var to := RayCell(from, df, dr, n);
    ClearBeforeStep(b, from, df, dr, n);
    if m == Move(from, to) {
      assert Target(b, from, side, m) && m.to == RayCell(from, df, dr, n);
    }
    if RayFrom(b, from, side, df, dr, n, m) {
      var j: nat :| n <= j && m.to == RayCell(from, df, dr, j) && ClearBefore(b, from, df, dr, j);
      if j > n {
        assert n + 1 <= j;
      }
    }
  }

  /** At the edge or the first occupied square the ray ends: its only move
      from there on is onto that square. */
  lemma RayStopStep(b: Board, from: Square, side: Side, df: int, dr: int, n: nat, m: Move)
    requires b.Valid() && 1 <= n && ClearBefore(b, from, df, dr, n)
    requires !(RayCell(from, df, dr, n).OnBoard() && b.PieceAt(RayCell(from, df, dr, n)).None?)
    ensures RayFrom(b, from, side, df, dr, n, m) <==>
      Target(b, from, side, m) && m.to == RayCell(from, df, dr, n)
  {
    if RayFrom(b, from, side, df, dr, n, m) {
      var j: nat :| n <= j && m.to == RayCell(from, df, dr, j) && ClearBefore(b, from, df, dr, j);
      if j > n {
        assert false;
      }
    }
  }

  lemma RayOpenMember(b: Board, from: Square, side: Side, df: int, dr: int, n: nat, acc: seq<Move>, m: Move)
    requires b.Valid() && IsStep(df, dr) && 1 <= n && ClearBefore(b, from, df, dr, n)
    requires RayCell(from, df, dr, n).OnBoard() && b.PieceAt(RayCell(from, df, dr, n)).None?
    requires var next := acc + [Move(from, RayCell(from, df, dr, n))];
      m in AddRay(b, from, side, df, dr, n + 1, next) <==> m in next || RayFrom(b, from, side, df, dr, n + 1, m)
    ensures m in AddRay(b, from, side, df, dr, n, acc) <==> m in acc || RayFrom(b, from, side, df, dr, n, m)
  {
    RayOpen(b, from, side, df, dr, n, acc);
    RayEmptyStep(b, from, side, df, dr, n, m);
  }

  lemma RayStopMember(b: Board, from: Square, side: Side, df: int, dr: int, n: nat, acc: seq<Move>, m: Move)
    requires b.Valid() && IsStep(df, dr) && 1 <= n && ClearBefore(b, from, df, dr, n)
    requires !(RayCell(from, df, dr, n).OnBoard() && b.PieceAt(RayCell(from, df, dr, n)).None?)
    ensures m in AddRay(b, from, side, df, dr, n, acc) <==> m in acc || RayFrom(b, from, side, df, dr, n, m)
  {
    RayStopStep(b, from, side, df, dr, n, m);
    if RayCell(from, df, dr, n).OnBoard() {
      RayBlocked(b, from, side, df, dr, n, acc);
    }
  }

  lemma {:induction false} RayMember(b: Board, from: Square, side: Side, df: int, dr: int, n: nat, acc: seq<Move>, m: Move)
    requires b.Valid() && IsStep(df, dr) && 1 <= n && ClearBefore(b, from, df, dr, n)
    ensures m in AddRay(b, from, side, df, dr, n, acc) <==> m in acc || RayFrom(b, from, side, df, dr, n, m)
    decreases StepsLeft(from.file + Steps(n, df), df) + StepsLeft(from.rank + Steps(n, dr), dr)
  {
    var to := RayCell(from, df, dr, n);
    if to.OnBoard() && b.PieceAt(to).None? {
      RayCellNext(from, df, dr, n);
      ClearBeforeStep(b, from, df, dr, n);
      RayMember(b, from, side, df, dr, n + 1, acc + [Move(from, to)], m);
      RayOpenMember(b, from, side, df, dr, n, acc, m);
    } else {
      RayStopMember(b, from, side, df, dr, n, acc, m);
    }
  }

  lemma {:induction false} SlidesMember(b: Board, from: Square, side: Side, dirs: seq<(int, int)>, acc: seq<Move>, m: Move)
    requires b.Valid() && AllSteps(dirs)
    ensures m in AddSlides(b, from, side, dirs, acc) <==> m in acc || SlideMove(b, from, side, dirs, m)
    decreases |dirs|
  {
    if dirs != [] {
      RayMember(b, from, side, dirs[0].0, dirs[0].1, 1, acc, m);
      assert AllSteps(dirs[1..]) by {
        forall k | 0 <= k < |dirs[1..]| ensures IsStep(dirs[1..][k].0, dirs[1..][k].1) {
          assert dirs[1..][k] == dirs[k + 1];
        }
      }
      SlidesMember(b, from, side, dirs[1..], AddRay(b, from, side, dirs[0].0, dirs[0].1, 1, acc), m);
      if SlideMove(b, from, side, dirs, m) {
        var k :| 0 <= k < |dirs| && RayMove(b, from, side, dirs[k].0, dirs[k].1, m);
        if k > 0 {
          assert dirs[1..][k - 1] == dirs[k];
        }
      }
      if SlideMove(b, from, side, dirs[1..], m) {
        var k :| 0 <= k < |dirs[1..]| && RayMove(b, from, side, dirs[1..][k].0, dirs[1..][k].1, m);
        assert dirs[1..][k] == dirs[k + 1];
      }
    }
  }

  /** `genPawn` adds exactly the pawn moves of `PawnMove`. */
  lemma PushesMember(b: Board, from: Square, side: Side, acc: seq<Move>, m: Move)
    requires b.Valid() && from.OnBoard()
    ensures m in AddPushes(b, from, side, acc) <==> m in acc || PawnPush(b, from, side, m)
  {
  }

  lemma CapturesMember(b: Board, from: Square, side: Side, acc: seq<Move>, m: Move)
    requires b.Valid()
    ensures m in AddPawnCapture(b, from, side, 1, AddPawnCapture(b, from, side, -1, acc)) <==>
      m in acc || PawnTake(b, from, side, m)
  {
    var dir := PawnDir(side);
    if m.to.rank == from.rank + dir && Abs(m.to.file - from.file) == 1 {
      assert m.to == Square(from.file - 1, from.rank + dir) || m.to == Square(from.file + 1, from.rank + dir);
    }
  }

  /** `genPawn` adds exactly the pawn moves of `PawnMove`. */
  lemma PawnMember(b: Board, from: Square, side: Side, acc: seq<Move>, m: Move)
    requires b.Valid() && from.OnBoard()
    ensures m in AddPawn(b, from, side, acc) <==> m in acc || PawnMove(b, from, side, m)
  {
    var pushed := AddPushes(b, from, side, acc);
    PushesMember(b, from, side, acc, m);
    CapturesMember(b, from, side, pushed, m);
  }

  /** What the oracle's pawn block sees: an on-board square counts as
      attacked by a pawn of `attacker` exactly when such a pawn stands one
      file to the side and one step BEYOND it in the direction that side's
      pawns move, the opposite of where the generator's captures come from. */
  lemma PawnAttackReversed(b: Board, t: Square, attacker: Side)
    requires b.Valid() && t.OnBoard()
    ensures PawnAttack(b, t, attacker) <==>
      exists from: Square :: Holds(b, from, Piece(Pawn, attacker))
        && t.rank == from.rank - PawnDir(attacker) && Abs(t.file - from.file) == 1
  {
    var left := Square(t.file - 1, PawnAttackRank(attacker, t.rank));
    var right := Square(t.file + 1, PawnAttackRank(attacker, t.rank));
    if PawnAttack(b, t, attacker) {
      if Holds(b, left, Piece(Pawn, attacker)) {
        assert t.rank == left.rank - PawnDir(attacker) && Abs(t.file - left.file) == 1;
      } else {
        assert t.rank == right.rank - PawnDir(attacker) && Abs(t.file - right.file) == 1;
      }
    } else {
      forall from: Square | Holds(b, from, Piece(Pawn, attacker)) && t.rank == from.rank - PawnDir(attacker)
        ensures Abs(t.file - from.file) != 1
      {
        assert from.rank == PawnAttackRank(attacker, t.rank);
        assert from != left && from != right;
      }
    }
  }

  /** Every piece of `attacker` on the board is a pawn. */
  ghost predicate OnlyPawns(b: Board, attacker: Side)
    requires b.Valid()
  {
    forall sq: Square :: sq.OnBoard() && b.PieceAt(sq).Some? && b.PieceAt(sq).value.side == attacker ==>
      b.PieceAt(sq).value.kind == Pawn
  }

  lemma NoRayWithoutPawns(b: Board, t: Square, attacker: Side, df: int, dr: int, kinds: set<PieceType>)
    requires b.Valid() && OnlyPawns(b, attacker) && Pawn !in kinds
    ensures !RayAttack(b, t, attacker, df, dr, kinds)
  {
  }

  lemma NoLeaperWithoutPawns(b: Board, t: Square, attacker: Side)
    requires b.Valid() && OnlyPawns(b, attacker)
    ensures !KnightAttack(b, t, attacker) && !KingAttack(b, t, attacker)
  {
  }

  /** When every piece of `attacker` is a pawn, only the pawn block can
      report an attack. */
  lemma OnlyPawnsAttack(b: Board, t: Square, attacker: Side)
    requires b.Valid()
    requires forall i :: 0 <= i < 64 && b.squares[i].Some? && b.squares[i].value.side == attacker ==>
      b.squares[i].value.kind == Pawn
    ensures Attacked(b, t, attacker) <==> PawnAttack(b, t, attacker)
  {
    forall sq: Square | sq.OnBoard() && b.PieceAt(sq).Some? && b.PieceAt(sq).value.side == attacker
      ensures b.PieceAt(sq).value.kind == Pawn
    {
      assert 0 <= sq.Idx() < 64;
    }
    NoLeaperWithoutPawns(b, t, attacker);
    NoRayWithoutPawns(b, t, attacker, 1, 0, {Rook, Queen});
    NoRayWithoutPawns(b, t, attacker, -1, 0, {Rook, Queen});
    NoRayWithoutPawns(b, t, attacker, 0, 1, {Rook, Queen});
    NoRayWithoutPawns(b, t, attacker, 0, -1, {Rook, Queen});
    NoRayWithoutPawns(b, t, attacker, 1, 1, {Bishop, Queen});
    NoRayWithoutPawns(b, t, attacker, 1, -1, {Bishop, Queen});
    NoRayWithoutPawns(b, t, attacker, -1, 1, {Bishop, Queen});
    NoRayWithoutPawns(b, t, attacker, -1, -1, {Bishop, Queen});
  }

  /** A capture the oracle does not see: a White pawn on file 3, rank 6 can
      capture the Black knight on file 4, rank 5, yet that square does not
      count as attacked by White. */
  lemma PawnCaptureUnseen()
    ensures var b := Board(seq(64, i => if i == 51 then Some(Piece(Pawn, White))
                                         else if i == 44 then Some(Piece(Knight, Black)) else None),
                           White, false, false, false, false, None);
      var from, t := Square(3, 6), Square(4, 5);
      && b.Valid()
      && Move(from, t, isCapture := true) in AddPawnCapture(b, from, White, 1, [])
      && !Attacked(b, t, White)
  {
    var b := Board(seq(64, i => if i == 51 then Some(Piece(Pawn, White))
                                 else if i == 44 then Some(Piece(Knight, Black)) else None),
                   White, false, false, false, false, None);
    var t := Square(4, 5);
    assert b.squares[51] == Some(Piece(Pawn, White)) && b.squares[44] == Some(Piece(Knight, Black));
    assert b.squares[35] == None && b.squares[37] == None;
    OnlyPawnsAttack(b, t, White);
  }

  lemma MovesFromMember(b: Board, i: int, acc: seq<Move>, m: Move)
    requires b.Valid() && 0 <= i < 64
    ensures m in AddMovesFrom(b, i, acc) <==>
      m in acc || (b.squares[i].Some? && b.squares[i].value.side == b.sideToMove
                   && PieceMove(b, FromIdx(i), b.sideToMove, b.squares[i].value.kind, m))
  {
    var from := FromIdx(i);
    var side := b.sideToMove;
    if b.squares[i].Some? && b.squares[i].value.side == side {
      match b.squares[i].value.kind
      case Pawn => PawnMember(b, from, side, acc, m);
      case Knight => KnightMember(b, from, side, acc, m);
      case Bishop => SlidesMember(b, from, side, BishopDirs, acc, m);
      case Rook => SlidesMember(b, from, side, RookDirs, acc, m);
      case Queen => SlidesMember(b, from, side, QueenDirs, acc, m);
      case King => KingMember(b, from, side, acc, m);
    }
  }

  /** A slide is an ordinary move onto an empty or enemy square. */
  lemma SlideMoveTarget(b: Board, from: Square, side: Side, dirs: seq<(int, int)>, m: Move)
    requires b.Valid() && SlideMove(b, from, side, dirs, m)
    ensures Target(b, from, side, m)
  {
    var k :| 0 <= k < |dirs| && RayMove(b, from, side, dirs[k].0, dirs[k].1, m);
  }

  /** Every move a piece on `from` has starts on `from`. */
  lemma PieceMoveFrom(b: Board, from: Square, side: Side, kind: PieceType, m: Move)
    requires b.Valid() && from.OnBoard() && PieceMove(b, from, side, kind, m)
    ensures m.from == from
  {
    if kind in {Bishop, Rook, Queen} {
      SlideMoveTarget(b, from, side, if kind == Bishop then BishopDirs else if kind == Rook then RookDirs else QueenDirs, m);
    }
  }

  /** The moves of the piece on cell `i` are the pseudo-legal moves that
      start there. */
  lemma MovesAtCell(b: Board, i: int, m: Move)
    requires b.Valid() && 0 <= i < 64
    ensures (b.squares[i].Some? && b.squares[i].value.side == b.sideToMove
             && PieceMove(b, FromIdx(i), b.sideToMove, b.squares[i].value.kind, m))
            <==> PseudoMove(b, m) && m.from.Idx() == i
  {
    var from := FromIdx(i);
    if b.squares[i].Some? && b.squares[i].value.side == b.sideToMove
       && PieceMove(b, from, b.sideToMove, b.squares[i].value.kind, m) {
      PieceMoveFrom(b, from, b.sideToMove, b.squares[i].value.kind, m);
      assert b.PieceAt(m.from) == b.squares[i];
    }
    if PseudoMove(b, m) && m.from.Idx() == i {
      FromIdxOfIdx(m.from);
    }
  }

  lemma {:induction false} PseudoFromMember(b: Board, i: int, acc: seq<Move>, m: Move)
    requires b.Valid() && 0 <= i <= 64
    ensures m in PseudoFrom(b, i, acc) <==> m in acc || (PseudoMove(b, m) && i <= m.from.Idx())
    decreases 64 - i
  {
    if i < 64 {
      MovesFromMember(b, i, acc, m);
      PseudoFromMember(b, i + 1, AddMovesFrom(b, i, acc), m);
      MovesAtCell(b, i, m);
    }
  }

  /** The pseudo-legal list holds exactly the moves of `PseudoMove`. */
  lemma PseudoMoves(b: Board, m: Move)
    requires b.Valid()
    ensures m in Pseudo(b) <==> PseudoMove(b, m)
  {
    PseudoFromMember(b, 0, [], m);
  }

  // ---------------------------------------------------------------------
  // Generation order
  // ---------------------------------------------------------------------

  /** `r` is `acc` with moves appended that all start at `from`. */
  ghost predicate Grows(acc: seq<Move>, r: seq<Move>, from: Square) {
    |acc| <= |r| && r[..|acc|] == acc && forall k :: |acc| <= k < |r| ==> r[k].from == from
  }

  lemma GrowsTrans(a: seq<Move>, b: seq<Move>, c: seq<Move>, from: Square)
    requires Grows(a, b, from) && Grows(b, c, from)
    ensures Grows(a, c, from)
  {
    assert c[..|a|] == c[..|b|][..|a|];
  }

  lemma StepGrows(b: Board, from: Square, side: Side, df: int, dr: int, acc: seq<Move>)
    requires b.Valid()
    ensures Grows(acc, AddStep(b, from, side, df, dr, acc), from)
  {
  }

  lemma {:induction false} JumpsGrows(b: Board, from: Square, side: Side, jumps: seq<(int, int)>, acc: seq<Move>)
    requires b.Valid()
    ensures Grows(acc, AddJumps(b, from, side, jumps, acc), from)
    decreases |jumps|
  {
    if jumps != [] {
      var next := AddStep(b, from, side, jumps[0].0, jumps[0].1, acc);
      StepGrows(b, from, side, jumps[0].0, jumps[0].1, acc);
      JumpsGrows(b, from, side, jumps[1..], next);
      GrowsTrans(acc, next, AddJumps(b, from, side, jumps, acc), from);
    }
  }

  lemma {:induction false} KingRowGrows(b: Board, from: Square, side: Side, dr: int, df: int, acc: seq<Move>)
    requires b.Valid() && -1 <= df <= 2
    ensures Grows(acc, AddKingRow(b, from, side, dr, df, acc), from)
    decreases 2 - df
  {
    if df != 2 {
      var next := if df != 0 || dr != 0 then AddStep(b, from, side, df, dr, acc) else acc;
      StepGrows(b, from, side, df, dr, acc);
      KingRowGrows(b, from, side, dr, df + 1, next);
      GrowsTrans(acc, next, AddKingRow(b, from, side, dr, df, acc), from);
    }
  }

  lemma {:induction false} KingRowsGrows(b: Board, from: Square, side: Side, dr: int, acc: seq<Move>)
    requires b.Valid() && -1 <= dr <= 2
    ensures Grows(acc, AddKingRows(b, from, side, dr, acc), from)
    decreases 2 - dr
  {
    if dr != 2 {
      var next := AddKingRow(b, from, side, dr, -1, acc);
      KingRowGrows(b, from, side, dr, -1, acc);
      KingRowsGrows(b, from, side, dr + 1, next);
      GrowsTrans(acc, next, AddKingRows(b, from, side, dr, acc), from);
    }
  }

  lemma {:induction false} RayGrows(b: Board, from: Square, side: Side, df: int, dr: int, n: nat, acc: seq<Move>)
    requires b.Valid() && IsStep(df, dr)
    ensures Grows(acc, AddRay(b, from, side, df, dr, n, acc), from)
    decreases StepsLeft(from.file + Steps(n, df), df) + StepsLeft(from.rank + Steps(n, dr), dr)
  {
    var to := RayCell(from, df, dr, n);
    if to.OnBoard() && b.PieceAt(to).None? {
      var next := acc + [Move(from, to)];
      RayCellNext(from, df, dr, n);
      RayGrows(b, from, side, df, dr, n + 1, next);
      GrowsTrans(acc, next, AddRay(b, from, side, df, dr, n, acc), from);
    }
  }

  lemma {:induction false} SlidesGrows(b: Board, from: Square, side: Side, dirs: seq<(int, int)>, acc: seq<Move>)
    requires b.Valid() && AllSteps(dirs)
    ensures Grows(acc, AddSlides(b, from, side, dirs, acc), from)
    decreases |dirs|
  {
    if dirs != [] {
      var next := AddRay(b, from, side, dirs[0].0, dirs[0].1, 1, acc);
      RayGrows(b, from, side, dirs[0].0, dirs[0].1, 1, acc);
      assert AllSteps(dirs[1..]) by {
        forall k | 0 <= k < |dirs[1..]| ensures IsStep(dirs[1..][k].0, dirs[1..][k].1) {
          assert dirs[1..][k] == dirs[k + 1];
        }
      }
      SlidesGrows(b, from, side, dirs[1..], next);
      GrowsTrans(acc, next, AddSlides(b, from, side, dirs, acc), from);
    }
  }

  lemma PawnGrows(b: Board, from: Square, side: Side, acc: seq<Move>)
    requires b.Valid() && from.OnBoard()
    ensures Grows(acc, AddPawn(b, from, side, acc), from)
  {
    var pushed := AddPushes(b, from, side, acc);
    var left := AddPawnCapture(b, from, side, -1, pushed);
    var right := AddPawnCapture(b, from, side, 1, left);
    assert Grows(acc, pushed, from);
    GrowsTrans(acc, pushed, left, from);
    GrowsTrans(acc, left, right, from);
    GrowsTrans(acc, right, AddEnPassant(b, from, side, right), from);
  }

  lemma KingGrows(b: Board, from: Square, side: Side, acc: seq<Move>)
    requires b.Valid()
    ensures Grows(acc, AddKing(b, from, side, acc), from)
  {
    var steps := AddKingRows(b, from, side, -1, acc);
    KingRowsGrows(b, from, side, -1, acc);
    GrowsTrans(acc, steps, AddCastles(b, from, side, steps), from);
  }

  lemma MovesFromGrows(b: Board, i: int, acc: seq<Move>)
    requires b.Valid() && 0 <= i < 64
    ensures Grows(acc, AddMovesFrom(b, i, acc), FromIdx(i))
  {
    var from := FromIdx(i);
    var side := b.sideToMove;
    if b.squares[i].Some? && b.squares[i].value.side == side {
      match b.squares[i].value.kind
      case Pawn => PawnGrows(b, from, side, acc);
      case Knight => JumpsGrows(b, from, side, KnightJumps, acc);
      case Bishop => SlidesGrows(b, from, side, BishopDirs, acc);
      case Rook => SlidesGrows(b, from, side, RookDirs, acc);
      case Queen => SlidesGrows(b, from, side, QueenDirs, acc);
      case King => KingGrows(b, from, side, acc);
    }
  }

  /** The moves of `s` come in ascending order of their origin's index. */
  ghost predicate OriginOrdered(s: seq<Move>) {
    forall j, k :: 0 <= j < k < |s| ==> s[j].from.Idx() <= s[k].from.Idx()
  }

  lemma {:induction false} PseudoFromOrdered(b: Board, i: int, acc: seq<Move>)
    requires b.Valid() && 0 <= i <= 64
    requires OriginOrdered(acc) && forall k :: 0 <= k < |acc| ==> acc[k].from.Idx() < i
    ensures OriginOrdered(PseudoFrom(b, i, acc))
    decreases 64 - i
  {
    if i < 64 {
      var next := AddMovesFrom(b, i, acc);
      MovesFromGrows(b, i, acc);
      forall k | 0 <= k < |acc| ensures next[k] == acc[k] {
        assert next[..|acc|][k] == next[k];
      }
      assert OriginOrdered(next);
      PseudoFromOrdered(b, i + 1, next);
    }
  }

  /** The pseudo-legal list is grouped by origin square, scanning the cells
      in ascending index order. */
  lemma PseudoOrdered(b: Board)
    requires b.Valid()
    ensures forall j, k :: 0 <= j < k < |Pseudo(b)| ==> Pseudo(b)[j].from.Idx() <= Pseudo(b)[k].from.Idx()
  {
    PseudoFromOrdered(b, 0, []);
  }

  /** Every pseudo-legal move can be made: its squares, and the square of an
      en-passant victim, are on the board. */
  lemma PseudoMoveApplicable(b: Board, m: Move)
    requires b.Valid() && PseudoMove(b, m)
    ensures Applicable(b, m)
  {
    var kind := b.PieceAt(m.from).value.kind;
    PieceMoveFrom(b, m.from, b.sideToMove, kind, m);
    if kind in {Bishop, Rook, Queen} {
      SlideMoveTarget(b, m.from, b.sideToMove, if kind == Bishop then BishopDirs else if kind == Rook then RookDirs else QueenDirs, m);
    }
  }

  /** What every pseudo-legal move satisfies: an ordinary move lands on an
      empty or enemy square and is a capture exactly when that square is
      occupied; only pawns promote, always to a queen, and exactly when they
      reach the last rank; en passant lands on the board's target square;
      castling is the king's, one kind at a time, and only when open. */
  lemma PseudoSound(b: Board, m: Move)
    requires b.Valid() && m in Pseudo(b)
    ensures m.from.OnBoard() && b.PieceAt(m.from).Some? && b.PieceAt(m.from).value.side == b.sideToMove
    ensures var kind := b.PieceAt(m.from).value.kind;
      && (!IsCastle(m) && !m.isEnPassant ==>
           && m.to.OnBoard()
           && (m.isCapture <==> b.PieceAt(m.to).Some?)
           && (b.PieceAt(m.to).Some? ==> b.PieceAt(m.to).value.side != b.sideToMove))
      && (m.promotion.Some? ==> m.promotion == Some(Queen) && kind == Pawn)
      && (kind == Pawn && !m.isEnPassant ==> (m.promotion.Some? <==> m.to.rank == LastRank(b.sideToMove)))
      && (m.isEnPassant ==> kind == Pawn && Some(m.to) == b.enPassant && !m.isCapture && !IsCastle(m))
      && (IsCastle(m) ==> (kind == King && !(m.isCastleKing && m.isCastleQueen)))
      && (m.isCastleKing ==> KingsideOpen(b, b.sideToMove))
      && (m.isCastleQueen ==> QueensideOpen(b, b.sideToMove))
  {
    PseudoMoves(b, m);
    var kind := b.PieceAt(m.from).value.kind;
    if kind in {Bishop, Rook, Queen} {
      SlideMoveTarget(b, m.from, b.sideToMove, if kind == Bishop then BishopDirs else if kind == Rook then RookDirs else QueenDirs, m);
    }
  }

  lemma PseudoApplicable(b: Board)
    requires b.Valid()
    ensures forall k :: 0 <= k < |Pseudo(b)| ==> Applicable(b, Pseudo(b)[k])
  {
    forall k | 0 <= k < |Pseudo(b)| ensures Applicable(b, Pseudo(b)[k]) {
      PseudoMoves(b, Pseudo(b)[k]);
      PseudoMoveApplicable(b, Pseudo(b)[k]);
    }
  }

  // ---------------------------------------------------------------------
  // What the legal list and the status are
  // ---------------------------------------------------------------------

  /** After `m` the mover has no king, so `kingSquare` throws. */
  ghost predicate LosesKing(b: Board, m: Move)
    requires b.Valid()
  {
    Applicable(b, m) && (AppliedValid(b, m); KingLocation(Applied(b, m), b.sideToMove).None?)
  }

  /** After `m` the mover's king stands on the board unattacked. */
  ghost predicate SafeAfter(b: Board, m: Move)
    requires b.Valid()
  {
    Applicable(b, m) &&
    (AppliedValid(b, m);
     var next := Applied(b, m);
     var king := KingLocation(next, b.sideToMove);
     king.Some? && !Attacked(next, king.value, b.sideToMove.Other()))
  }

  /** The safe moves of `ms`, in their order. */
  ghost function SafeMoves(b: Board, ms: seq<Move>): seq<Move>
    requires b.Valid()
  {
    if ms == [] then [] else (if SafeAfter(b, ms[0]) then [ms[0]] else []) + SafeMoves(b, ms[1..])
  }

  lemma {:induction false} SafeMovesMember(b: Board, ms: seq<Move>, m: Move)
    requires b.Valid()
    ensures m in SafeMoves(b, ms) <==> m in ms && SafeAfter(b, m)
  {
    if ms != [] {
      SafeMovesMember(b, ms[1..], m);
      assert m in ms <==> m == ms[0] || m in ms[1..];
    }
  }

  lemma SafeMovesCons(b: Board, ms: seq<Move>, kept: seq<Move>)
    requires b.Valid() && ms != []
    ensures (if SafeAfter(b, ms[0]) then kept + [ms[0]] else kept) + SafeMoves(b, ms[1..]) == kept + SafeMoves(b, ms)
  {
    if SafeAfter(b, ms[0]) {
      assert SafeMoves(b, ms) == [ms[0]] + SafeMoves(b, ms[1..]);
    } else {
      assert SafeMoves(b, ms) == SafeMoves(b, ms[1..]);
    }
  }

  lemma {:induction false} LegalFilterSpec(b: Board, ms: seq<Move>, kept: seq<Move>)
    requires b.Valid() && forall k :: 0 <= k < |ms| ==> Applicable(b, ms[k])
    ensures LegalFilter(b, ms, kept) ==
      if exists m :: m in ms && LosesKing(b, m) then None else Some(kept + SafeMoves(b, ms))
    decreases |ms|
  {
    if ms != [] {
      AppliedValid(b, ms[0]);
      var next := Applied(b, ms[0]);
      var king := KingLocation(next, b.sideToMove);
      assert forall m :: m in ms <==> m == ms[0] || m in ms[1..];
      assert (exists m :: m in ms && LosesKing(b, m)) <==> LosesKing(b, ms[0]) || (exists m :: m in ms[1..] && LosesKing(b, m));
      if king.Some? {
        var kept' := if SafeAfter(b, ms[0]) then kept + [ms[0]] else kept;
        assert !LosesKing(b, ms[0]);
        LegalFilterSpec(b, ms[1..], kept');
        SafeMovesCons(b, ms, kept);
      } else {
        assert LosesKing(b, ms[0]);
        assert LegalFilter(b, ms, kept) == None;
      }
    } else {
      assert kept + SafeMoves(b, ms) == kept;
    }
  }

  /** `legalMoves` fails exactly when some pseudo-legal move leaves the mover
      without a king; otherwise it keeps, in generation order, exactly the
      pseudo-legal moves after which the mover's king is not attacked. */
  lemma LegalSpec(b: Board)
    requires b.Valid()
    ensures Legal(b).None? <==> exists m :: PseudoMove(b, m) && LosesKing(b, m)
    ensures Legal(b).Some? ==> Legal(b).value == SafeMoves(b, Pseudo(b))
    ensures Legal(b).Some? ==> forall m :: m in Legal(b).value <==> PseudoMove(b, m) && SafeAfter(b, m)
  {
    PseudoApplicable(b);
    LegalFilterSpec(b, Pseudo(b), []);
    assert [] + SafeMoves(b, Pseudo(b)) == SafeMoves(b, Pseudo(b));
    forall m ensures m in Pseudo(b) <==> PseudoMove(b, m) {
      PseudoMoves(b, m);
    }
    forall m ensures m in SafeMoves(b, Pseudo(b)) <==> m in Pseudo(b) && SafeAfter(b, m) {
      SafeMovesMember(b, Pseudo(b), m);
    }
  }

  /** The side to move is in check. */
  ghost predicate InCheck(b: Board)
    requires b.Valid()
  {
    var king := KingLocation(b, b.sideToMove);
    king.Some? && Attacked(b, king.value, b.sideToMove.Other())
  }

  /** Checkmate: every pseudo-legal move keeps a king but leaves it attacked,
      and the king is attacked now; stalemate: the same, with the king not
      attacked; otherwise, when no move loses the king, the side to move is
      thinking. The winner of a checkmate is the side that did not move. */
  lemma StatusSpec(b: Board)
    requires b.Valid()
    ensures StatusOf(b) == Some(Checkmate(b.sideToMove.Other())) <==>
      (forall m :: PseudoMove(b, m) ==> !LosesKing(b, m) && !SafeAfter(b, m)) && InCheck(b)
    ensures StatusOf(b) == Some(Stalemate) <==>
      (forall m :: PseudoMove(b, m) ==> !LosesKing(b, m) && !SafeAfter(b, m))
      && KingLocation(b, b.sideToMove).Some? && !InCheck(b)
    ensures StatusOf(b) == Some(Thinking(b.sideToMove)) <==>
      (forall m :: PseudoMove(b, m) ==> !LosesKing(b, m)) && (exists m :: PseudoMove(b, m) && SafeAfter(b, m))
    ensures StatusOf(b).Some? && StatusOf(b).value.Checkmate? ==> StatusOf(b).value.winner == b.sideToMove.Other()
    ensures StatusOf(b).Some? && StatusOf(b).value.Thinking? ==> StatusOf(b).value.toMove == b.sideToMove
  {
    LegalSpec(b);
    if Legal(b).Some? && Legal(b).value != [] {
      assert Legal(b).value[0] in Legal(b).value;
    }
  }
}
