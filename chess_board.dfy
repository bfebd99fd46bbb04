/** The chess variant's board: the 8x8 grid, the fixed opening layout, and the move history
    used by single-step undo. A history record is (start, end, previous occupant of end). */
module ChessBoard {
  import opened Squares
  import opened ChessRules

  datatype MoveRecord = MoveRecord(start: Pos, end: Pos, captured: Option<Piece>)

  /** `piece_order` of `setup_pieces`, before Spider and Wizard are put over the bishops. */
  const PIECE_ORDER: seq<Kind> := [Rook, Knight, Bishop, Queen, King, Bishop, Knight, Rook]

  /** Squares that `setup_pieces` writes: rows 0, 1, 6, 7 and the two minotaur squares. */
  predicate SetBySetup(p: Pos) {
    p.row in {0, 1, 6, 7} || p == Pos(3, 3) || p == Pos(4, 4)
  }

  /** The side whose pieces start on row `r`: Black on rows 0-1, White on rows 6-7. */
  function HomeSide(r: int): Color {
    if r <= 1 then Black else White
  }

  /** What the two loops of `setup_pieces` write on rows 0, 1, 6 and 7: pawns on rows 1 and 6,
      `piece_order` on rows 0 and 7. */
  function RankSquare(p: Pos): Option<Piece>
    requires 0 <= p.col < 8
  {
    if p.row == 1 || p.row == 6 then Some(Piece(HomeSide(p.row), Pawn))
    else Some(Piece(HomeSide(p.row), PIECE_ORDER[p.col]))
  }

  /** The opening layout: Black on rows 0-1, White on rows 6-7, Spiders on column 2 and
      Wizards on column 5 of the back rows (in place of the bishops), the Black Minotaur on
      (3,3) and the White one on (4,4); every other square empty. */
  function StartSquare(p: Pos): Option<Piece> {
    if p == Pos(3, 3) then Some(Piece(Black, Minotaur))
    else if p == Pos(4, 4) then Some(Piece(White, Minotaur))
    else if !(p.row in {0, 1, 6, 7} && 0 <= p.col < 8) then None
    else if (p.row == 0 || p.row == 7) && p.col == 2 then Some(Piece(HomeSide(p.row), Spider))
    else if (p.row == 0 || p.row == 7) && p.col == 5 then Some(Piece(HomeSide(p.row), Wizard))
    else RankSquare(p)
  }

  /** The six single writes that end `setup_pieces` turn the rows the loops wrote into the
      opening layout. */
  lemma FantasyOverRanks(g0: Grid<Piece>, ranks: Grid<Piece>, g: Grid<Piece>)
    requires ValidGrid(g0) && ValidGrid(ranks)
    requires forall q :: InBounds(q) ==>
      Get(ranks, q) == if q.row in {0, 1, 6, 7} then RankSquare(q) else Get(g0, q)
    requires g == Put(Put(Put(Put(Put(Put(ranks,
      Pos(0, 2), Some(Piece(Black, Spider))), Pos(7, 2), Some(Piece(White, Spider))),
      Pos(0, 5), Some(Piece(Black, Wizard))), Pos(7, 5), Some(Piece(White, Wizard))),
      Pos(3, 3), Some(Piece(Black, Minotaur))), Pos(4, 4), Some(Piece(White, Minotaur)))
    ensures ValidGrid(g)
    ensures forall q :: InBounds(q) ==>
      Get(g, q) == if SetBySetup(q) then StartSquare(q) else Get(g0, q)
  {
  }

  function InitialGrid(): (g: Grid<Piece>)
    ensures ValidGrid(g)
    ensures forall q :: InBounds(q) ==> Get(g, q) == StartSquare(q)
  {
    seq(8, r => seq(8, c => StartSquare(Pos(r, c))))
  }

  /** `move_piece` accepts a move exactly when a piece stands on `s` and its rule accepts. */
  predicate CanMove(g: Grid<Piece>, s: Pos, e: Pos)
    requires ValidGrid(g) && InBounds(s) && InBounds(e)
  {
    Get(g, s).Some? && IsValidMove(Get(g, s).value, s, e, g)
  }

  /** The grid after `move_piece` writes the start piece to `e` and then empties `s`: the
      start square is empty (so a null move erases the piece), the end square holds what stood
      on the start square, and nothing else changes. */
  function Moved(g: Grid<Piece>, s: Pos, e: Pos): (r: Grid<Piece>)
    requires ValidGrid(g) && InBounds(s) && InBounds(e)
    ensures ValidGrid(r)
    ensures forall q :: InBounds(q) ==>
      Get(r, q) == if q == s then None else if q == e then Get(g, s) else Get(g, q)
  {
    Put(Put(g, e, Get(g, s)), s, None)
  }

  predicate RecordInBounds(m: MoveRecord) {
    InBounds(m.start) && InBounds(m.end)
  }

  /** The grid after undoing record `m`: the piece on `end` goes back to `start`, then the
      recorded occupant goes back to `end`. */
  function Undone(g: Grid<Piece>, m: MoveRecord): (r: Grid<Piece>)
    requires ValidGrid(g) && RecordInBounds(m)
    ensures ValidGrid(r)
    ensures forall q :: InBounds(q) ==>
      Get(r, q) == if q == m.end then m.captured else if q == m.start then Get(g, m.end) else Get(g, q)
  {
    Put(Put(g, m.start, Get(g, m.end)), m.end, m.captured)
  }

  /** Undoing the record a move leaves restores the grid exactly, captures and null moves
      included. */
  lemma UndoRestoresGrid(g: Grid<Piece>, s: Pos, e: Pos)
    requires ValidGrid(g) && InBounds(s) && InBounds(e)
    ensures Undone(Moved(g, s, e), MoveRecord(s, e, Get(g, e))) == g
  {
    var r := Undone(Moved(g, s, e), MoveRecord(s, e, Get(g, e)));
    forall q | InBounds(q)
      ensures Get(r, q) == Get(g, q)
    {
    }
    GridExt(r, g);
  }

  /** A null move succeeds exactly for the fantasy pieces, and then the piece is gone. */
  lemma NullMoveErasesPiece(g: Grid<Piece>, s: Pos)
    requires ValidGrid(g) && InBounds(s)
    ensures CanMove(g, s, s) <==> Get(g, s).Some? && Fantasy(Get(g, s).value.kind)
    ensures CanMove(g, s, s) ==> Get(Moved(g, s, s), s) == None
  {
    if Get(g, s).Some? {
      var p := Get(g, s).value;
      if Standard(p.kind) {
        StandardRejectsNullMove(p, s, g);
      } else {
        FantasyAcceptsNullMove(p, s, g);
      }
    }
  }

  /** On the opening layout the e-pawn's double step (6,4)->(4,4) is rejected: the White
      Minotaur stands on (4,4). The d-pawn's double step (6,3)->(4,3) is accepted. */
  lemma OpeningDoubleSteps()
    ensures !CanMove(InitialGrid(), Pos(6, 4), Pos(4, 4))
    ensures CanMove(InitialGrid(), Pos(6, 3), Pos(4, 3))
  {
    var g := InitialGrid();
    assert Get(g, Pos(4, 4)) == Some(Piece(White, Minotaur));
    assert Get(g, Pos(6, 3)) == Some(Piece(White, Pawn));
    assert Get(g, Pos(5, 3)) == None && Get(g, Pos(4, 3)) == None;
  }

  class Board {
    var grid: Grid<Piece>
    var moveHistory: seq<MoveRecord>

    ghost predicate Valid()
      reads this
    {
      ValidGrid(grid) && forall i :: 0 <= i < |moveHistory| ==> RecordInBounds(moveHistory[i])
    }

    /** An empty grid and history, then `setup_pieces`. */
    constructor ()
      ensures Valid()
      ensures grid == InitialGrid() && moveHistory == []
    {
      grid := EmptyGrid();
      moveHistory := [];
      new;
      SetupPieces();
      GridExt(grid, InitialGrid());
    }

    /** Writes the opening layout over rows 0, 1, 6, 7 and the two minotaur squares; every
        other square keeps its content. */
    method SetupPieces()
      requires Valid()
      modifies this
      ensures Valid() && moveHistory == old(moveHistory)
      ensures forall q :: InBounds(q) ==>
        Get(grid, q) == if SetBySetup(q) then StartSquare(q) else Get(old(grid), q)
    {
      for i := 0 to 8
        invariant Valid() && moveHistory == old(moveHistory)
        invariant forall q :: InBounds(q) ==>
          Get(grid, q) == if (q.row == 1 || q.row == 6) && q.col < i then RankSquare(q)
                          else Get(old(grid), q)
      {
        grid := Put(grid, Pos(1, i), Some(Piece(Black, Pawn)));
        grid := Put(grid, Pos(6, i), Some(Piece(White, Pawn)));
      }
      for i := 0 to 8
        invariant Valid() && moveHistory == old(moveHistory)
        invariant forall q :: InBounds(q) ==>
          Get(grid, q) == if q.row == 1 || q.row == 6 || ((q.row == 0 || q.row == 7) && q.col < i)
                          then RankSquare(q) else Get(old(grid), q)
      {
        grid := Put(grid, Pos(0, i), Some(Piece(Black, PIECE_ORDER[i])));
        grid := Put(grid, Pos(7, i), Some(Piece(White, PIECE_ORDER[i])));
      }
      ghost var ranks := grid;
      grid := Put(grid, Pos(0, 2), Some(Piece(Black, Spider)));
      grid := Put(grid, Pos(7, 2), Some(Piece(White, Spider)));
      grid := Put(grid, Pos(0, 5), Some(Piece(Black, Wizard)));
      grid := Put(grid, Pos(7, 5), Some(Piece(White, Wizard)));
      grid := Put(grid, Pos(3, 3), Some(Piece(Black, Minotaur)));
      grid := Put(grid, Pos(4, 4), Some(Piece(White, Minotaur)));
      FantasyOverRanks(old(grid), ranks, grid);
    }

    /** `move_piece`: if a piece stands on `start` and its rule accepts, records
        (start, end, old occupant of end), moves the piece and empties `start`; otherwise
        changes nothing. */
    method MovePiece(start: Pos, end: Pos) returns (moved: bool)
      requires Valid() && InBounds(start) && InBounds(end)
      modifies this
      ensures Valid()
      ensures moved == CanMove(old(grid), start, end)
      ensures moved ==> (grid == Moved(old(grid), start, end) &&
                         moveHistory == old(moveHistory) + [MoveRecord(start, end, Get(old(grid), end))])
      ensures !moved ==> grid == old(grid) && moveHistory == old(moveHistory)
    {
      var piece := Get(grid, start);
      if piece.Some? && IsValidMove(piece.value, start, end, grid) {
        moveHistory := moveHistory + [MoveRecord(start, end, Get(grid, end))];
        grid := Put(grid, end, piece);
        grid := Put(grid, start, None);
        return true;
      }
      return false;
    }

    /** `undo_move`: on an empty history changes nothing; otherwise pops the last record,
        moves the piece on its end square back to its start square and puts the recorded
        occupant back on the end square. */
    method UndoMove() returns (undone: bool)
      requires Valid()
      modifies this
      ensures Valid()
      ensures undone == (old(moveHistory) != [])
      ensures undone ==> (moveHistory == old(moveHistory)[..|old(moveHistory)| - 1] &&
                          grid == Undone(old(grid), old(moveHistory)[|old(moveHistory)| - 1]))
      ensures !undone ==> grid == old(grid) && moveHistory == old(moveHistory)
    {
      if moveHistory != [] {
        var last := moveHistory[|moveHistory| - 1];
        moveHistory := moveHistory[..|moveHistory| - 1];
        grid := Put(grid, last.start, Get(grid, last.end));
        grid := Put(grid, last.end, last.captured);
        return true;
      }
      return false;
    }

    /** `get_valid_moves`: the squares the piece on `position` may move to, scanned row by row;
        empty for an empty square. The board is only read. */
    method GetValidMoves(position: Pos) returns (moves: seq<Pos>)
      requires Valid() && InBounds(position)
      ensures Get(grid, position) == None ==> moves == []
      ensures forall i :: 0 <= i < |moves| ==> InBounds(moves[i]) && CanMove(grid, position, moves[i])
      ensures forall q :: InBounds(q) && CanMove(grid, position, q) ==> q in moves
      ensures forall i, j :: 0 <= i < j < |moves| ==> Index(moves[i]) < Index(moves[j])
    {
      var piece := Get(grid, position);
      if piece.None? {
        return [];
      }
      moves := [];
      for r := 0 to 8
        invariant forall i :: 0 <= i < |moves| ==>
          InBounds(moves[i]) && CanMove(grid, position, moves[i]) && Index(moves[i]) < r * 8
        invariant forall q :: InBounds(q) && q.row < r && CanMove(grid, position, q) ==> q in moves
        invariant forall i, j :: 0 <= i < j < |moves| ==> Index(moves[i]) < Index(moves[j])
      {
        for c := 0 to 8
          invariant forall i :: 0 <= i < |moves| ==>
            InBounds(moves[i]) && CanMove(grid, position, moves[i]) && Index(moves[i]) < r * 8 + c
          invariant forall q ::
            InBounds(q) && (q.row < r || (q.row == r && q.col < c)) && CanMove(grid, position, q) ==> q in moves
          invariant forall i, j :: 0 <= i < j < |moves| ==> Index(moves[i]) < Index(moves[j])
        {
          if IsValidMove(piece.value, position, Pos(r, c), grid) {
            moves := moves + [Pos(r, c)];
          }
        }
      }
    }
  }

  /** `move_piece` followed by `undo_move`, as a client of the two methods sees them: after an
      accepted move the board is back to its exact previous grid and history, a captured
      occupant and the fantasy pieces' null move included. */
  method MoveThenUndo(b: Board, start: Pos, end: Pos) returns (moved: bool)
    requires b.Valid() && InBounds(start) && InBounds(end)
    modifies b
    ensures b.Valid()
    ensures moved == CanMove(old(b.grid), start, end)
    ensures moved ==> b.grid == old(b.grid) && b.moveHistory == old(b.moveHistory)
  {
    moved := b.MovePiece(start, end);
    if moved {
      ghost var g := old(b.grid);
      var undone := b.UndoMove();
      UndoRestoresGrid(g, start, end);
    }
  }
}
