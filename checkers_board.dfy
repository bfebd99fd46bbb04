/** The checkers board: 12 Black men on the dark squares of rows 0-2, 12 White men on those of
    rows 5-7, and `move_piece`. There is no move history and no undo.

    Promotion is broken in the program: on reaching the far row, `move_piece` calls a name that
    does not exist, which raises after the grid has already been updated. The model returns the
    outcome `PromotionFailed` there, with the grid in that already-updated state. */
module CheckersBoard {
  import opened Squares
  import opened CheckersRules

  /** `False`, `True`, or the error raised by the promotion line. */
  datatype Outcome = Rejected | Done | PromotionFailed

  /** A dark square: the only squares pieces are set up on. */
  predicate Dark(p: Pos) {
    (p.row + p.col) % 2 == 1
  }

  /** The opening layout. */
  function StartSquare(p: Pos): Option<Checker> {
    if Dark(p) && 0 <= p.row < 3 then Some(Checker(Black))
    else if Dark(p) && 5 <= p.row < 8 then Some(Checker(White))
    else None
  }

  function InitialGrid(): (g: Grid<Checker>)
    ensures ValidGrid(g)
    ensures forall q :: InBounds(q) ==> Get(g, q) == StartSquare(q)
  {
    seq(8, r => seq(8, c => StartSquare(Pos(r, c))))
  }

  predicate CanMove(g: Grid<Checker>, s: Pos, e: Pos)
    requires ValidGrid(g) && InBounds(s) && InBounds(e)
  {
    Get(g, s).Some? && IsValidMove(Get(g, s).value, s, e, g)
  }

  /** The far row: row 0 for White, row 7 for Black. */
  predicate Promotes(c: Color, e: Pos) {
    (c == White && e.row == 0) || (c == Black && e.row == 7)
  }

  /** The grid after the three writes of `move_piece`: the midpoint is emptied when the rows
      differ by two, then the end square receives the piece and the start square is emptied.
      Nothing else changes. */
  function Applied(g: Grid<Checker>, s: Pos, e: Pos): (r: Grid<Checker>)
    requires ValidGrid(g) && InBounds(s) && InBounds(e)
    ensures ValidGrid(r)
    ensures forall q :: InBounds(q) ==>
      Get(r, q) == if q == s then None
                   else if q == e then Get(g, s)
                   else if Abs(s.row - e.row) == 2 && q == Midpoint(s, e) then None
                   else Get(g, q)
  {
    var cleared := if Abs(s.row - e.row) == 2 then Put(g, Midpoint(s, e), None) else g;
    Put(Put(cleared, e, Get(g, s)), s, None)
  }

  /** Every piece stands on a dark square. */
  ghost predicate OnDarkSquares(g: Grid<Checker>)
    requires ValidGrid(g)
  {
    forall q :: InBounds(q) && Get(g, q).Some? ==> Dark(q)
  }

  /** The opening layout uses only dark squares, and every accepted move keeps it that way:
      moves never change the colour of the square. */
  lemma DarkSquaresPreserved(g: Grid<Checker>, s: Pos, e: Pos)
    requires ValidGrid(g) && InBounds(s) && InBounds(e)
    requires OnDarkSquares(g) && CanMove(g, s, e)
    ensures OnDarkSquares(Applied(g, s, e))
  {
    ValidMoveShape(Get(g, s).value, s, e, g);
    assert Parity(s) == Parity(e);
  }

  lemma InitialOnDarkSquares()
    ensures OnDarkSquares(InitialGrid())
  {
  }

  /** An accepted jump removes the enemy on the midpoint and whatever stood on the landing
      square, which the rule never examines; an accepted step lands on an empty square and
      removes nothing. Either way the mover ends on `e`, `s` is empty, and no square other than
      `s`, `e` and (for a jump) the midpoint changes. */
  lemma CaptureOnlyOnJump(g: Grid<Checker>, s: Pos, e: Pos)
    requires ValidGrid(g) && InBounds(s) && InBounds(e)
    requires CanMove(g, s, e)
    ensures Get(Applied(g, s, e), e) == Get(g, s) && Get(Applied(g, s, e), s) == None
    ensures IsJump(s, e) ==>
      InBounds(Midpoint(s, e)) && Get(g, Midpoint(s, e)).Some?
      && Get(g, Midpoint(s, e)).value.color != Get(g, s).value.color
      && Get(Applied(g, s, e), Midpoint(s, e)) == None
      && forall q :: InBounds(q) && q != s && q != e && q != Midpoint(s, e) ==>
           Get(Applied(g, s, e), q) == Get(g, q)
    ensures IsStep(s, e) ==>
      Get(g, e) == None
      && forall q :: InBounds(q) && q != s && q != e ==> Get(Applied(g, s, e), q) == Get(g, q)
  {
    ValidMoveShape(Get(g, s).value, s, e, g);
    if IsJump(s, e) {
      JumpRule(Get(g, s).value, s, e, g);
    }
  }

  /** On the opening layout a Black man stands on (2,1) and may step to (3,0). */
  lemma OpeningStep()
    ensures Get(InitialGrid(), Pos(2, 1)) == Some(Checker(Black))
    ensures CanMove(InitialGrid(), Pos(2, 1), Pos(3, 0))
    ensures Get(Applied(InitialGrid(), Pos(2, 1), Pos(3, 0)), Pos(3, 0)) == Some(Checker(Black))
  {
    assert Get(InitialGrid(), Pos(3, 0)) == None;
  }

  /** A White man on (4,3) jumps the Black man on (3,2) and lands on the empty (2,1). */
  lemma CaptureExample()
    ensures var g := Put(Put(EmptyGrid(), Pos(4, 3), Some(Checker(White))), Pos(3, 2), Some(Checker(Black)));
            CanMove(g, Pos(4, 3), Pos(2, 1))
            && !Promotes(White, Pos(2, 1))
            && Get(Applied(g, Pos(4, 3), Pos(2, 1)), Pos(3, 2)) == None
            && Get(Applied(g, Pos(4, 3), Pos(2, 1)), Pos(2, 1)) == Some(Checker(White))
            && Get(Applied(g, Pos(4, 3), Pos(2, 1)), Pos(4, 3)) == None
  {
    var g := Put(Put(EmptyGrid(), Pos(4, 3), Some(Checker(White))), Pos(3, 2), Some(Checker(Black)));
    assert Midpoint(Pos(4, 3), Pos(2, 1)) == Pos(3, 2);
    assert Get(g, Pos(3, 2)) == Some(Checker(Black));
  }

  /** A jump onto an occupied square destroys its occupant: White on (4,3) jumps the Black man
      on (3,2) onto (2,1), where another Black man stands, and both Black men are gone. */
  lemma JumpOverwritesLanding()
    ensures var g := Put(Put(Put(EmptyGrid(), Pos(4, 3), Some(Checker(White))),
                             Pos(3, 2), Some(Checker(Black))),
                         Pos(2, 1), Some(Checker(Black)));
            CanMove(g, Pos(4, 3), Pos(2, 1))
            && forall q :: InBounds(q) ==> Get(Applied(g, Pos(4, 3), Pos(2, 1)), q) != Some(Checker(Black))
  {
    var g := Put(Put(Put(EmptyGrid(), Pos(4, 3), Some(Checker(White))),
                     Pos(3, 2), Some(Checker(Black))),
                 Pos(2, 1), Some(Checker(Black)));
    assert Midpoint(Pos(4, 3), Pos(2, 1)) == Pos(3, 2);
    assert Get(g, Pos(3, 2)) == Some(Checker(Black));
  }

  /** The friend on the landing square of a backward jump is replaced by the mover: after
      White (5,2) jumps the Black man on (6,3) onto the White man on (7,4), only one White man
      is left where there were two. */
  lemma BackwardJumpReplacesFriend()
    ensures var g := Put(Put(Put(EmptyGrid(), Pos(5, 2), Some(Checker(White))),
                             Pos(6, 3), Some(Checker(Black))),
                         Pos(7, 4), Some(Checker(White)));
            CanMove(g, Pos(5, 2), Pos(7, 4))
            && forall q :: InBounds(q) ==>
                 (Get(Applied(g, Pos(5, 2), Pos(7, 4)), q) == None <==> q != Pos(7, 4))
  {
    var g := Put(Put(Put(EmptyGrid(), Pos(5, 2), Some(Checker(White))),
                     Pos(6, 3), Some(Checker(Black))),
                 Pos(7, 4), Some(Checker(White)));
    assert Midpoint(Pos(5, 2), Pos(7, 4)) == Pos(6, 3);
    assert Get(g, Pos(6, 3)) == Some(Checker(Black));
  }

  class Board {
    var grid: Grid<Checker>

    ghost predicate Valid()
      reads this
    {
      ValidGrid(grid)
    }

    /** An empty grid, then `setup_pieces`. */
    constructor ()
      ensures Valid() && grid == InitialGrid()
    {
      grid := EmptyGrid();
      new;
      SetupPieces();
      GridExt(grid, InitialGrid());
    }

    /** Puts a Black man on every dark square of rows 0-2 and a White man on every dark square
        of rows 5-7; every other square keeps its content. */
    method SetupPieces()
      requires Valid()
      modifies this
      ensures Valid()
      ensures forall q :: InBounds(q) ==>
        Get(grid, q) == if StartSquare(q).Some? then StartSquare(q) else Get(old(grid), q)
    {
      for row := 0 to 3
        invariant Valid()
        invariant forall q :: InBounds(q) ==>
          Get(grid, q) == if q.row < row && StartSquare(q).Some? then StartSquare(q) else Get(old(grid), q)
      {
        for col := 0 to 8
          invariant Valid()
          invariant forall q :: InBounds(q) ==>
            Get(grid, q) == if (q.row < row || (q.row == row && q.col < col)) && StartSquare(q).Some?
                            then StartSquare(q) else Get(old(grid), q)
        {
          if (row + col) % 2 == 1 {
            grid := Put(grid, Pos(row, col), Some(Checker(Black)));
          }
        }
      }
      for row := 5 to 8
        invariant Valid()
        invariant forall q :: InBounds(q) ==>
          Get(grid, q) == if (q.row < 3 || (5 <= q.row < row)) && StartSquare(q).Some? then StartSquare(q)
                          else Get(old(grid), q)
      {
        for col := 0 to 8
          invariant Valid()
          invariant forall q :: InBounds(q) ==>
            Get(grid, q) == if (q.row < 3 || (5 <= q.row < row) || (q.row == row && q.col < col))
                               && StartSquare(q).Some?
                            then StartSquare(q) else Get(old(grid), q)
        {
          if (row + col) % 2 == 1 {
            grid := Put(grid, Pos(row, col), Some(Checker(White)));
          }
        }
      }
    }

    /** `move_piece`: rejected (grid unchanged) when `start` is empty or the rule refuses;
        otherwise the grid becomes `Applied`, and the outcome is `PromotionFailed` when the
        piece lands on its far row, `Done` otherwise. */
    method MovePiece(start: Pos, end: Pos) returns (outcome: Outcome)
      requires Valid() && InBounds(start) && InBounds(end)
      modifies this
      ensures Valid()
      ensures (outcome == Rejected) == !CanMove(old(grid), start, end)
      ensures outcome == Rejected ==> grid == old(grid)
      ensures outcome != Rejected ==> grid == Applied(old(grid), start, end)
      ensures outcome == PromotionFailed <==>
        CanMove(old(grid), start, end) && Promotes(Get(old(grid), start).value.color, end)
    {
      var piece := Get(grid, start);
      if piece.Some? && IsValidMove(piece.value, start, end, grid) {
        var mid := Midpoint(start, end);
        if Abs(start.row - end.row) == 2 {
          grid := Put(grid, mid, None);
        }
        grid := Put(grid, end, piece);
        grid := Put(grid, start, None);
        if Promotes(piece.value.color, end) {
          return PromotionFailed;
        }
        return Done;
      }
      return Rejected;
    }
  }
}
