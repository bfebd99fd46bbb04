/** Movement rule of a checkers man: a forward diagonal step onto an empty square, or a
    two-square diagonal jump (in either direction) over an enemy piece; the landing square of a
    jump is not examined. */
module CheckersRules {
  import opened Squares

  /** A man ('C'); the only kind of piece that is ever on the board. */
  datatype Checker = Checker(color: Color)

  /** The square halfway between `s` and `e` (halves rounded down; rows and columns are never negative here). */
  function Midpoint(s: Pos, e: Pos): Pos {
    Pos((s.row + e.row) / 2, (s.col + e.col) / 2)
  }

  predicate IsStep(s: Pos, e: Pos) {
    Abs(s.row - e.row) == 1 && Abs(s.col - e.col) == 1
  }

  predicate IsJump(s: Pos, e: Pos) {
    Abs(s.row - e.row) == 2 && Abs(s.col - e.col) == 2
  }

  /** `Checker.is_valid_move`. */
  predicate IsValidMove(piece: Checker, s: Pos, e: Pos, g: Grid<Checker>)
    requires ValidGrid(g) && InBounds(s) && InBounds(e)
  {
    var dir := Forward(piece.color);
    if Abs(s.col - e.col) == 1 && e.row == s.row + dir && Get(g, e) == None then true
    else if Abs(s.col - e.col) == 2 && Abs(s.row - e.row) == 2 then
      var mid := Midpoint(s, e);
      Get(g, mid).Some? && Get(g, mid).value.color != piece.color
    else false
  }

  /** The four diagonal directions in the order `get_possible_moves` tries them. */
  const DIRECTIONS: seq<(int, int)> := [(-1, -1), (-1, 1), (1, -1), (1, 1)]

  function Neighbour(s: Pos, d: nat): Pos
    requires d < 4
  {
    Pos(s.row + DIRECTIONS[d].0, s.col + DIRECTIONS[d].1)
  }

  /** An accepted move to a diagonal neighbour is the forward step onto an empty square. */
  lemma NeighbourMove(piece: Checker, s: Pos, d: nat, g: Grid<Checker>)
    requires ValidGrid(g) && InBounds(s) && d < 4 && InBounds(Neighbour(s, d))
    requires IsValidMove(piece, s, Neighbour(s, d), g)
    ensures DIRECTIONS[d].0 == Forward(piece.color) && Get(g, Neighbour(s, d)) == None
  {
  }

  /** Accepted neighbours listed in increasing direction order lie on the forward row, left
      before right, so there are at most two of them. */
  lemma NeighboursOrdered(piece: Checker, s: Pos, g: Grid<Checker>, moves: seq<Pos>, dirs: seq<nat>)
    requires ValidGrid(g) && InBounds(s) && |dirs| == |moves|
    requires forall i :: 0 <= i < |moves| ==>
      dirs[i] < 4 && moves[i] == Neighbour(s, dirs[i]) && InBounds(moves[i])
      && IsValidMove(piece, s, moves[i], g)
    requires forall i, j :: 0 <= i < j < |moves| ==> dirs[i] < dirs[j]
    ensures forall i :: 0 <= i < |moves| ==>
      moves[i].row == s.row + Forward(piece.color) && Abs(moves[i].col - s.col) == 1
      && Get(g, moves[i]) == None
    ensures forall i, j :: 0 <= i < j < |moves| ==> moves[i].col < moves[j].col
    ensures |moves| <= 2
  {
    forall i | 0 <= i < |moves|
      ensures DIRECTIONS[dirs[i]].0 == Forward(piece.color) && Get(g, moves[i]) == None
      ensures if piece.color == White then dirs[i] <= 1 else 2 <= dirs[i]
    {
      NeighbourMove(piece, s, dirs[i], g);
    }
    if |moves| > 0 {
      Rising(dirs, |dirs| - 1);
    }
  }

  /** In a strictly increasing sequence of naturals the element at `k` exceeds the first by at
      least `k`. */
  lemma {:induction false} Rising(xs: seq<nat>, k: nat)
    requires forall i, j :: 0 <= i < j < |xs| ==> xs[i] < xs[j]
    requires k < |xs|
    ensures xs[k] >= xs[0] + k
  {
    if k > 0 {
      Rising(xs, k - 1);
    }
  }

  /** `Checker.get_possible_moves`: the in-board diagonal neighbours the rule accepts, in
      direction order. Only single steps are tried, so the result holds at most the two
      forward empty squares, left before right, and never a jump. */
  method GetPossibleMoves(piece: Checker, start: Pos, g: Grid<Checker>) returns (moves: seq<Pos>)
    requires ValidGrid(g) && InBounds(start)
    ensures forall i :: 0 <= i < |moves| ==> InBounds(moves[i]) && IsValidMove(piece, start, moves[i], g)
    ensures forall i :: 0 <= i < |moves| ==>
      moves[i].row == start.row + Forward(piece.color) && Abs(moves[i].col - start.col) == 1
      && Get(g, moves[i]) == None
    ensures forall q :: InBounds(q) && IsStep(start, q) && IsValidMove(piece, start, q, g) ==> q in moves
    ensures forall i, j :: 0 <= i < j < |moves| ==> moves[i].col < moves[j].col
    ensures |moves| <= 2
  {
    moves := [];
    ghost var dirs: seq<nat> := [];
    for d := 0 to 4
      invariant |dirs| == |moves|
      invariant forall i :: 0 <= i < |moves| ==>
        dirs[i] < d && moves[i] == Neighbour(start, dirs[i]) && InBounds(moves[i])
        && IsValidMove(piece, start, moves[i], g)
      invariant forall i, j :: 0 <= i < j < |moves| ==> dirs[i] < dirs[j]
      invariant forall d' :: 0 <= d' < d ==>
        (InBounds(Neighbour(start, d')) && IsValidMove(piece, start, Neighbour(start, d'), g)
         ==> Neighbour(start, d') in moves)
    {
      var end := Neighbour(start, d);
      if InBounds(end) && IsValidMove(piece, start, end, g) {
        moves := moves + [end];
        dirs := dirs + [d];
      }
    }
    NeighboursOrdered(piece, start, g, moves, dirs);
    forall q | InBounds(q) && IsStep(start, q) && IsValidMove(piece, start, q, g)
      ensures q in moves
    {
      var d: nat := if q.row < start.row then (if q.col < start.col then 0 else 1)
                    else (if q.col < start.col then 2 else 3);
      assert q == Neighbour(start, d);
    }
  }

  // ---------------------------------------------------------------------------------------
  // Properties of the rule

  /** Every accepted move is a diagonal step or a diagonal jump, so it never stays put and
      never changes the colour of the square. */
  lemma ValidMoveShape(piece: Checker, s: Pos, e: Pos, g: Grid<Checker>)
    requires ValidGrid(g) && InBounds(s) && InBounds(e)
    requires IsValidMove(piece, s, e, g)
    ensures IsStep(s, e) || IsJump(s, e)
    ensures s != e && Parity(s) == Parity(e)
  {
  }

  /** A step is accepted exactly when it goes forward onto an empty square. */
  lemma StepRule(piece: Checker, s: Pos, e: Pos, g: Grid<Checker>)
    requires ValidGrid(g) && InBounds(s) && InBounds(e)
    requires IsStep(s, e)
    ensures IsValidMove(piece, s, e, g) <==> e.row == s.row + Forward(piece.color) && Get(g, e) == None
  {
  }

  /** A jump is accepted exactly when an enemy stands on the midpoint, in either direction
      and whatever stands on the landing square. */
  lemma JumpRule(piece: Checker, s: Pos, e: Pos, g: Grid<Checker>)
    requires ValidGrid(g) && InBounds(s) && InBounds(e)
    requires IsJump(s, e)
    ensures InBounds(Midpoint(s, e)) && IsStep(s, Midpoint(s, e)) && IsStep(Midpoint(s, e), e)
    ensures IsValidMove(piece, s, e, g)
        <==> Get(g, Midpoint(s, e)).Some? && Get(g, Midpoint(s, e)).value.color != piece.color
  {
  }

  /** A White man at (5,2) may jump backward over a Black man at (6,3) onto (7,4) even though
      a White man already stands there. */
  lemma BackwardJumpOntoFriend()
    ensures var g := Put(Put(Put(EmptyGrid(), Pos(5, 2), Some(Checker(White))),
                             Pos(6, 3), Some(Checker(Black))),
                         Pos(7, 4), Some(Checker(White)));
            IsValidMove(Checker(White), Pos(5, 2), Pos(7, 4), g)
  {
  }
}
