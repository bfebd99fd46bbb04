/** Movement rules of the chess variant: the six standard pieces and the three fantasy
    pieces (Spider, Wizard, Minotaur). Each rule decides, for a piece of a given colour, whether
    a move from `s` to `e` on a grid snapshot is accepted; none of them changes the grid. */
module ChessRules {
  import opened Squares

  datatype Kind = Pawn | Rook | Knight | Bishop | Queen | King | Spider | Wizard | Minotaur

  datatype Piece = Piece(color: Color, kind: Kind)

  predicate Standard(k: Kind) {
    !Fantasy(k)
  }

  predicate Fantasy(k: Kind) {
    k.Spider? || k.Wizard? || k.Minotaur?
  }

  /** The square is empty or holds a piece of the other colour. */
  predicate OpenTo(g: Grid<Piece>, p: Pos, color: Color)
    requires ValidGrid(g) && InBounds(p)
  {
    Get(g, p) == None || Get(g, p).value.color != color
  }

  /** The square holds a piece of the other colour. */
  predicate Enemy(g: Grid<Piece>, p: Pos, color: Color)
    requires ValidGrid(g) && InBounds(p)
  {
    Get(g, p).Some? && Get(g, p).value.color != color
  }

  predicate SameLine(s: Pos, e: Pos) {
    s.row == e.row || s.col == e.col
  }

  predicate SameDiagonal(s: Pos, e: Pos) {
    Abs(s.row - e.row) == Abs(s.col - e.col)
  }

  /** The squares joined by a rank, file or diagonal: the only pairs whose path is walked. */
  predicate Aligned(s: Pos, e: Pos) {
    SameLine(s, e) || SameDiagonal(s, e)
  }

  /** Chebyshev distance: the number of unit steps from `s` to `e` along an aligned line. */
  function Dist(s: Pos, e: Pos): nat {
    if Abs(s.row - e.row) >= Abs(s.col - e.col) then Abs(s.row - e.row) else Abs(s.col - e.col)
  }

  /** `x` moved `j` unit steps toward `y` (not at all when they are equal). */
  function Toward(x: int, y: int, j: int): int {
    if y > x then x + j else if y < x then x - j else x
  }

  /** The square `j` unit steps from `s` toward `e`. */
  function Between(s: Pos, e: Pos, j: int): Pos {
    Pos(Toward(s.row, e.row, j), Toward(s.col, e.col, j))
  }

  /** No square strictly between `s` and `e` on their line is occupied. */
  predicate PathClear(g: Grid<Piece>, s: Pos, e: Pos)
    requires ValidGrid(g) && InBounds(s) && InBounds(e) && Aligned(s, e)
  {
    forall j :: 0 < j < Dist(s, e) ==> Get(g, Between(s, e, j)) == None
  }

  /** The obstruction walk of `Unit.is_path_clear`: step one square at a time from `start`
      toward `end`, failing at the first occupied square. Callers only ask about aligned pairs
      (for any other pair the walk never reaches `end`). */
  method IsPathClear(g: Grid<Piece>, start: Pos, end: Pos) returns (clear: bool)
    requires ValidGrid(g) && InBounds(start) && InBounds(end) && Aligned(start, end)
    ensures clear <==> PathClear(g, start, end)
    ensures start == end ==> clear
  {
    var rowStep := if end.row > start.row then 1 else if end.row < start.row then -1 else 0;
    var colStep := if end.col > start.col then 1 else if end.col < start.col then -1 else 0;
    var row, col := start.row + rowStep, start.col + colStep;
    ghost var j := 1;
    while (row, col) != (end.row, end.col)
      invariant start == end ==> row == end.row && col == end.col
      invariant start != end ==> 1 <= j <= Dist(start, end) && Pos(row, col) == Between(start, end, j)
      invariant forall i :: 0 < i < j ==> Get(g, Between(start, end, i)) == None
      decreases Dist(start, end) - j
    {
      if Get(g, Pos(row, col)) != None {
        return false;
      }
      row, col := row + rowStep, col + colStep;
      j := j + 1;
    }
    return true;
  }

  /** `Pawn.is_valid_move`. The starting row is 6 for White and 1 for Black. */
  predicate PawnMove(color: Color, s: Pos, e: Pos, g: Grid<Piece>)
    requires ValidGrid(g) && InBounds(s) && InBounds(e)
  {
    var dir := Forward(color);
    if s.col == e.col && e.row == s.row + dir && Get(g, e) == None then true
    else if s.col == e.col && s.row == (if color == White then 6 else 1) && e.row == s.row + 2 * dir
            && Get(g, e) == None && Get(g, Pos(s.row + dir, e.col)) == None then true
    else if Abs(s.col - e.col) == 1 && e.row == s.row + dir then Enemy(g, e, color)
    else false
  }

  predicate RookMove(color: Color, s: Pos, e: Pos, g: Grid<Piece>)
    requires ValidGrid(g) && InBounds(s) && InBounds(e)
  {
    SameLine(s, e) && PathClear(g, s, e) && OpenTo(g, e, color)
  }

  predicate KnightMove(color: Color, s: Pos, e: Pos, g: Grid<Piece>)
    requires ValidGrid(g) && InBounds(s) && InBounds(e)
  {
    var dr, dc := Abs(s.row - e.row), Abs(s.col - e.col);
    ((dr == 2 && dc == 1) || (dr == 1 && dc == 2)) && OpenTo(g, e, color)
  }

  predicate BishopMove(color: Color, s: Pos, e: Pos, g: Grid<Piece>)
    requires ValidGrid(g) && InBounds(s) && InBounds(e)
  {
    SameDiagonal(s, e) && PathClear(g, s, e) && OpenTo(g, e, color)
  }

  predicate QueenMove(color: Color, s: Pos, e: Pos, g: Grid<Piece>)
    requires ValidGrid(g) && InBounds(s) && InBounds(e)
  {
    (SameLine(s, e) || SameDiagonal(s, e)) && PathClear(g, s, e) && OpenTo(g, e, color)
  }

  predicate KingMove(color: Color, s: Pos, e: Pos, g: Grid<Piece>)
    requires ValidGrid(g) && InBounds(s) && InBounds(e)
  {
    Dist(s, e) == 1 && OpenTo(g, e, color)
  }

  /** Within two rows and two columns; occupancy is never looked at. */
  predicate SpiderMove(s: Pos, e: Pos) {
    Abs(s.row - e.row) <= 2 && Abs(s.col - e.col) <= 2
  }

  /** Same square colour; occupancy is never looked at. */
  predicate WizardMove(s: Pos, e: Pos) {
    (s.row + s.col) % 2 == (e.row + e.col) % 2
  }

  /** Any rank, file or diagonal, jumping over everything; occupancy is never looked at. */
  predicate MinotaurMove(s: Pos, e: Pos) {
    s.row == e.row || s.col == e.col || Abs(s.row - e.row) == Abs(s.col - e.col)
  }

  /** The rule of the piece's kind, as the program's per-class `is_valid_move` selects it. */
  predicate IsValidMove(p: Piece, s: Pos, e: Pos, g: Grid<Piece>)
    requires ValidGrid(g) && InBounds(s) && InBounds(e)
  {
    match p.kind
    case Pawn => PawnMove(p.color, s, e, g)
    case Rook => RookMove(p.color, s, e, g)
    case Knight => KnightMove(p.color, s, e, g)
    case Bishop => BishopMove(p.color, s, e, g)
    case Queen => QueenMove(p.color, s, e, g)
    case King => KingMove(p.color, s, e, g)
    case Spider => SpiderMove(s, e)
    case Wizard => WizardMove(s, e)
    case Minotaur => MinotaurMove(s, e)
  }

  // ---------------------------------------------------------------------------------------
  // Properties of the rules

  /** A standard piece never lands on a square held by its own side. */
  lemma StandardNeverCapturesFriend(p: Piece, s: Pos, e: Pos, g: Grid<Piece>)
    requires ValidGrid(g) && InBounds(s) && InBounds(e)
    requires Standard(p.kind) && IsValidMove(p, s, e, g)
    ensures Get(g, e) == None || Get(g, e).value.color != p.color
  {
  }

  /** A standard piece standing on `s` cannot move to `s`. */
  lemma StandardRejectsNullMove(p: Piece, s: Pos, g: Grid<Piece>)
    requires ValidGrid(g) && InBounds(s)
    requires Standard(p.kind) && Get(g, s) == Some(p)
    ensures !IsValidMove(p, s, s, g)
  {
  }

  /** The fantasy pieces accept the null move, whatever the board. */
  lemma FantasyAcceptsNullMove(p: Piece, s: Pos, g: Grid<Piece>)
    requires ValidGrid(g) && InBounds(s)
    requires Fantasy(p.kind)
    ensures IsValidMove(p, s, s, g)
  {
  }

  /** The fantasy pieces never look at the board: their verdict is the same on any grid,
      so in particular they may land on a piece of their own colour. */
  lemma FantasyIgnoresBoard(p: Piece, s: Pos, e: Pos, g: Grid<Piece>, h: Grid<Piece>)
    requires ValidGrid(g) && ValidGrid(h) && InBounds(s) && InBounds(e)
    requires Fantasy(p.kind)
    ensures IsValidMove(p, s, e, g) == IsValidMove(p, s, e, h)
  {
  }

  /** Queen legality is exactly Rook legality or Bishop legality. */
  lemma QueenIsRookOrBishop(c: Color, s: Pos, e: Pos, g: Grid<Piece>)
    requires ValidGrid(g) && InBounds(s) && InBounds(e)
    ensures IsValidMove(Piece(c, Queen), s, e, g)
        <==> IsValidMove(Piece(c, Rook), s, e, g) || IsValidMove(Piece(c, Bishop), s, e, g)
  {
  }

  /** A sliding piece is rejected as soon as any square strictly between start and end is
      occupied, whatever stands on the end square. */
  lemma BlockedPathRejects(p: Piece, s: Pos, e: Pos, g: Grid<Piece>, j: int)
    requires ValidGrid(g) && InBounds(s) && InBounds(e)
    requires p.kind in {Rook, Bishop, Queen}
    requires Aligned(s, e) && 0 < j < Dist(s, e) && Get(g, Between(s, e, j)) != None
    ensures !IsValidMove(p, s, e, g)
  {
  }

  /** Every pawn move is one of the three the rule allows: one step straight onto an empty
      square, two steps straight from the starting row over two empty squares, or one step
      diagonally onto an enemy. In particular a pawn never captures straight ahead. */
  lemma PawnMoveCases(c: Color, s: Pos, e: Pos, g: Grid<Piece>)
    requires ValidGrid(g) && InBounds(s) && InBounds(e)
    requires IsValidMove(Piece(c, Pawn), s, e, g)
    ensures e.row == s.row + Forward(c) || e.row == s.row + 2 * Forward(c)
    ensures s.col == e.col ==> Get(g, e) == None
    ensures e.row == s.row + 2 * Forward(c) ==>
              s.col == e.col && s.row == (if c == White then 6 else 1)
              && Get(g, Pos(s.row + Forward(c), s.col)) == None
    ensures s.col != e.col ==> Abs(s.col - e.col) == 1 && Enemy(g, e, c)
  {
  }

  /** The converse: each of the three allowed pawn moves is accepted. */
  lemma PawnMovesAccepted(c: Color, s: Pos, e: Pos, g: Grid<Piece>)
    requires ValidGrid(g) && InBounds(s) && InBounds(e)
    requires (s.col == e.col && e.row == s.row + Forward(c) && Get(g, e) == None)
          || (s.col == e.col && s.row == (if c == White then 6 else 1)
              && e.row == s.row + 2 * Forward(c) && Get(g, e) == None
              && Get(g, Pos(s.row + Forward(c), s.col)) == None)
          || (Abs(s.col - e.col) == 1 && e.row == s.row + Forward(c) && Enemy(g, e, c))
    ensures IsValidMove(Piece(c, Pawn), s, e, g)
  {
  }

  /** A knight always changes the colour of its square. */
  lemma KnightChangesSquareColour(c: Color, s: Pos, e: Pos, g: Grid<Piece>)
    requires ValidGrid(g) && InBounds(s) && InBounds(e)
    requires IsValidMove(Piece(c, Knight), s, e, g)
    ensures Parity(s) != Parity(e) && s != e
  {
  }

  /** A bishop keeps the colour of its square, so every bishop move is also a wizard move. */
  lemma WizardCoversBishop(c: Color, s: Pos, e: Pos, g: Grid<Piece>)
    requires ValidGrid(g) && InBounds(s) && InBounds(e)
    requires IsValidMove(Piece(c, Bishop), s, e, g)
    ensures IsValidMove(Piece(c, Wizard), s, e, g)
  {
  }

  /** Every queen move is a minotaur move (the minotaur drops the path and occupancy checks). */
  lemma MinotaurCoversQueen(c: Color, s: Pos, e: Pos, g: Grid<Piece>)
    requires ValidGrid(g) && InBounds(s) && InBounds(e)
    requires IsValidMove(Piece(c, Queen), s, e, g)
    ensures IsValidMove(Piece(c, Minotaur), s, e, g)
  {
  }

  /** Every king move is a spider move, and the spider accepts exactly Chebyshev distance at
      most 2. */
  lemma SpiderCoversKing(c: Color, s: Pos, e: Pos, g: Grid<Piece>)
    requires ValidGrid(g) && InBounds(s) && InBounds(e)
    ensures IsValidMove(Piece(c, King), s, e, g) ==> IsValidMove(Piece(c, Spider), s, e, g)
    ensures IsValidMove(Piece(c, Spider), s, e, g) <==> Dist(s, e) <= 2
  {
  }
}
