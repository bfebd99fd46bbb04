/** The 8x8 board shared by both games: positions, colours and a grid of optional pieces.
    The grid is a list of eight rows of eight cells; an empty cell is `None`. */
module Squares {

  datatype Option<T> = None | Some(value: T)

  /** The two sides; 'W' moves toward row 0, 'B' toward row 7. */
  datatype Color = White | Black

  /** A (row, column) pair; row 0 is the top row as displayed. */
  datatype Pos = Pos(row: int, col: int)

  predicate InBounds(p: Pos) {
    0 <= p.row < 8 && 0 <= p.col < 8
  }

  function Abs(x: int): nat {
    if x < 0 then -x else x
  }

  /** The row step of a forward move: -1 for White, +1 for Black. */
  function Forward(c: Color): (d: int)
    ensures d == -1 || d == 1
    ensures (d == -1) <==> c == White
  {
    if c == White then -1 else 1
  }

  /** Colour of the square under the checkerboard pattern. */
  function Parity(p: Pos): int {
    (p.row + p.col) % 2
  }

  /** Row-major rank of a square: the order in which nested row/column loops visit it. */
  function Index(p: Pos): int {
    p.row * 8 + p.col
  }

  type Grid<T> = seq<seq<Option<T>>>

  predicate ValidGrid<T>(g: Grid<T>) {
    |g| == 8 && forall r :: 0 <= r < 8 ==> |g[r]| == 8
  }

  function Get<T>(g: Grid<T>, p: Pos): Option<T>
    requires ValidGrid(g) && InBounds(p)
  {
    g[p.row][p.col]
  }

  /** The grid with cell `p` overwritten by `x`: one in-place cell assignment. */
  function Put<T>(g: Grid<T>, p: Pos, x: Option<T>): (r: Grid<T>)
    requires ValidGrid(g) && InBounds(p)
    ensures ValidGrid(r)
    ensures Get(r, p) == x
    ensures forall q :: InBounds(q) && q != p ==> Get(r, q) == Get(g, q)
  {
    g[p.row := g[p.row][p.col := x]]
  }

  /** Eight rows of eight empty cells. */
  function EmptyGrid<T>(): (r: Grid<T>)
    ensures ValidGrid(r)
    ensures forall q :: InBounds(q) ==> Get(r, q) == None
  {
    seq(8, _ => seq(8, _ => None))
  }

  /** Two grids that agree on every square are the same grid. */
  lemma GridExt<T>(a: Grid<T>, b: Grid<T>)
    requires ValidGrid(a) && ValidGrid(b)
    requires forall q :: InBounds(q) ==> Get(a, q) == Get(b, q)
    ensures a == b
  {
    forall r | 0 <= r < 8
      ensures a[r] == b[r]
    {
      forall c | 0 <= c < 8
        ensures a[r][c] == b[r][c]
      {
        assert Get(a, Pos(r, c)) == Get(b, Pos(r, c));
      }
    }
  }
}
