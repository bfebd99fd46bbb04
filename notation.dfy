/** The four-character move notation read by both games' `parse_input`, e.g. "e2e4":
    file letter, rank digit, file letter, rank digit. A square "xd" denotes row 8 - d and
    column index('x'). Only ASCII digits are read as ranks. */
module Notation {
  import opened Squares

  const FILES: string := "abcdefgh"

  /** The column of a file letter: its index in "abcdefgh", or None for any other character. */
  function FileIndex(ch: char): (r: Option<int>)
    ensures r.Some? <==> ch in FILES
    ensures r.Some? ==> 0 <= r.value < 8 && FILES[r.value] == ch
  {
    if 'a' <= ch <= 'h' then Some(ch as int - 'a' as int) else None
  }

  /** The value of a rank character: the digit's value for '0'-'9', None for any other
      character (where the program's integer conversion raises). */
  function DigitValue(ch: char): (r: Option<int>)
    ensures r.Some? <==> '0' <= ch <= '9'
    ensures r.Some? ==> 0 <= r.value <= 9 && ch as int == '0' as int + r.value
  {
    if '0' <= ch <= '9' then Some(ch as int - '0' as int) else None
  }

  /** A file letter followed by an ASCII digit. */
  predicate WellFormedSquare(file: char, rank: char) {
    file in FILES && '0' <= rank <= '9'
  }

  predicate WellFormed(move: string) {
    |move| == 4 && WellFormedSquare(move[0], move[1]) && WellFormedSquare(move[2], move[3])
  }

  /** One square: row 8 minus the rank digit, column the file letter's index. The square
      formats back to the two characters it was read from. */
  function ParseSquare(file: char, rank: char): (r: Option<Pos>)
    ensures r.Some? <==> WellFormedSquare(file, rank)
    ensures r.Some? ==> Parsable(r.value) && FormatSquare(r.value) == [file, rank]
  {
    match (FileIndex(file), DigitValue(rank))
    case (Some(c), Some(d)) => Some(Pos(8 - d, c))
    case _ => None
  }

  /** Positions a parse can produce: any ASCII digit is accepted, so rank '0' gives row 8
      and rank '9' gives row -1. */
  predicate Parsable(p: Pos) {
    -1 <= p.row <= 8 && 0 <= p.col < 8
  }

  /** The move parser shared by both `parse_input` functions (without the chess "undo" case):
      None for a wrong length, a bad file letter or a non-digit rank. */
  function ParseSquares(move: string): (r: Option<(Pos, Pos)>)
    ensures r.Some? <==> WellFormed(move)
    ensures r.Some? ==> Parsable(r.value.0) && Parsable(r.value.1)
  {
    if |move| != 4 || move[0] !in FILES || move[2] !in FILES then None
    else
      match (ParseSquare(move[0], move[1]), ParseSquare(move[2], move[3]))
      case (Some(s), Some(e)) => Some((s, e))
      case _ => None
  }

  /** The notation of a square: its file letter and its rank digit. */
  function FormatSquare(p: Pos): (s: string)
    requires Parsable(p)
    ensures |s| == 2
  {
    [('a' as int + p.col) as char, ('0' as int + 8 - p.row) as char]
  }

  function FormatMove(s: Pos, e: Pos): string
    requires Parsable(s) && Parsable(e)
  {
    FormatSquare(s) + FormatSquare(e)
  }

  /** Parsing the notation of two squares gives those squares back. */
  lemma ParseFormat(s: Pos, e: Pos)
    requires Parsable(s) && Parsable(e)
    ensures ParseSquares(FormatMove(s, e)) == Some((s, e))
  {
    var m := FormatMove(s, e);
    assert m[0] == FILES[s.col] && m[2] == FILES[e.col];
    assert ParseSquare(m[0], m[1]) == Some(s);
    assert ParseSquare(m[2], m[3]) == Some(e);
  }

  /** Every accepted move string is the notation of the squares it parses to, so the parse
      loses nothing and two different strings never parse to the same squares. */
  lemma FormatParse(move: string)
    requires ParseSquares(move).Some?
    ensures FormatMove(ParseSquares(move).value.0, ParseSquares(move).value.1) == move
  {
    var (s, e) := ParseSquares(move).value;
    var f := FormatMove(s, e);
    assert f[0] == move[0] && f[1] == move[1] && f[2] == move[2] && f[3] == move[3];
  }
}
