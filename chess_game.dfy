/** The chess game's input parser: "undo", or a move in the four-character notation. */
module ChessGame {
  import opened Squares
  import opened Notation

  /** The three results of the chess parser: the undo keyword, a move, or a rejected string. */
  datatype Command = Undo | Move(start: Pos, end: Pos) | Invalid

  /** `Game.parse_input`. The keyword is tested before the length, so "undo" (four characters)
      is never read as a move; positions are not bounds-checked. */
  function ParseInput(move: string): (cmd: Command)
    ensures cmd == Undo <==> move == "undo"
    ensures cmd == Invalid <==> move != "undo" && !WellFormed(move)
    ensures cmd.Move? ==> Parsable(cmd.start) && Parsable(cmd.end)
                          && FormatMove(cmd.start, cmd.end) == move
  {
    if move == "undo" then Undo
    else
      match ParseSquares(move)
      case Some((s, e)) => (FormatParse(move); Move(s, e))
      case None => Invalid
  }

  /** "e2e4" is the move (6,4)->(4,4); rank '9' and rank '0' give rows -1 and 8 unchecked;
      a file letter past 'h' is rejected. */
  lemma ParseInputExamples()
    ensures ParseInput("e2e4") == Move(Pos(6, 4), Pos(4, 4))
    ensures ParseInput("a9h0") == Move(Pos(-1, 0), Pos(8, 7))
    ensures ParseInput("i2e4") == Invalid
    ensures ParseInput("e2e") == Invalid
  {
    assert "e2e4"[0] in FILES && "e2e4"[2] in FILES;
    assert "a9h0"[0] in FILES && "a9h0"[2] == FILES[7];
  }
}
