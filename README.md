# Chess variant and checkers rule engines, in Dafny

This project models the two rule engines of a small console board-game program: a chess
variant (`Dop156.py`) with the six standard pieces plus three fantasy pieces (Spider, Wizard,
Minotaur), and checkers (`Shashechki.py`). Each engine pairs per-piece move predicates with an
8x8 board that its `move_piece` changes in place.

Modules:

- `Squares` (squares.dfy): positions, colours, and the grid of optional pieces both games use
  (a list of eight rows of eight cells), with cell read and cell write.
- `Notation` (notation.dfy): the four-character move parser shared by both `parse_input`
  functions, with its inverse, a formatter.
- `ChessRules` (chess_rules.dfy): the nine `is_valid_move` rules as predicates, the obstruction
  walk `is_path_clear` as a loop method proved equal to a predicate, and lemmas relating the rules.
- `ChessBoard` (chess_board.dfy): the opening layout, the `Board` class with `grid` and
  `moveHistory`, `move_piece`, `undo_move` and `get_valid_moves`.
- `ChessGame` (chess_game.dfy): the chess `parse_input`, which also knows "undo".
- `CheckersRules` (checkers_rules.dfy): the checker's `is_valid_move` and its enumerator
  `get_possible_moves`.
- `CheckersBoard` (checkers_board.dfy): the checkers opening layout and the `Board` class with
  `move_piece`, including the failing promotion.

Positions are `(row, col)` with row 0 at the top. 'W' is `White` and moves toward row 0; 'B' is `Black`.
Rule and board operations require both positions to lie on the board. The program itself would
wrap around or raise for other positions.

Behaviour of the code that the model keeps as written:

- Spider, Wizard and Minotaur never look at the board. They accept a move onto a piece of their
  own colour, and they accept `start == end`. Such a null move then erases the piece, because
  `move_piece` writes the piece to `end` and then clears `start`.
- The White Minotaur starts on (4,4). So on the opening board the double step (6,4)->(4,4) is
  rejected: the e-pawn cannot open with a double step.
- A checker's jump may go backward, and the landing square of a jump is never checked, so a
  jump onto an occupied square destroys its occupant as well as the jumped man.
- On the fresh checkers board a Black man stands on (2,1), and (2,1)->(3,0) is an accepted
  opening step.
- Checkers promotion calls `Piece`, a name that is not defined. The call raises after the
  midpoint, end and start squares have already been written. The model returns the outcome
  `PromotionFailed` in that case, and the grid is then in the already-written state. No crowned
  piece ever exists, so only men are modelled.
- Ranks '0' and '9' parse to rows 8 and -1 without complaint.
- Checkers has no move history and no undo.

## Model

| member | source | states |
|---|---|---|
| `Squares.Forward` | Dop156.py:91 | forward row step is -1 exactly for White and +1 for Black |
| `Squares.EmptyGrid` | Dop156.py:355 | eight rows of eight cells, every square empty |
| `Notation.FileIndex` | Dop156.py:483-486 | a character has a column exactly when it is one of "abcdefgh", and the column is its index in that string |
| `Notation.DigitValue` | Dop156.py:486-490 | a rank character converts exactly when it is an ASCII digit, to that digit's value |
| `Notation.ParseSquare` | Shashechki.py:218-219 | a square parses exactly when it is a file letter and a digit; the result lies in rows -1..8, columns 0..7, and formats back to the same two characters (row 8 minus the digit, column the letter's index) |
| `Notation.ParseSquares` | Shashechki.py:215-222 | the parse succeeds exactly for length-4 strings of letter, digit, letter, digit; otherwise None |
| `Notation.ParseFormat` | Shashechki.py:218-220 | parsing the notation of any two parsable squares gives those squares back |
| `Notation.FormatParse` | Shashechki.py:215-222 | every accepted string is the notation of the squares it parses to, so the parse is injective |
| `ChessGame.ParseInput` | Dop156.py:481-490 | Undo exactly for "undo"; Invalid exactly when the string is not "undo" and malformed; a move's squares format back to the input string |
| `ChessGame.ParseInputExamples` | Dop156.py:481-490 | "e2e4" is (6,4)->(4,4); "a9h0" gives rows -1 and 8 unchecked; a bad letter or a wrong length is Invalid |
| `ChessRules.PathClear` | Dop156.py:52-62 | definition: every square strictly between start and end on their line is empty; the reference the walk is proved against |
| `ChessRules.PawnMove` | Dop156.py:91-100 | definition: one step forward onto an empty square, two from row 6 (White) or 1 (Black) over two empty squares, or one diagonal forward onto an enemy; `PawnMoveCases` and `PawnMovesAccepted` characterise it |
| `ChessRules.RookMove` | Dop156.py:129-131 | definition: same row or column, clear path, end empty or enemy |
| `ChessRules.KnightMove` | Dop156.py:160-161 | definition: offsets (2,1) or (1,2), end empty or enemy; no path test |
| `ChessRules.BishopMove` | Dop156.py:190-192 | definition: equal row and column offsets, clear path, end empty or enemy |
| `ChessRules.QueenMove` | Dop156.py:221-223 | definition: rook or bishop line, clear path, end empty or enemy |
| `ChessRules.KingMove` | Dop156.py:252-254 | definition: Chebyshev distance exactly 1, end empty or enemy |
| `ChessRules.SpiderMove` | Dop156.py:283 | definition: at most two rows and two columns away; the board is not read |
| `ChessRules.WizardMove` | Dop156.py:312 | definition: same square colour; the board is not read |
| `ChessRules.MinotaurMove` | Dop156.py:341 | definition: same row, column or diagonal; the board is not read |
| `ChessRules.IsValidMove` | Dop156.py:411-412 | definition: the rule of the piece's kind, as `move_piece` and `get_valid_moves` call it |
| `ChessRules.IsPathClear` | Dop156.py:52-62 | the step-by-step walk returns true exactly when no square strictly between start and end on their line is occupied; true when start == end |
| `ChessRules.StandardNeverCapturesFriend` | Dop156.py:91-254 | an accepted pawn, rook, knight, bishop, queen or king move never ends on a piece of the mover's colour |
| `ChessRules.StandardRejectsNullMove` | Dop156.py:91-254 | a standard piece standing on s cannot move from s to s |
| `ChessRules.FantasyAcceptsNullMove` | Dop156.py:283-341 | Spider, Wizard and Minotaur accept start == end on any board |
| `ChessRules.FantasyIgnoresBoard` | Dop156.py:283-341 | the fantasy pieces' verdict is the same on every grid, so they ignore occupants and may land on friends |
| `ChessRules.QueenIsRookOrBishop` | Dop156.py:129-222 | queen legality equals rook legality or bishop legality |
| `ChessRules.BlockedPathRejects` | Dop156.py:52-222 | a rook, bishop or queen move with any occupied intermediate square is rejected, whatever is on the end square |
| `ChessRules.PawnMoveCases` | Dop156.py:91-100 | every accepted pawn move is one forward step to an empty square, a double step from row 6 (White) or 1 (Black) over two empty squares, or a forward diagonal step onto an enemy |
| `ChessRules.PawnMovesAccepted` | Dop156.py:91-100 | each of those three pawn moves is accepted (the converse) |
| `ChessRules.KnightChangesSquareColour` | Dop156.py:160-161 | an accepted knight move changes the square colour and never stays put |
| `ChessRules.WizardCoversBishop` | Dop156.py:190-312 | every accepted bishop move is also accepted for a wizard |
| `ChessRules.MinotaurCoversQueen` | Dop156.py:221-341 | every accepted queen move is also accepted for a minotaur |
| `ChessRules.SpiderCoversKing` | Dop156.py:252-283 | every accepted king move is a spider move, and the spider accepts exactly Chebyshev distance at most 2 |
| `ChessBoard.InitialGrid` | Dop156.py:363-375 | every square holds the opening-layout piece: pawns on rows 1 and 6, back rows R N S Q K W N R, Minotaurs on (3,3) Black and (4,4) White, the rest empty |
| `ChessBoard.Moved` | Dop156.py:414-415 | after a move the start square is empty, the end square holds the former start piece (so a null move erases it), and no other square changes |
| `ChessBoard.Undone` | Dop156.py:428-430 | undoing a record puts the recorded occupant on end, the end piece on start, and changes no other square |
| `ChessBoard.UndoRestoresGrid` | Dop156.py:413-430 | undoing the record a move leaves gives back exactly the earlier grid, captures and null moves included |
| `ChessBoard.NullMoveErasesPiece` | Dop156.py:411-415 | a null move is accepted exactly for a fantasy piece, and afterwards its square is empty |
| `ChessBoard.OpeningDoubleSteps` | Dop156.py:94-97 | on the opening board (6,4)->(4,4) is rejected because the White Minotaur is on (4,4); (6,3)->(4,3) is accepted |
| `ChessBoard.Board.constructor` | Dop156.py:351-357 | a new board has the opening grid and an empty history |
| `ChessBoard.Board.SetupPieces` | Dop156.py:359-375 | rows 0, 1, 6, 7 and squares (3,3), (4,4) receive the opening layout; every other square keeps its content |
| `ChessBoard.Board.MovePiece` | Dop156.py:411-417 | accepted exactly when a piece is on start and its rule accepts; then the record (start, end, old end occupant) is appended and the grid moved; otherwise grid and history are unchanged |
| `ChessBoard.Board.UndoMove` | Dop156.py:426-432 | false and nothing changed on an empty history; otherwise the last record is popped and its effect reversed on the grid |
| `ChessBoard.Board.GetValidMoves` | Dop156.py:444-452 | [] for an empty square; otherwise exactly the on-board squares the piece's rule accepts, in strictly increasing row-major order (so no duplicates); the board is only read |
| `ChessBoard.MoveThenUndo` | Dop156.py:411-432 | an accepted move followed by undo gives back exactly the previous grid and history |
| `CheckersRules.IsValidMove` | Shashechki.py:80-95 | definition: a forward diagonal step onto an empty square, or a two-square diagonal over an enemy in either direction; `StepRule`, `JumpRule` and `ValidMoveShape` characterise it |
| `CheckersRules.NeighbourMove` | Shashechki.py:85-93 | an accepted move to a diagonal neighbour goes in the mover's forward direction onto an empty square |
| `CheckersRules.NeighboursOrdered` | Shashechki.py:108-113 | accepted neighbours taken in direction order are forward, empty, left before right, and at most two |
| `CheckersRules.GetPossibleMoves` | Shashechki.py:108-113 | exactly the on-board diagonal neighbours the rule accepts: all forward and empty, left before right, at most two, never a jump |
| `CheckersRules.ValidMoveShape` | Shashechki.py:80-95 | every accepted move has both deltas 1 or both 2, so start != end and the square colour is kept |
| `CheckersRules.StepRule` | Shashechki.py:85-86 | a one-square diagonal is accepted exactly when it goes forward onto an empty square |
| `CheckersRules.JumpRule` | Shashechki.py:89-93 | a two-square diagonal is accepted exactly when an enemy stands on the midpoint, in either direction, whatever is on the landing square |
| `CheckersRules.BackwardJumpOntoFriend` | Shashechki.py:89-93 | a White man may jump backward over a Black man onto a square already held by a White man |
| `CheckersBoard.InitialGrid` | Shashechki.py:133-141 | Black men on the dark squares of rows 0-2, White men on the dark squares of rows 5-7, all other squares empty |
| `CheckersBoard.Applied` | Shashechki.py:177-182 | after a move the start square is empty, the end square holds the mover, the midpoint is empty when the rows differ by two, and no other square changes |
| `CheckersBoard.DarkSquaresPreserved` | Shashechki.py:176-182 | if every piece is on a dark square, it stays so after any accepted move |
| `CheckersBoard.InitialOnDarkSquares` | Shashechki.py:133-141 | the opening layout uses only dark squares |
| `CheckersBoard.CaptureOnlyOnJump` | Shashechki.py:176-182 | an accepted jump removes the enemy on the midpoint and whatever stood on the landing square, and changes no square besides start, end and midpoint; an accepted step lands on an empty square and changes only start and end |
| `CheckersBoard.JumpOverwritesLanding` | Shashechki.py:89-93 | White (4,3) over Black (3,2) onto (2,1), where another Black man stands, is accepted and leaves no Black man on the board |
| `CheckersBoard.BackwardJumpReplacesFriend` | Shashechki.py:177-182 | White (5,2) jumping backward over Black (6,3) onto the White man on (7,4) leaves only one occupied square, (7,4) |
| `CheckersBoard.OpeningStep` | Shashechki.py:133-136 | on the fresh board a Black man is on (2,1) and (2,1)->(3,0) is accepted |
| `CheckersBoard.CaptureExample` | Shashechki.py:177-182 | White on (4,3) jumps Black on (3,2) to the empty (2,1): (3,2) and (4,3) are emptied and (2,1) holds White |
| `CheckersBoard.Board.constructor` | Shashechki.py:122-127 | a new board has the opening grid |
| `CheckersBoard.Board.SetupPieces` | Shashechki.py:129-141 | the dark squares of rows 0-2 and 5-7 receive their men; every other square keeps its content |
| `CheckersBoard.Promotes` | Shashechki.py:183 | definition: White reaching row 0 or Black reaching row 7 |
| `CheckersBoard.Board.MovePiece` | Shashechki.py:175-186 | Rejected with the grid unchanged when start is empty or the rule refuses; otherwise the three writes are made, and the outcome is PromotionFailed exactly when the mover lands on its far row |

## Left out

- Console output (`display` in both files) and the input loops `Game.play`. These cover printing,
  `input()`, stripping "-", turn alternation and move counting. The loops never check that the
  moved piece belongs to the side to move, and the model adds no such check.
- The Unicode glyph table and `symbol`, including `.lower()` on the glyphs. Pieces are the pair
  (colour, kind).
- Python's `int()` accepting non-ASCII Unicode digits. Only ASCII '0'-'9' are read as ranks.
- Python negative and out-of-range list indexing. On-board positions are a precondition of the
  rule and board operations.
- `Unit.is_valid_move` and `Unit.get_possible_moves`, the base-class defaults that return
  False and []. No piece of the base class is ever on a board.
- Rules the code does not implement: check and checkmate, castling, en passant, pawn promotion,
  mandatory capture, multi-jump chains, and checkers undo.
- What a crowned checker would do. Promotion fails before any crowned piece is made.
- The exception that `PromotionFailed` stands for ends the program's game loop. The model only
  reports the outcome.
- Python object identity and aliasing. Pieces are values, and the rules read a snapshot of the
  grid they are given. The rules never write to the grid, so nothing observable is lost.
- `is_path_clear` on a pair that is not on one line. The walk would never reach the end square.
  Every caller checks alignment first, so the model requires it.
- The number 12 of men per side is not stated as a count. `CheckersBoard.InitialGrid` states
  which squares hold them: four dark squares in each of three rows.
