# Gomoku rule engine and alpha-beta search, in Dafny

A model of the rule engine and the search of a Gomoku program written in Rust
(afaucher17/gomoku), with proofs about both.

## What is modelled

The game is played on a 19 by 19 grid. Each intersection holds a Black stone,
a White stone, or nothing.

- **Squares** (`square.dfy`) — the `Square` enum and `opposite`.
- **BoardState** (`board_state.dfy`) — the `Board` value: the grid plus the
  two capture counters. Also `Board::new`, `get_score`, the text parser
  (`From<&str>`) and the grid part of its `Display` rendering. Rust clones the
  board on every move, so the board is a datatype here.
- **Lines** (`lines.dfy`) — `str::find`, and the line extraction the scanners
  of `check.rs` repeat:
  - each of the 19 rows, 19 columns and 2 × 37 diagonals as a string;
  - the closure `fun` that maps a character offset back to a square.
- **Capture** (`capture.dfy`) — `check_capture`. Eight guarded four-square
  windows around the new stone are tried in their order. The clone is built
  step by step, as in the source.
- **Scan** (`scan.dfy`) — the three template scanners `five_aligned_capture`,
  `check_threats` and `check_capture_pos`. They are modelled as the source's
  three nested loops, proved against a specification function.
- **Align** (`align.dfy`) — the end-of-game tests:
  - `rec_explo` and `five_aligned`;
  - `check_aligned`, whose loop clears the breakable pairs;
  - `check_full_board`.
- **FreeThrees** (`free_threes.dfy`) — `check_free_threes`, the test for a
  double free three.
- **Patterns** (`patterns.dfy`) — `check_patterns`, the evaluator. It scores
  13 shapes per side and adds a capture heuristic.
- **Boards** (`board.rs` operations, `board.dfy`) — `play_at`, the surroundings
  of stones, `get_plays` (candidate moves, made unique) and `evaluation`.
- **Minimax** (`minimax.dfy`) — `src/minimax/mod.rs` and the iterative-deepening
  driver `get_input_ai` of `src/game/mod.rs`. `Searcher` is a class that holds:
  - the killer table, a 12 × 2 `array2` updated in place;
  - the transposition map;
  - a node counter.

  The class contains the recursive `minimax` as a method. The method is split
  into the expansion and loop methods of its maximizing and minimizing halves.
  The loops record, as a ghost sequence `seen`, the decisions of the children
  searched to the end. The source keeps no such list. The contracts use it to
  state that the node's answer is the `cmp::max` or `cmp::min` fold over those
  decisions (`MaxFold`, `MinFold`). A second ghost sequence, `flags`, records
  whether each move tried so far was legal. With it, the contracts state that
  the searched children are exactly the legal moves among the moves tried, in
  the list's order (`LegalOf`). They also state that the loop stops only when
  the list is exhausted, a child timed out, or the last child searched cut off.

### Quirks kept as the code has them

- `check_capture`'s bound guards are `x + 4 < 19` and `x >= 4`, although the
  window only reaches three squares. A bracket against the edge is therefore
  never captured. `Capture.EdgeBracketIgnored` exhibits this.
- The threat template `WWWW-W` (and `BBBB-B`) reports offset 3, which is a
  stone, not the gap. `Scan.ThreatOnOccupiedSquare` exhibits this.
- A finished node whose score is at or below alpha is stored as `Lowerbound`.
  A score at or above beta is stored as `Upperbound`. The kind is computed
  against the window as updated during the loop, not the one the node was
  called with.
- Killer moves are recorded:
  - at `depth - 1` on a cut-off in a maximizing node;
  - at `depth` in a minimizing node.
- A new killer goes to slot 0 whenever slot 1 is already occupied, and the
  move that was in slot 0 moves to slot 1. The move in slot 1 is the one
  dropped.
- `src/minimax/mod.rs` matches `play_at` against `Move::Legal(child, _)`, but
  `play_at` in `src/board/board.rs` returns `Option<Board>`. The model uses
  the `Option` form, with `Some` in the role of `Move::Legal`.

## Model

| member | source | states |
|---|---|---|
| Squares.Opposite | src/board/square.rs:12-19 | Black and White swap, and Empty stays Empty, in both directions |
| Squares.OppositeInvolution | src/board/square.rs:12-19 | taking the opposite twice gives back the original square |
| Squares.OppositeOfStoneDiffers | src/board/square.rs:14-16 | a stone's opposite is never its own colour |
| BoardState.Put | src/board/board.rs:90 | writing one square keeps the board 19×19 and the counters, changes that square and no other |
| BoardState.New | src/board/board.rs:64-70 | the new board is 19×19, every square is Empty, and both counters are 0 |
| BoardState.GetScore | src/board/board.rs:72-79 | Black's or White's capture counter, 0 for Empty, never negative |
| BoardState.Split | src/board/board.rs:51 | `split('\n')` yields at least one piece, and no piece contains a newline |
| BoardState.SplitCount | src/board/board.rs:51 | there is one piece more than the text has newlines |
| BoardState.JoinSplit | src/board/board.rs:51 | joining the pieces with newlines rebuilds the text |
| BoardState.SplitJoin | src/board/board.rs:51 | splitting newline-free pieces joined by newlines gives those pieces back |
| BoardState.Parse | src/board/board.rs:48-61 | one row per line of the text, each character mapped (`B`, `W`, anything else Empty), counters 0 |
| BoardState.ParseRow | src/board/board.rs:53-57 | a row as long as its line, with square `j` taken from character `j` |
| BoardState.RowText | src/board/board.rs:23-28 | a rendered row is as long as the row and shows `_`, `B` or `W` per square |
| BoardState.GridTextIsJoin | src/board/board.rs:22-29 | the rendered grid is the rendered rows, each followed by a newline |
| BoardState.ParseGridText | src/board/board.rs:48-61 | parsing the rendered grid gives back every row of the board, plus the empty row the final newline leaves |
| Lines.ToCharInjective | src/board/check.rs:72-75 | the character form of a square identifies the square, as long as the blank is not `B` or `W` |
| Lines.Replace | src/board/check.rs:302-307 | the same length, with every `x` replaced by the letter and every other character kept |
| Lines.FindFrom | src/board/check.rs:120 | a found index is at or after the start and the pattern occurs there |
| Lines.Find | src/board/check.rs:120 | a found index is an occurrence of the pattern |
| Lines.FindFromFirst | src/board/check.rs:120 | no occurrence lies between the start and the found index; `None` only when no occurrence lies after the start |
| Lines.FindFirst | src/board/check.rs:120 | `find` reports the first occurrence, and `None` only when there is none |
| Lines.NotFoundWithoutChar | src/board/check.rs:120 | a pattern holding a character the line lacks is not found |
| Lines.Fun | src/board/check.rs:87-110 | every offset of every line maps to a square on the board |
| Lines.LineData | src/board/check.rs:87-110 | line `i` has the length `19 - abs(19 - (i + 1))` on the diagonals, and character `v` is the square `fun(v)` |
| Lines.LineSquare | src/board/check.rs:87-110 | the source's indexing of `state` reads exactly the square `fun` names |
| Lines.LineStep | src/board/check.rs:87-110 | consecutive characters of a line are neighbouring squares, one step of the family's direction apart |
| Lines.Locate | src/board/check.rs:87-110 | every square lies on a line of every family, at an offset `fun` maps back to it |
| Lines.MakeRight | src/board/check.rs:87-96 | a `Right` is the data and closure of the requested line |
| Lines.AllLines | src/board/check.rs:85-115 | 112 lines, each the data of its line of the board |
| Lines.AllLinesComplete | src/board/check.rs:111-114 | every line of every family is among the scanned lines |
| Capture.Direction | src/board/check.rs:27-66 | each of the eight directions is a non-zero step of at most one square per axis |
| Capture.MatchCount | src/board/check.rs:14-26 | the number of bracketing windows is at most the number tried |
| Capture.Brackets | src/board/check.rs:15-17 | direction `k` is tried and its window reads the mover, two opponent stones, the mover: the guard of the `capture` closure; used by `Capture.CaptureResult` |
| Capture.CapturedBy | src/board/check.rs:18-19 | a square is a middle square of a bracketing window among the first `n` directions: the squares the closure empties; used by `Capture.CaptureResult` and `Capture.CapturedWasOpponent` |
| Capture.CaptureResult | src/board/check.rs:10-69 | the middle squares of every bracketing window become Empty, nothing else changes, and the mover gains 2 per bracket |
| Capture.CaptureWindow | src/board/check.rs:14-26 | one window tried on the clone leaves the state reached after that many directions |
| Capture.CheckCapture | src/board/check.rs:10-69 | the clone after all eight guarded windows equals the capture's result |
| Capture.TryAxes | src/board/check.rs:27-46 | East, West, South and North tried in order |
| Capture.TryDiagonals | src/board/check.rs:47-66 | the four diagonal windows tried in order after the axes |
| Capture.TryWindow | src/board/check.rs:28-31 | a window is tried exactly when its bound guard holds |
| Capture.CapturedWasOpponent | src/board/check.rs:15-19 | only squares holding the opponent's colour are ever emptied |
| Capture.OriginNeverCaptured | src/board/check.rs:15-19 | the placed stone is never one of the emptied squares |
| Capture.CaptureCells | src/board/check.rs:10-69 | a capture keeps the placed stone, and changes other squares only by emptying opponent stones |
| Capture.CaptureScores | src/board/check.rs:20-23 | the mover's counter grows by exactly 2 per bracket (at most 16), and the opponent's does not change |
| Capture.CaptureKeepsParity | src/board/check.rs:20-23 | even capture counters stay even |
| Capture.CaptureAlongRow | src/board/check.rs:33-36 | Black closing `B W W B` westward from column 4 takes both White stones and scores |
| Capture.EdgeBracketIgnored | src/board/check.rs:33 | as written, the same bracket against the edge at column 3 takes nothing |
| Scan.Hits | src/board/check.rs:120-124 | one template on one line as written: nothing when `find` fails, the listed offsets past the first occurrence otherwise; what it reports is stated by `Scan.HitAt` |
| Scan.HitList | src/board/check.rs:121-123 | one position per listed offset |
| Scan.HitListAt | src/board/check.rs:121-123 | entry `k` is `fun(offset k + found index)` |
| Scan.AllHits | src/board/check.rs:117-127 | the scanners' nested loops as a fold: every line's hits, in line order and table order; stated by `Scan.AllHitsProduced` and `Scan.HitsInAllHits`, computed by `Scan.ScanLines` |
| Scan.ScanLines | src/board/check.rs:117-127 | the loop over all lines produces exactly the specified hit list, line by line |
| Scan.ScanLine | src/board/check.rs:119-125 | the loop over the templates appends exactly one line's hits, in table order |
| Scan.ScanTemplate | src/board/check.rs:120-124 | a template appends its offsets' positions when found, and nothing otherwise |
| Scan.LineHitsStep | src/board/check.rs:119-125 | one more template adds that template's hits at the end |
| Scan.PushHits | src/board/check.rs:121-123 | the innermost loop appends `fun(i + offset)` for every listed `i` |
| Scan.HitIndex | src/board/check.rs:120-123 | the `k`-th reported position is a square of the line holding the template's character at offset `k` |
| Scan.HitAt | src/board/check.rs:120-123 | the `k`-th reported position is on the board and holds the template's character at offset `k` |
| Scan.HitsProduced | src/board/check.rs:120-123 | every position a template reports holds the character of one of its offsets |
| Scan.LineHitsProduced | src/board/check.rs:119-125 | every position reported on a line holds the character of some template's offset |
| Scan.AllHitsProduced | src/board/check.rs:117-127 | every position a scanner reports is on the board and holds the character its template expects there |
| Scan.HitsInAllHits | src/board/check.rs:117-127 | whatever any template reports on any line is in the scanner's output |
| Scan.LineHitsContain | src/board/check.rs:119-125 | whatever any template reports on a line is in that line's hits |
| Scan.FiveAlignedCaptureOf | src/board/check.rs:71-128 | every reported position is on the board |
| Scan.FiveAlignedCapture | src/board/check.rs:71-128 | `five_aligned_capture` reports the hits of its four templates on all 112 lines |
| Scan.ThreatsOf | src/board/check.rs:166-231 | the hits of the twenty threat templates on all 112 lines; computed by `Scan.CheckThreats`, and stated to be empty squares (but for one template) by `Scan.ThreatsEmptyExceptFourGapOne` |
| Scan.CheckThreats | src/board/check.rs:166-231 | `check_threats` reports the hits of its twenty templates on all 112 lines |
| Scan.CapturePosOf | src/board/check.rs:233-291 | the hits of the four capture-move templates on all 112 lines; computed by `Scan.CheckCapturePos`, and stated to be empty squares by `Scan.CapturePosEmpty` |
| Scan.CheckCapturePos | src/board/check.rs:233-291 | `check_capture_pos` reports the hits of its four templates on all 112 lines |
| Scan.AllHitsInBounds | src/board/check.rs:117-127 | everything a scan reports is on the board |
| Scan.LineHitsOfBlankLine | src/board/check.rs:119-125 | a line without stones matches no template that expects one |
| Scan.AllHitsOfBlankLines | src/board/check.rs:117-127 | lines without stones produce no hits |
| Scan.TablesNameStones | src/board/check.rs:77-78 | the tables of the three scanners are well formed, and each template expects a stone |
| Scan.ThreatTableNamesStones | src/board/check.rs:172-181 | every offset of the threat table falls inside its template, and each template expects a stone |
| Scan.BlankBoardScansNothing | src/board/check.rs:117-127 | on a board without stones, no scan reports anything |
| Scan.CapturePosEmpty | src/board/check.rs:240-241 | every capture move `check_capture_pos` reports is an empty square on the board |
| Scan.FiveAlignedCaptureStones | src/board/check.rs:77-78 | every square `five_aligned_capture` reports holds a stone |
| Scan.CaptureRiskStones | src/board/check.rs:77-78 | each offset of those templates lands on a `B` or `W` |
| Scan.ThreatsEmptyExceptFourGapOne | src/board/check.rs:172-181 | every threat is on the board and empty, unless the `WWWW-W` / `BBBB-B` template reported it |
| Scan.ThreatTableGaps | src/board/check.rs:172-181 | every threat template except those two reports a `-` of its pattern |
| Scan.ThreatOnOccupiedSquare | src/board/check.rs:173 | as written, a line containing `WWWW-W` makes `check_threats` report a White stone |
| Align.RecExplo | src/board/check.rs:130-141 | `rec_explo` as written: step along `(dx, dy)` while the next square is on the board and holds `color` and the count is at most 4; what it counts is stated by `Align.RecExploRun` |
| Align.RecExploRun | src/board/check.rs:130-141 | `rec_explo` adds to `acc` the length of the run of `color` it walks, capped at 5, and stops only at the edge, at another square, or at the cap |
| Align.RunCounted | src/board/check.rs:130-141 | every run of stones up to the cap is counted in full |
| Align.FiveAligned | src/board/check.rs:143-153 | `five_aligned` as written: one of the four axes, the forward count from 1 plus the backward count from 0, passes 4; its meaning is stated by `Align.FiveAlignedRow` |
| Align.AxisFiveSound | src/board/check.rs:143-153 | counts on an axis that together pass 4 mean five in a row through the square |
| Align.AxisFiveComplete | src/board/check.rs:143-153 | five in a row through the square makes that axis's counts pass 4 |
| Align.AxisFive | src/board/check.rs:143-153 | one axis passes 4 if and only if a row of five runs through the square on it |
| Align.FiveAlignedRow | src/board/check.rs:143-153 | `five_aligned` holds if and only if a row of five of `color` runs through the square on one of the four axes |
| Align.RowOfFive | src/board/check.rs:147-148 | four stones to the east along the x axis make `five_aligned` true, whatever the square itself holds |
| Align.ClearCells | src/board/check.rs:159-160 | the listed squares become Empty, and every other square and both counters stay |
| Align.CheckAligned | src/board/check.rs:155-164 | true exactly when there are five in a row both before and after the breakable pairs are emptied |
| Align.FiveAlignedOfCleared | src/board/check.rs:155-164 | emptying squares never creates five in a row of a stone colour |
| Align.CheckAlignedMeaning | src/board/check.rs:155-164 | for a stone colour, `check_aligned` is five in a row on the cleared board |
| Align.RowHasEmpty | src/board/check.rs:390 | true if and only if some square of the row prefix is Empty |
| Align.AnyRowHasEmpty | src/board/check.rs:390 | true if and only if some square of the first rows is Empty |
| Align.CheckFullBoard | src/board/check.rs:389-391 | on a grid of any shape, true if and only if no square of any row is Empty; on a 19×19 board, true if and only if no square of the board is Empty |
| FreeThrees.KeptOnBoard | src/board/check.rs:367-382 | around a square on the board, each window's filter keeps exactly the steps that stay on the board |
| FreeThrees.WindowFrom | src/board/check.rs:367-382 | a window holds at most nine characters |
| FreeThrees.Templates | src/board/check.rs:361-365 | four free-three templates of six characters each |
| FreeThrees.MoreThanOneOfFour | src/board/check.rs:383-386 | the count exceeds one if and only if two different windows are flagged |
| FreeThrees.HasFreeThree | src/board/check.rs:383-386 | the filter of the final count: one of the four templates is found in the window; used by `FreeThrees.FreeThreesOnTwoAxes` |
| FreeThrees.CheckFreeThrees | src/board/check.rs:357-387 | `check_free_threes` as written: more than one of the four windows passes the filter; `FreeThrees.FreeThreesOnTwoAxes` states that this means two different axes |
| FreeThrees.FreeThreesOnTwoAxes | src/board/check.rs:357-387 | a move is a double three if and only if two different axes each hold a free three |
| FreeThrees.WindowFromCells | src/board/check.rs:367-382 | when every step stays on the board, the window lists those squares in order |
| FreeThrees.InteriorWindow | src/board/check.rs:367-382 | away from the edges, each window is the nine squares from step -4 to step 4 |
| FreeThrees.FreeThreeHasStones | src/board/check.rs:361-365 | a window holding a free three of a colour holds a stone of that colour |
| Patterns.Instantiate | src/board/check.rs:302-313 | the shapes with `x` replaced by the side's letter, and the scores multiplied by the sign |
| Patterns.DiagFrom | src/board/check.rs:325-338 | a `check_patterns` diagonal is written only with `B`, `W` and `-` |
| Patterns.PatternLines | src/board/check.rs:314-343 | 114 lines, written only with `B`, `W` and `-` |
| Patterns.CaptureHeuristic | src/board/check.rs:344 | 10 captured stones are worth 512, and any other count is worth itself |
| Patterns.Tally | src/board/check.rs:347-352 | the inner fold as written: the sum of the scores of the shapes found in the line; bounded by `Patterns.TallyBetween`, split by `Patterns.TallyAppend` |
| Patterns.LineScore | src/board/check.rs:346-352 | one line's worth: the inner fold over the mover's shapes chained with the opponent's; stated antisymmetric by `Patterns.LineScoreAntisymmetric` and bounded by `Patterns.LineScoreBounded` |
| Patterns.LinesTotal | src/board/check.rs:345-352 | the outer fold as written: the sum of the lines' worth; stated antisymmetric by `Patterns.LinesTotalAntisymmetric` |
| Patterns.CheckPatterns | src/board/check.rs:293-355 | `check_patterns`: the line total plus the mover's capture heuristic minus the opponent's; stated zero-sum by `Patterns.CheckPatternsAntisymmetric` |
| Patterns.TallyAppend | src/board/check.rs:345-352 | the fold over chained lists is the sum of the folds |
| Patterns.TallyNegated | src/board/check.rs:308-313 | negating every score negates the fold |
| Patterns.LineScoreAntisymmetric | src/board/check.rs:345-352 | a line is worth to one side the negation of its worth to the other side |
| Patterns.LinesTotalAntisymmetric | src/board/check.rs:345-352 | the same holds for the sum over the lines |
| Patterns.CheckPatternsAntisymmetric | src/board/check.rs:293-355 | the evaluation is zero-sum between the two colours |
| Patterns.BlackWhiteZeroSum | src/board/check.rs:293-355 | Black's evaluation is the negation of White's |
| Patterns.TableShapesHaveStone | src/board/check.rs:298-301 | every one of the 13 shapes holds an `x` |
| Patterns.TallyOfBlankLine | src/board/check.rs:347-352 | no shape with a stone scores on a line of `-` |
| Patterns.LineScoreOfBlankLine | src/board/check.rs:345-352 | a line without stones is worth 0 |
| Patterns.LinesTotalOfBlankLines | src/board/check.rs:345-352 | lines without stones add up to 0 |
| Patterns.EmptyBoardScoresZero | src/board/check.rs:293-355 | the new board is worth 0 to either side |
| Patterns.DiagBlank | src/board/check.rs:325-338 | on a board without stones every diagonal is all `-` |
| Patterns.TallyBetween | src/board/check.rs:347-352 | each shape counts at most once per line, so the fold lies between the sums of the negative and of the positive scores |
| Patterns.SumsOfInstantiated | src/board/check.rs:302-313 | the opponent's negated table swaps and negates those sums |
| Patterns.TablePrefixSum | src/board/check.rs:298-301 | the running sums of the 13 scores, none negative |
| Patterns.TableSum | src/board/check.rs:298-301 | the scores add up to 1212 |
| Patterns.LineScoreBounded | src/board/check.rs:345-352 | a single line moves the evaluation by at most 1212 either way |
| Boards.Legal | src/board/board.rs:85-91 | a placement `play_at` accepts: on the board, an empty square, and no double free three once the stone is on it; `Boards.PlayAt` states that `Some` comes exactly then |
| Boards.Placed | src/board/board.rs:90-92 | the accepted placement: the stone written, then its captures taken; `Boards.PlacedChanges` states what it changes |
| Boards.PlayAt | src/board/board.rs:81-99 | `Some` if and only if the position is on the board, the square is empty and no double free three results; then the stone is written and its captures taken |
| Boards.PlacedChanges | src/board/board.rs:89-93 | an accepted placement changes the board only at the new stone and at captured opponent stones; the mover gains an even amount and the opponent gains nothing |
| Boards.Keep | src/board/board.rs:103-106 | at most one square per neighbour |
| Boards.SquareSurroundings | src/board/board.rs:101-136 | the eight guarded pushes in the source's order; `Boards.SquareSurroundingsExactly` states that they list exactly the empty neighbours on the board |
| Boards.SquareSurroundingsExactly | src/board/board.rs:101-136 | a square's surroundings are exactly its empty neighbours on the board |
| Boards.SquareSurroundingsSound | src/board/board.rs:101-136 | each listed square is an empty neighbour on the board |
| Boards.SquareSurroundingsComplete | src/board/board.rs:101-136 | each empty neighbour on the board is listed |
| Boards.SquareSurroundingsDistinct | src/board/board.rs:101-136 | no neighbour is listed twice, so there are at most eight |
| Boards.GetSquareSurroundings | src/board/board.rs:101-136 | the eight guarded pushes produce the surroundings in the source's order |
| Boards.PushIfEmpty | src/board/board.rs:103-106 | a square is appended exactly when it is on the board and empty |
| Boards.GetSurroundings | src/board/board.rs:138-145 | the outer fold gathers every row's surroundings in row order |
| Boards.GetRowSurroundings | src/board/board.rs:141-143 | the inner fold gathers the surroundings of the row's stones of `color`, column by column |
| Boards.AddSquareSurroundings | src/board/board.rs:142-143 | a stone of `color` adds its surroundings, and any other square adds nothing |
| Boards.RowSurroundings | src/board/board.rs:141-143 | the inner fold: the surroundings of the row's stones of `color`, column by column; stated by `Boards.RowSurroundingsSound` |
| Boards.Surroundings | src/board/board.rs:138-145 | the outer fold: the rows' surroundings in row order; stated by `Boards.SurroundingsSound` and `Boards.SurroundingsNearStone` |
| Boards.RowSurroundingsSound | src/board/board.rs:141-143 | every square gathered from a row is empty, on the board, and next to a stone of `color` in that row |
| Boards.RowSurroundingsEmpty | src/board/board.rs:141-143 | a row's surroundings are empty squares of the board |
| Boards.SurroundingsSound | src/board/board.rs:138-145 | every square `get_surroundings` returns is an empty square of the board |
| Boards.SurroundingsNearStone | src/board/board.rs:138-145 | every square `get_surroundings` returns is next to a stone of `color` |
| Boards.Dedup | src/board/board.rs:160 | `unique` leaves no repetition, keeps exactly the same elements, and never grows the list |
| Boards.DedupOfNoDup | src/board/board.rs:160 | a list without repetitions is unchanged |
| Boards.DedupIdempotent | src/board/board.rs:160 | removing repetitions twice is removing them once |
| Boards.DedupPrefix | src/board/board.rs:160 | `unique` keeps first occurrences in order, so extending the input extends the output |
| Boards.GetPlays | src/board/board.rs:147-161 | threats first; otherwise capture moves then both sides' surroundings; the centre when all are empty; unique, non-empty, and exactly the threats when there are any |
| Boards.Candidates | src/board/board.rs:147-159 | `get_plays` before `unique`: the threats if any, else the capture moves and both sides' surroundings, else `(9, 9)`; stated by `Boards.CandidatesOnBoard` and `Boards.QuietCandidatesEmpty` |
| Boards.CandidatesOnBoard | src/board/board.rs:147-161 | every candidate move is on the board |
| Boards.QuietCandidatesEmpty | src/board/board.rs:147-161 | without threats, every candidate is an empty square or the centre |
| Boards.BlankBoardSurroundings | src/board/board.rs:138-145 | a board without stones has no surroundings |
| Boards.BlankBoardPlays | src/board/board.rs:147-161 | on a board without stones the only candidate is `(9, 9)` |
| Boards.Evaluation | src/board/board.rs:163-165 | the evaluation for a colour is the negation of the opponent's |
| Minimax.MaxDecision | src/minimax/mod.rs:145 | `cmp::max` under the score-only ordering: one of its arguments, at least as large as both, and the second one on a tie |
| Minimax.MinDecision | src/minimax/mod.rs:177 | `cmp::min`: one of its arguments, at most both, and the first one on a tie |
| Minimax.MaxScore | src/minimax/mod.rs:146 | the larger of the two scores |
| Minimax.MinScore | src/minimax/mod.rs:178 | the smaller of the two scores |
| Minimax.MaxFoldIsBest | src/minimax/mod.rs:137-145 | the `cmp::max` fold of a node's children is the starting decision or one of the children, and scores at least as high as the start and every child |
| Minimax.MinFoldIsBest | src/minimax/mod.rs:171-177 | the `cmp::min` fold of a node's children is the starting decision or one of the children, and scores at most the start and every child |
| Minimax.MaxFoldIn | src/minimax/mod.rs:144-150 | one more searched child keeps the maximizing loop's value: the fold with it, alpha as the best score, every searched child legal, and no cut-off before the last child |
| Minimax.MaxTurn | src/minimax/mod.rs:140-150 | a legal move searched to the end, the next of the list, keeps the maximizing loop's state one move further on, with a cut-off exactly when the new alpha reaches beta |
| Minimax.MaxSkip | src/minimax/mod.rs:139-140 | an illegal move leaves the maximizing loop's state as it was, one move further on |
| Minimax.MaxHalt | src/minimax/mod.rs:140-143 | a legal move whose child timed out halts the maximizing loop on it, with `(0, None)` |
| Minimax.MinFoldIn | src/minimax/mod.rs:176-182 | one more searched child keeps the minimizing loop's value: the fold with it, beta as the best score, every searched child legal, and no cut-off before the last child |
| Minimax.MinTurn | src/minimax/mod.rs:173-182 | a legal move of the opponent searched to the end, the next of the list, keeps the minimizing loop's state one move further on, with a cut-off exactly when the new beta reaches alpha |
| Minimax.MinSkip | src/minimax/mod.rs:172-173 | a move illegal for the opponent leaves the minimizing loop's state as it was, one move further on |
| Minimax.MinHalt | src/minimax/mod.rs:173-176 | a legal move whose child timed out halts the minimizing loop on it, with `(0, None)` |
| Minimax.LegalOf | src/minimax/mod.rs:139-140 | the moves of a list that `play_at` accepts for a colour, in their order; stated by `Minimax.LegalOfLength`, `Minimax.LegalOfMember` and `Minimax.SelectLegal` |
| Minimax.LegalOfLength | src/minimax/mod.rs:139-140 | the legal moves of a list are never more than the list |
| Minimax.LegalOfMember | src/minimax/mod.rs:139-140 | a move is among the legal moves of a list if and only if it is in the list and legal for the colour |
| Minimax.SelectLegal | src/minimax/mod.rs:139-140 | the moves of a prefix of the list whose recorded legality flag is set are exactly that prefix's legal moves, in order |
| Minimax.TrackSkip | src/minimax/mod.rs:139-140 | an illegal move adds only its `false` flag to a loop's bookkeeping |
| Minimax.TrackHalt | src/minimax/mod.rs:140-143 | a legal move whose child timed out adds its `true` flag and becomes the halted move |
| Minimax.TrackTurn | src/minimax/mod.rs:140-144 | a legal move searched to the end adds its `true` flag and its decision joins the searched children |
| Minimax.Kind | src/minimax/mod.rs:155-163 | Lowerbound if and only if the score is at most alpha; Upperbound if and only if it is above alpha and at least beta; Exact if and only if it is strictly inside the window |
| Minimax.Probe | src/minimax/mod.rs:101-117 | a deep enough exact entry settles the node; a cut-off returns the entry's score; otherwise the window only narrows, stays non-empty under a deep entry, and is unchanged without one |
| Minimax.ProbeMovesOneBound | src/minimax/mod.rs:107-112 | a Lowerbound entry only raises alpha, to its score, and an Upperbound entry only lowers beta |
| Minimax.ExactEntryReused | src/minimax/mod.rs:101-129 | a score stored as exact is returned by any later probe at the same or a lower depth |
| Minimax.FailLowEntryInert | src/minimax/mod.rs:101-129 | as written, a fail-low score stored as Lowerbound narrows nothing when probed with its own window |
| Minimax.Slots | src/minimax/mod.rs:54-59 | the occupied killer slots, slot 0 first, at most two |
| Minimax.Searcher.constructor | src/minimax/mod.rs:44-48 | an empty 12×2 killer table and an empty transposition map |
| Minimax.Searcher.AddKillerMove | src/minimax/mod.rs:65-78 | the three cases of the slot update as written (fill slot 1, fill slot 0, or shift slot 0 to slot 1 and write slot 0); only row `d` changes, and the move is afterwards one of that row's killers (`IsKiller`) |
| Minimax.Searcher.GetPlays | src/minimax/mod.rs:50-63 | the killers of the depth, then the board's candidate moves |
| Minimax.Searcher.Store | src/minimax/mod.rs:155-163 | the entry for the board's hash is overwritten with the score, its kind against the given window, and the depth |
| Minimax.Searcher.Minimax | src/minimax/mod.rs:80-202 | timeout returns `(0, None)` with nothing changed; a cut-off from the map returns the stored score with the map unchanged; a leaf is evaluated and stored against the narrowed window; an inner node that answers with a move has stored its score at its depth, as `Lowerbound` when maximizing or at most the narrowed alpha and as `Upperbound` otherwise; a node below the root answers with its own move or with the timeout's `(0, None)`; the root's move is legal; killer rows from `depth` (maximizing) or `depth + 1` (minimizing) up are untouched |
| Minimax.Searcher.ExpandMax | src/minimax/mod.rs:136-169 | unless a child timed out, the answer's score is the `cmp::max` fold (`MaxFold`) of the children searched to the end, its move that fold's move at the root and the node's own move below it, and the map holds that score as a `Lowerbound` at this depth; a timeout answers `(0, None)`; every searched child is a legal move of the list; when it completes, the moves of the searched children are exactly the legal moves among the first `tried` of the list, in order (`LegalOf`), and either the list was exhausted or the last of them cut off, alpha raised to the fold's score reaching beta, with no earlier cut-off; with no legal move the score is `i32::MIN` and only that entry of the map changes |
| Minimax.Searcher.MaxLoop | src/minimax/mod.rs:139-153 | the moves of the children searched to the end, followed by the timed-out move if there is one, are exactly the legal moves among the first `tried` of the list, in their order (`MaxState`, `Tracked`); the loop ends when the list is exhausted, at a timed-out child (a legal move, handed up as `(0, None)`), or at the first cut-off: no earlier child reached beta; unless a child timed out, `v` is the `cmp::max` fold over the searched children and alpha is `max(alpha, v.score)`; a cut-off means alpha reached beta at the last child searched, which was the last move tried, and the best move is a killer at `depth - 1`; every searched child is a legal move of the list; killer rows from `depth` up are untouched |
| Minimax.Searcher.MaxStep | src/minimax/mod.rs:140-152 | an illegal move changes nothing; a timed-out child is handed up as it is; an accepted child (the move itself) is folded in with `cmp::max`, alpha becomes `max(alpha, v.score)`, and `cut` holds exactly when alpha reaches beta, in which case the best move is a killer at `depth - 1`; the move's legality is appended to `flags` and the loop's state (`MaxState`) carries over one move further on, with the move as the halted one after a timeout |
| Minimax.Searcher.MaxAccept | src/minimax/mod.rs:145-150 | the decision is folded in with `cmp::max` and alpha raised to the best score; `cut` holds exactly when alpha reaches beta, and then the best move is a killer at `depth - 1`; without a cut the killer table is unchanged, and no other row ever changes |
| Minimax.Searcher.ExpandMin | src/minimax/mod.rs:170-201 | unless a child timed out, the answer's score is the `cmp::min` fold (`MinFold`) of the children searched to the end, its move that fold's move at the root and the node's own move below it, and the map holds that score at this depth as a `Lowerbound` when it is at most alpha and an `Upperbound` otherwise; a timeout answers `(0, None)`; every searched child is a legal move of the opponent; when it completes, the moves of the searched children are exactly the opponent's legal moves among the first `tried` of the list, in order (`LegalOf`), and either the list was exhausted or the last of them cut off, beta lowered to the fold's score falling to alpha, with no earlier cut-off; with no legal move the score is `i32::MAX` and only that entry of the map changes |
| Minimax.Searcher.MinLoop | src/minimax/mod.rs:172-185 | the moves of the children searched to the end, followed by the timed-out move if there is one, are exactly the opponent's legal moves among the first `tried` of the list, in their order (`MinState`, `Tracked`); the loop ends when the list is exhausted, at a timed-out child (a legal move of the opponent, handed up as `(0, None)`), or at the first cut-off: no earlier child fell to alpha; unless a child timed out, `v` is the `cmp::min` fold over the searched children and beta is `min(beta, v.score)`; a cut-off means beta fell to alpha at the last child searched, which was the last move tried, and the best move is a killer at `depth`; killer rows from `depth + 1` up are untouched |
| Minimax.Searcher.MinStep | src/minimax/mod.rs:173-184 | an illegal move changes nothing; a timed-out child is handed up as it is; an accepted child is folded in with `cmp::min`, beta becomes `min(beta, v.score)`, and `cut` holds exactly when beta falls to alpha, in which case the best move is a killer at `depth`; the move's legality is appended to `flags` and the loop's state (`MinState`) carries over one move further on, with the move as the halted one after a timeout |
| Minimax.Searcher.MinAccept | src/minimax/mod.rs:177-182 | the decision is folded in with `cmp::min` and beta lowered to the best score; `cut` holds exactly when beta falls to alpha, and then the best move is a killer at `depth`; without a cut the killer table is unchanged, and no other row ever changes |
| Minimax.Searcher.Child | src/minimax/mod.rs:140-143 | a child is searched if and only if the move is legal for the side to move (`play_at` returns `Some`); its decision carries that move, or is the timeout's `(0, None)` |
| Minimax.Searcher.GetInputAi | src/game/mod.rs:64-72 | deepening from 1 to 12 plies proposes only legal moves |

## Left out

- The hash of a board, the two-argument `evaluation(&player, &current_color)`
  the search calls, and `is_terminal` are not part of this model. The three
  functions are parameters of `Searcher`. The search reads `board.hash`, but
  the `Board` of `src/board/board.rs` has no such field, so the hash is
  computed by the `hash` parameter. The `Move` type is not part of this model.
- The clock (`PreciseTime`, the 500 ms budget) is an oracle `expired(n)` on
  the number of nodes entered so far. Wall-clock time is not modelled.
- Zobrist hashing and the random table it needs are not part of this model.
  The hash is a parameter.
- Threads, channels and the message passing of the search host are not
  modelled. Neither are `println!` and the graphics modules; `main.rs`,
  `lib.rs` and `board/mod.rs` are not part of this model.
- The capture text (`Black Captures: …`) that `Display` and `Debug` print
  after the grid is not modelled. Only the grid rows are.
- Victory at 10 captures, the rule against playing into a capture, and game
  states (victory, draw) are not in the modelled files, so they are not modelled.
- `unsafe` global state: `KILLER_MOVES` is a field of `Searcher`, not a
  process-wide static, so no data race is modelled.
- Integer widths:
  - scores and windows are modelled as `i32`;
  - capture counters are unbounded naturals, where the source uses `usize`;
  - `check_patterns` is computed on unbounded integers. Its value stays far
    inside `i32`: each of the 114 lines is bounded by 1212 (see
    `Patterns.LineScoreBounded`).
- Several source functions are split into helper methods so that each step has
  its own contract:
  - `PushIfEmpty` and `AddSquareSurroundings`;
  - `TryAxes`, `TryDiagonals` and `TryWindow`;
  - `ScanLine`, `ScanTemplate` and `PushHits`;
  - `ExpandMax`, `MaxLoop`, `MaxStep`, `MaxAccept`, `ExpandMin`, `MinLoop`,
    `MinStep`, `MinAccept` and `Child`.

  The statements and their order are the source's.
- Minimax.MaxDecision / Minimax.MinDecision: assume that `cmp::max` and
  `cmp::min` compare through `Ord::cmp`. For `Decision`, `Ord` is written by
  hand and compares scores only (src/minimax/mod.rs:34-42). Under that
  assumption a tie keeps the second argument for `max` and the first for
  `min`. `Decision` also derives `PartialOrd` (src/minimax/mod.rs:11), which
  compares the score and then `pos`. A standard library whose `cmp::max` and
  `cmp::min` use the `>=` and `<=` operators breaks ties by `pos` instead.
  That variant is not modelled.
- Minimax.Searcher.Minimax: does not relate the returned score to a game-tree
  value. It states the timeout, cut-off, leaf and storage behaviour, and that
  the root's move is legal. The score depends on the history of the session,
  because of the transposition map (with its fail-low entries stored as
  Lowerbound), the killer table and the clock oracle.
- Minimax.Searcher.GetInputAi: states only that the proposed move is legal.
  It does not state that the move is the one found by the deepest iteration
  that finished in time.
