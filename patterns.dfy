/**
 * The evaluator of src/board/check.rs (`check_patterns`): every row, column
 * and diagonal of the grid is searched for thirteen shapes of the mover's
 * stones (adding their score) and of the opponent's (subtracting it), and the
 * two capture counters are added in through a heuristic that makes 10
 * captured stones worth 512.
 */
module Patterns {
  import opened Wrappers
  import opened Squares
  import opened BoardState
  import opened Lines

  /** The thirteen shapes and their scores, in the source's order. */
  const PatternTable: seq<(seq<char>, int)> := [
    ("xxxxx", 512), ("xxxx-", 128), ("-xxxx", 128),
    ("xxx-x", 128), ("x-xxx", 128), ("xx-xx", 128), ("xxx--", 16),
    ("--xxx", 16), ("-xxx-", 16), ("-x-xx", 4), ("xx-x-", 4),
    ("--xx-", 2), ("-xx--", 2)]

  /** `ps` with every `x` of every shape written `c`, and every score multiplied by `sign`. */
  function Instantiate(ps: seq<(seq<char>, int)>, c: char, sign: int): (r: seq<(seq<char>, int)>)
    ensures |r| == |ps|
    ensures forall k :: 0 <= k < |ps| ==> r[k] == (Replace(ps[k].0, c), sign * ps[k].1)
  {
    if ps == [] then []
    else Instantiate(ps[..|ps| - 1], c, sign) + [(Replace(ps[|ps| - 1].0, c), sign * ps[|ps| - 1].1)]
  }

  /** `player_patterns`: the mover's shapes, worth `+score`. */
  function PlayerPatterns(color: Square): seq<(seq<char>, int)>
  {
    Instantiate(PatternTable, StoneLetter(color), 1)
  }

  /** `opponent_patterns`: the opponent's shapes, worth `-score`. */
  function OpponentPatterns(color: Square): seq<(seq<char>, int)>
  {
    Instantiate(PatternTable, StoneLetter(Opposite(color)), -1)
  }

  // ---------------------------------------------------------------------------
  // The 114 lines of check_patterns
  // ---------------------------------------------------------------------------

  /** The two diagonal families of `check_patterns`, each indexed by `i` in `0..38`. */
  datatype Slope = Up | Down

  /** The first coordinate of the square at column `j` of diagonal `i`. */
  function DiagRow(slope: Slope, i: int, j: int): int
  {
    match slope
    case Up => (i - 19) + j
    case Down => i - j
  }

  /** Diagonal `i` from column `j` on: the columns whose row is on the board, `Empty` written `-`. */
  function DiagFrom(b: Board, slope: Slope, i: int, j: nat): (s: seq<char>)
    requires Valid(b) && j <= Size
    ensures forall k :: 0 <= k < |s| ==> s[k] in "BW-"
    decreases Size - j
  {
    if j == Size then []
    else if DiagRow(slope, i, j) < 19 && DiagRow(slope, i, j) >= 0 then
      [ToChar(At(b, DiagRow(slope, i, j), j), '-')] + DiagFrom(b, slope, i, j + 1)
    else DiagFrom(b, slope, i, j + 1)
  }

  /** `vert`, `hor`, `diagup` and `diagdown`, concatenated as the source appends them. */
  function PatternLines(b: Board): (t: seq<seq<char>>)
    requires Valid(b)
    ensures |t| == 114
    ensures forall q, k :: 0 <= q < |t| && 0 <= k < |t[q]| ==> t[q][k] in "BW-"
  {
    seq(19, i requires 0 <= i < 19 => seq(19, j requires 0 <= j < 19 => ToChar(At(b, i, j), '-')))
    + seq(19, i requires 0 <= i < 19 => seq(19, j requires 0 <= j < 19 => ToChar(At(b, j, i), '-')))
    + seq(38, i requires 0 <= i < 38 => DiagFrom(b, Up, i, 0))
    + seq(38, i requires 0 <= i < 38 => DiagFrom(b, Down, i, 0))
  }

  // ---------------------------------------------------------------------------
  // Scoring
  // ---------------------------------------------------------------------------

  /** The inner fold: the scores of the shapes of `ps` that occur in `s`, each counted once. */
  function Tally(s: seq<char>, ps: seq<(seq<char>, int)>): int
  {
    if ps == [] then 0
    else
      var last := ps[|ps| - 1];
      Tally(s, ps[..|ps| - 1]) + (if Find(s, last.0).Some? then last.1 else 0)
  }

  /** What one line is worth to `color`: its own shapes (`+score`) chained with the opponent's (`-score`). */
  function LineScore(s: seq<char>, color: Square): int
  {
    Tally(s, PlayerPatterns(color) + OpponentPatterns(color))
  }

  /** The outer fold over the first `n` lines. */
  function LinesTotal(t: seq<seq<char>>, color: Square, n: nat): int
    requires n <= |t|
  {
    if n == 0 then 0 else LinesTotal(t, color, n - 1) + LineScore(t[n - 1], color)
  }

  /** `capture_heuristic`: ten captured stones (the winning count) are worth 512. */
  function CaptureHeuristic(x: int): (h: int)
    ensures x == 10 ==> h == 512
    ensures x != 10 ==> h == x
  {
    if x == 10 then 512 else x
  }

  /** `check_patterns`: the line total plus the mover's capture heuristic minus the opponent's. */
  function CheckPatterns(b: Board, color: Square): int
    requires Valid(b)
  {
    var t := PatternLines(b);
    LinesTotal(t, color, |t|) + CaptureHeuristic(GetScore(b, color)) - CaptureHeuristic(GetScore(b, Opposite(color)))
  }

  // ---------------------------------------------------------------------------
  // Properties
  // ---------------------------------------------------------------------------

  /** The fold over a concatenation is the sum of the folds. */
  lemma {:induction false} TallyAppend(s: seq<char>, ps: seq<(seq<char>, int)>, qs: seq<(seq<char>, int)>)
    ensures Tally(s, ps + qs) == Tally(s, ps) + Tally(s, qs)
    decreases |qs|
  {
    if qs == [] {
      assert ps + qs == ps;
    } else {
      assert (ps + qs)[..|ps + qs| - 1] == ps + qs[..|qs| - 1];
      TallyAppend(s, ps, qs[..|qs| - 1]);
    }
  }

  /** The last entry of an instantiated list is the instantiated last entry. */
  lemma InstantiatePrefix(ps: seq<(seq<char>, int)>, c: char, sign: int)
    requires ps != []
    ensures Instantiate(ps, c, sign)[..|ps| - 1] == Instantiate(ps[..|ps| - 1], c, sign)
  {
  }

  /** Negating every score negates the fold. */
  lemma {:induction false} TallyNegated(s: seq<char>, ps: seq<(seq<char>, int)>, c: char)
    ensures Tally(s, Instantiate(ps, c, -1)) == -Tally(s, Instantiate(ps, c, 1))
    decreases |ps|
  {
    if ps != [] {
      InstantiatePrefix(ps, c, -1);
      InstantiatePrefix(ps, c, 1);
      TallyNegated(s, ps[..|ps| - 1], c);
    }
  }

  /** A line is worth to a side exactly the opposite of what it is worth to the other side. */
  lemma LineScoreAntisymmetric(s: seq<char>, color: Square)
    ensures LineScore(s, color) == -LineScore(s, Opposite(color))
  {
    OppositeInvolution(color);
    TallyAppend(s, PlayerPatterns(color), OpponentPatterns(color));
    TallyAppend(s, PlayerPatterns(Opposite(color)), OpponentPatterns(Opposite(color)));
    TallyNegated(s, PatternTable, StoneLetter(color));
    TallyNegated(s, PatternTable, StoneLetter(Opposite(color)));
  }

  lemma {:induction false} LinesTotalAntisymmetric(t: seq<seq<char>>, color: Square, n: nat)
    requires n <= |t|
    ensures LinesTotal(t, color, n) == -LinesTotal(t, Opposite(color), n)
  {
    if n > 0 {
      LinesTotalAntisymmetric(t, color, n - 1);
      LineScoreAntisymmetric(t[n - 1], color);
    }
  }

  /** The evaluation is zero-sum: what a position is worth to one side, it costs the other. */
  lemma CheckPatternsAntisymmetric(b: Board, color: Square)
    requires Valid(b)
    ensures CheckPatterns(b, color) == -CheckPatterns(b, Opposite(color))
  {
    OppositeInvolution(color);
    LinesTotalAntisymmetric(PatternLines(b), color, 114);
  }

  /** In particular Black's evaluation is the negation of White's. */
  lemma BlackWhiteZeroSum(b: Board)
    requires Valid(b)
    ensures CheckPatterns(b, Black) == -CheckPatterns(b, White)
  {
    CheckPatternsAntisymmetric(b, Black);
  }

  /** Every shape of the table holds at least one `x`. */
  lemma TableShapesHaveStone()
    ensures forall k :: 0 <= k < |PatternTable| ==> 'x' in PatternTable[k].0
  {
  }

  /** On a line made only of `-`, no shape holding an `x` written as a letter other than `-` occurs. */
  lemma {:induction false} TallyOfBlankLine(s: seq<char>, ps: seq<(seq<char>, int)>, c: char, sign: int)
    requires forall k :: 0 <= k < |s| ==> s[k] == '-'
    requires c != '-' && forall k :: 0 <= k < |ps| ==> 'x' in ps[k].0
    ensures Tally(s, Instantiate(ps, c, sign)) == 0
    decreases |ps|
  {
    if ps != [] {
      var last := ps[|ps| - 1];
      InstantiatePrefix(ps, c, sign);
      TallyOfBlankLine(s, ps[..|ps| - 1], c, sign);
      var m :| 0 <= m < |last.0| && last.0[m] == 'x';
      NotFoundWithoutChar(s, Replace(last.0, c), m);
    }
  }

  lemma LineScoreOfBlankLine(s: seq<char>, color: Square)
    requires forall k :: 0 <= k < |s| ==> s[k] == '-'
    ensures LineScore(s, color) == 0
  {
    TableShapesHaveStone();
    TallyAppend(s, PlayerPatterns(color), OpponentPatterns(color));
    TallyOfBlankLine(s, PatternTable, StoneLetter(color), 1);
    TallyOfBlankLine(s, PatternTable, StoneLetter(Opposite(color)), -1);
  }

  lemma {:induction false} LinesTotalOfBlankLines(t: seq<seq<char>>, color: Square, n: nat)
    requires n <= |t| && forall q, k :: 0 <= q < |t| && 0 <= k < |t[q]| ==> t[q][k] == '-'
    ensures LinesTotal(t, color, n) == 0
  {
    if n > 0 {
      LinesTotalOfBlankLines(t, color, n - 1);
      LineScoreOfBlankLine(t[n - 1], color);
    }
  }

  /** The empty board (no stone, no capture) is worth 0 to either side. */
  lemma EmptyBoardScoresZero(color: Square)
    ensures CheckPatterns(New(), color) == 0
  {
    var b := New();
    var t := PatternLines(b);
    forall q, k | 0 <= q < |t| && 0 <= k < |t[q]| ensures t[q][k] == '-' {
      assert t[q][k] in "BW-";
      if q < 38 {
      } else {
        DiagBlank(b, if q < 76 then Up else Down, if q < 76 then q - 38 else q - 76, 0);
      }
    }
    LinesTotalOfBlankLines(t, color, |t|);
  }

  /** On a board with no stone every diagonal is made of `-`. */
  lemma {:induction false} DiagBlank(b: Board, slope: Slope, i: int, j: nat)
    requires Valid(b) && j <= Size
    requires forall x, y :: InBounds(x, y) ==> At(b, x, y) == Empty
    ensures forall k :: 0 <= k < |DiagFrom(b, slope, i, j)| ==> DiagFrom(b, slope, i, j)[k] == '-'
    decreases Size - j
  {
    if j < Size {
      DiagBlank(b, slope, i, j + 1);
    }
  }

  /** The highest sum of the scores, when every shape with a positive score occurs. */
  function PositiveSum(ps: seq<(seq<char>, int)>): int
  {
    if ps == [] then 0 else PositiveSum(ps[..|ps| - 1]) + Max(0, ps[|ps| - 1].1)
  }

  /** The lowest sum, when every shape with a negative score occurs. */
  function NegativeSum(ps: seq<(seq<char>, int)>): int
  {
    if ps == [] then 0 else NegativeSum(ps[..|ps| - 1]) + Min(0, ps[|ps| - 1].1)
  }

  /** Each shape counts at most once on a line, so the fold lies between the two sums. */
  lemma {:induction false} TallyBetween(s: seq<char>, ps: seq<(seq<char>, int)>)
    ensures NegativeSum(ps) <= Tally(s, ps) <= PositiveSum(ps)
    decreases |ps|
  {
    if ps != [] {
      TallyBetween(s, ps[..|ps| - 1]);
    }
  }

  /** Instantiating keeps the sums, and negating the scores swaps and negates them. */
  lemma {:induction false} SumsOfInstantiated(ps: seq<(seq<char>, int)>, c: char)
    ensures PositiveSum(Instantiate(ps, c, 1)) == PositiveSum(ps)
    ensures NegativeSum(Instantiate(ps, c, 1)) == NegativeSum(ps)
    ensures PositiveSum(Instantiate(ps, c, -1)) == -NegativeSum(ps)
    ensures NegativeSum(Instantiate(ps, c, -1)) == -PositiveSum(ps)
    decreases |ps|
  {
    if ps != [] {
      InstantiatePrefix(ps, c, 1);
      InstantiatePrefix(ps, c, -1);
      SumsOfInstantiated(ps[..|ps| - 1], c);
    }
  }

  /** The running sums of the table's scores; none of them is negative. */
  lemma {:induction false} TablePrefixSum(n: nat)
    requires n <= |PatternTable|
    ensures PositiveSum(PatternTable[..n]) ==
      [0, 512, 640, 768, 896, 1024, 1152, 1168, 1184, 1200, 1204, 1208, 1210, 1212][n]
    ensures NegativeSum(PatternTable[..n]) == 0
  {
    if n > 0 {
      assert PatternTable[..n][..n - 1] == PatternTable[..n - 1];
      TablePrefixSum(n - 1);
    }
  }

  /** The thirteen scores add up to 1212. */
  lemma TableSum()
    ensures PositiveSum(PatternTable) == 1212 && NegativeSum(PatternTable) == 0
  {
    TablePrefixSum(|PatternTable|);
    assert PatternTable[..|PatternTable|] == PatternTable;
  }

  /** A single line moves the evaluation by at most 1212 either way. */
  lemma LineScoreBounded(s: seq<char>, color: Square)
    ensures -1212 <= LineScore(s, color) <= 1212
  {
    TallyAppend(s, PlayerPatterns(color), OpponentPatterns(color));
    TallyBetween(s, PlayerPatterns(color));
    TallyBetween(s, OpponentPatterns(color));
    SumsOfInstantiated(PatternTable, StoneLetter(color));
    SumsOfInstantiated(PatternTable, StoneLetter(Opposite(color)));
    TableSum();
  }
}
