/**
 * Bracket capture (`check_capture` in src/board/check.rs): after a stone of
 * `color` lands on `(x, y)`, every direction whose bound guard holds and whose
 * four-square window reads `color, opponent, opponent, color` loses its two
 * middle stones, and the mover's counter grows by two for each such window.
 */
module Capture {
  import opened Squares
  import opened BoardState

  /**
   * The eight directions in the order the source tries them, under the names
   * its comments give: East, West, South, North, North-East, North-West,
   * South-East, South-West.
   */
  const Directions: seq<(int, int)> := [(1, 0), (-1, 0), (0, 1), (0, -1), (1, 1), (1, -1), (-1, 1), (-1, -1)]

  /** Direction `k`, a step of at most one square on each axis. */
  function Direction(k: nat): (d: (int, int))
    requires k < |Directions|
    ensures -1 <= d.0 <= 1 && -1 <= d.1 <= 1 && d != (0, 0)
  {
    Directions[k]
  }

  /**
   * The bound test in front of each direction, as written: `x + 4 < 19` when
   * the window grows in x and `x >= 4` when it shrinks, the same for y. The
   * window itself only reaches three squares away.
   */
  predicate Guard(x: int, y: int, d: (int, int))
  {
    (d.0 == 1 ==> x + 4 < Size) && (d.0 == -1 ==> x >= 4) &&
    (d.1 == 1 ==> y + 4 < Size) && (d.1 == -1 ==> y >= 4)
  }

  /** Direction `k` is tried and its window reads `color, opponent, opponent, color` in `b`. */
  predicate Brackets(b: Board, color: Square, x: int, y: int, k: nat)
    requires Valid(b) && InBounds(x, y) && k < |Directions|
  {
    var d := Direction(k);
    Guard(x, y, d)
    && At(b, x, y) == color
    && At(b, x + d.0, y + d.1) == Opposite(color)
    && At(b, x + 2 * d.0, y + 2 * d.1) == Opposite(color)
    && At(b, x + 3 * d.0, y + 3 * d.1) == color
  }

  /** `(i, j)` is one of the two middle squares of the window of direction `k`. */
  predicate Middle(x: int, y: int, k: nat, i: int, j: int)
    requires k < |Directions|
  {
    var d := Direction(k);
    (i == x + d.0 && j == y + d.1) || (i == x + 2 * d.0 && j == y + 2 * d.1)
  }

  /** `(i, j)` is a middle square of a bracket among the first `n` directions. */
  predicate CapturedBy(b: Board, color: Square, x: int, y: int, n: nat, i: int, j: int)
    requires Valid(b) && InBounds(x, y) && n <= |Directions|
  {
    n > 0 && (CapturedBy(b, color, x, y, n - 1, i, j) || (Brackets(b, color, x, y, n - 1) && Middle(x, y, n - 1, i, j)))
  }

  /** How many of the first `n` directions bracket. */
  function MatchCount(b: Board, color: Square, x: int, y: int, n: nat): (m: nat)
    requires Valid(b) && InBounds(x, y) && n <= |Directions|
    ensures m <= n
  {
    if n == 0 then 0
    else MatchCount(b, color, x, y, n - 1) + (if Brackets(b, color, x, y, n - 1) then 1 else 0)
  }

  /**
   * What `check_capture` computes: every middle square of a bracket emptied,
   * two captured stones credited to the mover per bracket, nothing else touched.
   */
  function CaptureResult(b: Board, color: Square, x: int, y: int): (r: Board)
    requires Valid(b) && InBounds(x, y)
    ensures Valid(r)
    ensures forall i, j :: InBounds(i, j) ==>
      At(r, i, j) == if CapturedBy(b, color, x, y, |Directions|, i, j) then Empty else At(b, i, j)
    ensures r.bCapture == b.bCapture + (if color == Black then 2 * MatchCount(b, color, x, y, |Directions|) else 0)
    ensures r.wCapture == b.wCapture + (if color == White then 2 * MatchCount(b, color, x, y, |Directions|) else 0)
  {
    var m := MatchCount(b, color, x, y, |Directions|);
    Board(seq(Size, i requires 0 <= i < Size =>
            seq(Size, j requires 0 <= j < Size =>
              if CapturedBy(b, color, x, y, |Directions|, i, j) then Empty else b.state[i][j])),
          b.bCapture + (if color == Black then 2 * m else 0),
          b.wCapture + (if color == White then 2 * m else 0))
  }

  /** The state reached after the source has tried its first `n` directions. */
  ghost predicate Partial(b: Board, board: Board, color: Square, x: int, y: int, n: nat)
    requires Valid(b) && InBounds(x, y) && n <= |Directions|
  {
    && Valid(board)
    && (forall i, j :: InBounds(i, j) ==>
          At(board, i, j) == if CapturedBy(b, color, x, y, n, i, j) then Empty else At(b, i, j))
    && board.bCapture == b.bCapture + (if color == Black then 2 * MatchCount(b, color, x, y, n) else 0)
    && board.wCapture == b.wCapture + (if color == White then 2 * MatchCount(b, color, x, y, n) else 0)
  }

  /**
   * The closure `capture` on the window of direction `k`: the window is read
   * from `b`, the clone being built is `board`.
   */
  method CaptureWindow(b: Board, board: Board, color: Square, x: int, y: int, k: nat) returns (next: Board)
    requires Valid(b) && InBounds(x, y) && k < |Directions| && Guard(x, y, Direction(k))
    requires Partial(b, board, color, x, y, k)
    ensures Partial(b, next, color, x, y, k + 1)
  {
    next := board;
    var d := Direction(k);
    var hit := Brackets(b, color, x, y, k);
    if hit {
      var first := Put(board, x + d.0, y + d.1, Empty);
      var second := Put(first, x + 2 * d.0, y + 2 * d.1, Empty);
      next := second.(bCapture := second.bCapture + (if color == Black then 2 else 0),
                      wCapture := second.wCapture + (if color == White then 2 else 0));
      forall i, j | InBounds(i, j)
        ensures At(next, i, j) == if Middle(x, y, k, i, j) then Empty else At(board, i, j)
      {
        assert At(next, i, j) == At(second, i, j);
      }
    }
    WindowStep(b, board, next, color, x, y, k, hit);
  }

  /** One window tried: `next` is `board` with the window's middle emptied and credited when it brackets. */
  lemma WindowStep(b: Board, board: Board, next: Board, color: Square, x: int, y: int, k: nat, hit: bool)
    requires Valid(b) && InBounds(x, y) && k < |Directions| && Partial(b, board, color, x, y, k)
    requires hit == Brackets(b, color, x, y, k) && Valid(next)
    requires forall i, j :: InBounds(i, j) ==>
      At(next, i, j) == if hit && Middle(x, y, k, i, j) then Empty else At(board, i, j)
    requires next.bCapture == board.bCapture + (if hit && color == Black then 2 else 0)
    requires next.wCapture == board.wCapture + (if hit && color == White then 2 else 0)
    ensures Partial(b, next, color, x, y, k + 1)
  {
    forall i, j | InBounds(i, j)
      ensures At(next, i, j) == if CapturedBy(b, color, x, y, k + 1, i, j) then Empty else At(b, i, j)
    {
      assert CapturedBy(b, color, x, y, k + 1, i, j) ==
        (CapturedBy(b, color, x, y, k, i, j) || (hit && Middle(x, y, k, i, j)));
    }
    assert MatchCount(b, color, x, y, k + 1) == MatchCount(b, color, x, y, k) + (if hit then 1 else 0);
  }

  /** A direction whose guard fails is not tried, and changes nothing. */
  lemma SkipWindow(b: Board, board: Board, color: Square, x: int, y: int, k: nat)
    requires Valid(b) && InBounds(x, y) && k < |Directions| && !Guard(x, y, Direction(k))
    requires Partial(b, board, color, x, y, k)
    ensures Partial(b, board, color, x, y, k + 1)
  {
    forall i, j | InBounds(i, j)
      ensures CapturedBy(b, color, x, y, k + 1, i, j) == CapturedBy(b, color, x, y, k, i, j)
    {
    }
  }

  /** Two valid boards with the same squares and counters are the same board. */
  lemma BoardsEqual(a: Board, c: Board)
    requires Valid(a) && Valid(c) && a.bCapture == c.bCapture && a.wCapture == c.wCapture
    requires forall i, j :: InBounds(i, j) ==> At(a, i, j) == At(c, i, j)
    ensures a == c
  {
    forall i | 0 <= i < Size ensures a.state[i] == c.state[i] {
      assert forall j :: 0 <= j < Size ==> a.state[i][j] == At(a, i, j);
    }
  }

  /**
   * `check_capture`: a clone of `b` on which the eight guarded windows around
   * `(x, y)` are tried in the source's order, the four along the axes first.
   */
  method CheckCapture(b: Board, color: Square, x: nat, y: nat) returns (board: Board)
    requires Valid(b) && InBounds(x, y)
    ensures board == CaptureResult(b, color, x, y)
  {
    board := TryAxes(b, color, x, y);
    board := TryDiagonals(b, board, color, x, y);
    AllWindowsTried(b, board, color, x, y);
  }

  /** East, West, South and North, tried on a fresh clone of `b`. */
  method TryAxes(b: Board, color: Square, x: nat, y: nat) returns (board: Board)
    requires Valid(b) && InBounds(x, y)
    ensures Partial(b, board, color, x, y, 4)
  {
    board := b;
    var k: nat := 0;  // index into Directions of the window being tried
    // East
    board := TryWindow(b, board, color, x, y, k, x + 4 < Size);
    k := k + 1;
    // West
    board := TryWindow(b, board, color, x, y, k, x >= 4);
    k := k + 1;
    // South
    board := TryWindow(b, board, color, x, y, k, y + 4 < Size);
    k := k + 1;
    // North
    assert k + 1 == 4;
    board := TryWindow(b, board, color, x, y, k, y >= 4);
  }

  /** North-East, North-West, South-East and South-West, after the axes. */
  method TryDiagonals(b: Board, board: Board, color: Square, x: nat, y: nat) returns (next: Board)
    requires Valid(b) && InBounds(x, y)
    requires Partial(b, board, color, x, y, 4)
    ensures Partial(b, next, color, x, y, |Directions|)
  {
    next := board;
    var k: nat := 4;  // index into Directions of the window being tried
    // North-East
    next := TryWindow(b, next, color, x, y, k, x + 4 < Size && y + 4 < Size);
    k := k + 1;
    // North-West
    next := TryWindow(b, next, color, x, y, k, x + 4 < Size && y >= 4);
    k := k + 1;
    // South-East
    next := TryWindow(b, next, color, x, y, k, x >= 4 && y + 4 < Size);
    k := k + 1;
    // South-West
    assert k + 1 == |Directions|;
    next := TryWindow(b, next, color, x, y, k, x >= 4 && y >= 4);
  }

  /** One guarded call of the closure: the window of direction `k` is tried when `guard` holds. */
  method TryWindow(b: Board, board: Board, color: Square, x: int, y: int, k: nat, guard: bool) returns (next: Board)
    requires Valid(b) && InBounds(x, y) && k < |Directions| && guard == Guard(x, y, Direction(k))
    requires Partial(b, board, color, x, y, k)
    ensures Partial(b, next, color, x, y, k + 1)
  {
    if guard {
      next := CaptureWindow(b, board, color, x, y, k);
    } else {
      next := board;
      SkipWindow(b, board, color, x, y, k);
    }
  }

  /** Once all eight directions are tried, the clone is the capture's result. */
  lemma AllWindowsTried(b: Board, board: Board, color: Square, x: int, y: int)
    requires Valid(b) && InBounds(x, y) && Partial(b, board, color, x, y, |Directions|)
    ensures board == CaptureResult(b, color, x, y)
  {
    BoardsEqual(board, CaptureResult(b, color, x, y));
  }

  // ---------------------------------------------------------------------------
  // Properties of a capture
  // ---------------------------------------------------------------------------

  /** Only opponent stones are ever removed: a captured square held `Opposite(color)`. */
  lemma {:induction false} CapturedWasOpponent(b: Board, color: Square, x: int, y: int, n: nat, i: int, j: int)
    requires Valid(b) && InBounds(x, y) && n <= |Directions| && InBounds(i, j)
    requires CapturedBy(b, color, x, y, n, i, j)
    ensures At(b, i, j) == Opposite(color)
  {
    if CapturedBy(b, color, x, y, n - 1, i, j) {
      CapturedWasOpponent(b, color, x, y, n - 1, i, j);
    }
  }

  /** The placed stone is never a middle square, so it survives its own captures. */
  lemma {:induction false} OriginNeverCaptured(b: Board, color: Square, x: int, y: int, n: nat)
    requires Valid(b) && InBounds(x, y) && n <= |Directions|
    ensures !CapturedBy(b, color, x, y, n, x, y)
  {
    if n > 0 {
      OriginNeverCaptured(b, color, x, y, n - 1);
    }
  }

  /**
   * A capture changes `(i, j)` only by emptying an opponent stone, and it
   * empties every middle square of every bracketing window.
   */
  lemma CaptureCells(b: Board, color: Square, x: int, y: int)
    requires Valid(b) && InBounds(x, y)
    ensures var r := CaptureResult(b, color, x, y);
      At(r, x, y) == At(b, x, y) &&
      forall i, j :: InBounds(i, j) && At(r, i, j) != At(b, i, j) ==>
        At(b, i, j) == Opposite(color) && At(r, i, j) == Empty
  {
    OriginNeverCaptured(b, color, x, y, |Directions|);
    forall i, j | InBounds(i, j) && At(CaptureResult(b, color, x, y), i, j) != At(b, i, j)
      ensures At(b, i, j) == Opposite(color)
    {
      CapturedWasOpponent(b, color, x, y, |Directions|, i, j);
    }
  }

  /** Each bracket adds exactly two to the mover's score and nothing to the opponent's. */
  lemma CaptureScores(b: Board, color: Square, x: int, y: int)
    requires Valid(b) && InBounds(x, y) && color != Empty
    ensures var r := CaptureResult(b, color, x, y);
      && GetScore(r, color) == GetScore(b, color) + 2 * MatchCount(b, color, x, y, |Directions|)
      && GetScore(r, Opposite(color)) == GetScore(b, Opposite(color))
      && GetScore(r, color) <= GetScore(b, color) + 16
  {
    var m := MatchCount(b, color, x, y, |Directions|);
    var r := CaptureResult(b, color, x, y);
    assert m <= 8;
    if color == Black {
      assert r.bCapture == b.bCapture + 2 * m && r.wCapture == b.wCapture;
    } else {
      assert r.wCapture == b.wCapture + 2 * m && r.bCapture == b.bCapture;
    }
  }

  /** Captures come in pairs: even counters stay even. */
  lemma CaptureKeepsParity(b: Board, color: Square, x: int, y: int)
    requires Valid(b) && InBounds(x, y) && b.bCapture % 2 == 0 && b.wCapture % 2 == 0
    ensures var r := CaptureResult(b, color, x, y);
      r.bCapture % 2 == 0 && r.wCapture % 2 == 0
  {
    var m := MatchCount(b, color, x, y, |Directions|);
    var r := CaptureResult(b, color, x, y);
    assert r.bCapture == b.bCapture + (if color == Black then 2 * m else 0);
    assert r.wCapture == b.wCapture + (if color == White then 2 * m else 0);
  }

  /**
   * Black closing `B W W B` along a row by playing its right end at column 4
   * takes both White stones and scores two.
   */
  lemma CaptureAlongRow(b: Board, y: nat)
    requires Valid(b) && y < Size
    requires At(b, 1, y) == Black && At(b, 2, y) == White && At(b, 3, y) == White && At(b, 4, y) == Black
    ensures var r := CaptureResult(b, Black, 4, y);
      At(r, 2, y) == Empty && At(r, 3, y) == Empty && At(r, 4, y) == Black && r.bCapture >= b.bCapture + 2
  {
    assert Brackets(b, Black, 4, y, 1);
    assert CapturedBy(b, Black, 4, y, 2, 2, y) && CapturedBy(b, Black, 4, y, 2, 3, y);
    OriginNeverCaptured(b, Black, 4, y, |Directions|);
    assert MatchCount(b, Black, 4, y, 2) >= 1;
    MatchCountGrows(b, Black, 4, y, 2, |Directions|);
    CapturedGrows(b, Black, 4, y, 2, |Directions|, 2, y);
    CapturedGrows(b, Black, 4, y, 2, |Directions|, 3, y);
  }

  /**
   * The bound guards as written: the same bracket one column further left,
   * against the edge, is not tried (`x >= 4` fails at column 3), and the
   * two White stones stay.
   */
  lemma EdgeBracketIgnored(b: Board, y: nat)
    requires Valid(b) && y < Size
    requires At(b, 0, y) == Black && At(b, 1, y) == White && At(b, 2, y) == White && At(b, 3, y) == Black
    ensures var r := CaptureResult(b, Black, 3, y);
      At(r, 1, y) == White && At(r, 2, y) == White
  {
    NotOnRowWest(b, 3, y, |Directions|);
  }

  /** From column 3, no tried window has a middle square at `(1, y)` or `(2, y)`. */
  lemma {:induction false} NotOnRowWest(b: Board, x: nat, y: nat, n: nat)
    requires Valid(b) && x == 3 && y < Size && n <= |Directions|
    ensures !CapturedBy(b, Black, x, y, n, 1, y) && !CapturedBy(b, Black, x, y, n, 2, y)
  {
    if n > 0 {
      NotOnRowWest(b, x, y, n - 1);
    }
  }

  lemma {:induction false} MatchCountGrows(b: Board, color: Square, x: int, y: int, n: nat, m: nat)
    requires Valid(b) && InBounds(x, y) && n <= m <= |Directions|
    ensures MatchCount(b, color, x, y, n) <= MatchCount(b, color, x, y, m)
    decreases m - n
  {
    if n < m {
      MatchCountGrows(b, color, x, y, n, m - 1);
    }
  }

  lemma {:induction false} CapturedGrows(b: Board, color: Square, x: int, y: int, n: nat, m: nat, i: int, j: int)
    requires Valid(b) && InBounds(x, y) && n <= m <= |Directions|
    requires CapturedBy(b, color, x, y, n, i, j)
    ensures CapturedBy(b, color, x, y, m, i, j)
    decreases m - n
  {
    if n < m {
      CapturedGrows(b, color, x, y, n, m - 1, i, j);
    }
  }
}
