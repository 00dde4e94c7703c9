/**
 * The end-of-game tests of src/board/check.rs: five in a row counted outward
 * from a square (`rec_explo`, `five_aligned`), the re-check that the row
 * survives once every breakable pair is lifted (`check_aligned`), and the
 * full-board test (`check_full_board`).
 */
module Align {
  import opened Squares
  import opened BoardState
  import opened Scan

  /** The `t` squares after `(x, y)` along `(dx, dy)` are on the board and hold `color`. */
  predicate Stones(b: Board, color: Square, x: int, y: int, dx: int, dy: int, t: nat)
    requires Valid(b)
    decreases t
  {
    t == 0 ||
    (InBounds(x + dx, y + dy) && At(b, x + dx, y + dy) == color
     && Stones(b, color, x + dx, y + dy, dx, dy, t - 1))
  }

  /** A run of `t` stones contains every shorter run from the same start. */
  lemma {:induction false} StonesPrefix(b: Board, color: Square, x: int, y: int, dx: int, dy: int, s: nat, t: nat)
    requires Valid(b) && s <= t && Stones(b, color, x, y, dx, dy, t)
    ensures Stones(b, color, x, y, dx, dy, s)
    decreases s
  {
    if s > 0 {
      StonesPrefix(b, color, x + dx, y + dy, dx, dy, s - 1, t - 1);
    }
  }

  /**
   * `rec_explo`: starting from `acc`, count the squares of `color` after
   * `(x, y)` along `(dx, dy)`, stopping at the edge, at the first other
   * square, or once the count passes 4.
   */
  function RecExplo(b: Board, color: Square, x: int, y: int, dx: int, dy: int, acc: int): int
    requires Valid(b)
    decreases 5 - acc
  {
    if acc > 4 || x + dx > 18 || y + dy > 18 || x + dx < 0 || y + dy < 0
       || At(b, x + dx, y + dy) != color
    then acc
    else RecExplo(b, color, x + dx, y + dy, dx, dy, acc + 1)
  }

  /**
   * What `rec_explo` counts: the result is `acc` plus the length of the run
   * of `color` after `(x, y)`, it lies in `[acc, 5]` when `acc <= 5`, and the
   * run cannot be longer unless the count reached 5.
   */
  lemma {:induction false} RecExploRun(b: Board, color: Square, x: int, y: int, dx: int, dy: int, acc: int)
    requires Valid(b)
    decreases 5 - acc
    ensures var r := RecExplo(b, color, x, y, dx, dy, acc);
      && acc <= r && (acc <= 5 ==> r <= 5) && (acc > 4 ==> r == acc)
      && Stones(b, color, x, y, dx, dy, r - acc)
      && (r <= 4 ==> !Stones(b, color, x, y, dx, dy, r - acc + 1))
  {
    if acc > 4 || x + dx > 18 || y + dy > 18 || x + dx < 0 || y + dy < 0
       || At(b, x + dx, y + dy) != color
    {
    } else {
      RecExploRun(b, color, x + dx, y + dy, dx, dy, acc + 1);
    }
  }

  /**
   * `five_aligned`: on one of the four axes, the count forward (starting at
   * 1 for the square itself) plus the count backward (starting at 0) passes 4.
   * The square `pos` itself is counted whatever it holds.
   */
  function FiveAligned(b: Board, pos: Pos, color: Square): bool
    requires Valid(b)
  {
    var (x, y) := pos;
    (RecExplo(b, color, x, y, 1, 1, 1) + RecExplo(b, color, x, y, -1, -1, 0)) > 4
    || (RecExplo(b, color, x, y, 1, 0, 1) + RecExplo(b, color, x, y, -1, 0, 0)) > 4
    || (RecExplo(b, color, x, y, 0, 1, 1) + RecExplo(b, color, x, y, 0, -1, 0)) > 4
    || (RecExplo(b, color, x, y, 1, -1, 1) + RecExplo(b, color, x, y, -1, 1, 0)) > 4
  }

  /** The `t` squares before `(x, y)` along `(dx, dy)` are on the board and hold `color`. */
  predicate StonesBehind(b: Board, color: Square, x: int, y: int, dx: int, dy: int, t: nat)
    requires Valid(b)
  {
    Stones(b, color, x, y, -dx, -dy, t)
  }

  /**
   * Five squares in a row along `(dx, dy)` through `(x, y)`: `4 - g` squares
   * ahead and `g` behind hold `color` (the square itself is not looked at).
   */
  predicate FiveThrough(b: Board, color: Square, x: int, y: int, dx: int, dy: int)
    requires Valid(b)
  {
    exists g: nat :: g <= 4 && Stones(b, color, x, y, dx, dy, 4 - g) && StonesBehind(b, color, x, y, dx, dy, g)
  }

  /** `rec_explo` counts at least every run it may still add to `acc`. */
  lemma {:induction false} RunCounted(b: Board, color: Square, x: int, y: int, dx: int, dy: int, acc: int, t: nat)
    requires Valid(b) && 0 <= acc && acc + t <= 5 && Stones(b, color, x, y, dx, dy, t)
    ensures RecExplo(b, color, x, y, dx, dy, acc) >= acc + t
  {
    RecExploRun(b, color, x, y, dx, dy, acc);
    var r := RecExplo(b, color, x, y, dx, dy, acc);
    if r <= 4 && r - acc < t {
      StonesPrefix(b, color, x, y, dx, dy, r - acc + 1, t);
    }
  }

  /** Counts that pass 4 on an axis give a row of five through the square. */
  lemma {:induction false} AxisFiveSound(b: Board, color: Square, x: int, y: int, dx: int, dy: int)
    requires Valid(b)
    requires RecExplo(b, color, x, y, dx, dy, 1) + RecExplo(b, color, x, y, -dx, -dy, 0) > 4
    ensures FiveThrough(b, color, x, y, dx, dy)
  {
    RecExploRun(b, color, x, y, dx, dy, 1);
    RecExploRun(b, color, x, y, -dx, -dy, 0);
    var r1 := RecExplo(b, color, x, y, dx, dy, 1);
    var r2 := RecExplo(b, color, x, y, -dx, -dy, 0);
    var g: nat := if r2 < 4 then r2 else 4;
    StonesPrefix(b, color, x, y, -dx, -dy, g, r2);
    StonesPrefix(b, color, x, y, dx, dy, 4 - g, r1 - 1);
    assert Stones(b, color, x, y, dx, dy, 4 - g) && StonesBehind(b, color, x, y, dx, dy, g);
  }

  /** A row of five through the square makes the counts on its axis pass 4. */
  lemma {:induction false} AxisFiveComplete(b: Board, color: Square, x: int, y: int, dx: int, dy: int)
    requires Valid(b) && FiveThrough(b, color, x, y, dx, dy)
    ensures RecExplo(b, color, x, y, dx, dy, 1) + RecExplo(b, color, x, y, -dx, -dy, 0) > 4
  {
    var g: nat :| g <= 4 && Stones(b, color, x, y, dx, dy, 4 - g) && StonesBehind(b, color, x, y, dx, dy, g);
    RunCounted(b, color, x, y, dx, dy, 1, 4 - g);
    RunCounted(b, color, x, y, -dx, -dy, 0, g);
  }

  /** One axis of `five_aligned` passes 4 exactly when a row of five runs through the square on it. */
  lemma {:induction false} AxisFive(b: Board, color: Square, x: int, y: int, dx: int, dy: int)
    requires Valid(b)
    ensures RecExplo(b, color, x, y, dx, dy, 1) + RecExplo(b, color, x, y, -dx, -dy, 0) > 4
        <==> FiveThrough(b, color, x, y, dx, dy)
  {
    if RecExplo(b, color, x, y, dx, dy, 1) + RecExplo(b, color, x, y, -dx, -dy, 0) > 4 {
      AxisFiveSound(b, color, x, y, dx, dy);
    }
    if FiveThrough(b, color, x, y, dx, dy) {
      AxisFiveComplete(b, color, x, y, dx, dy);
    }
  }

  /** `five_aligned` holds exactly when a row of five of `color` runs through `pos` on one of the four axes. */
  lemma {:induction false} FiveAlignedRow(b: Board, pos: Pos, color: Square)
    requires Valid(b)
    ensures FiveAligned(b, pos, color) <==>
      FiveThrough(b, color, pos.0, pos.1, 1, 1) || FiveThrough(b, color, pos.0, pos.1, 1, 0)
      || FiveThrough(b, color, pos.0, pos.1, 0, 1) || FiveThrough(b, color, pos.0, pos.1, 1, -1)
  {
    AxisFive(b, color, pos.0, pos.1, 1, 1);
    AxisFive(b, color, pos.0, pos.1, 1, 0);
    AxisFive(b, color, pos.0, pos.1, 0, 1);
    AxisFive(b, color, pos.0, pos.1, 1, -1);
  }

  /** Five stones in a row along the x axis through `(x, y)` make `five_aligned` true, whatever `(x, y)` holds. */
  lemma {:induction false} RowOfFive(b: Board, x: nat, y: nat, color: Square)
    requires Valid(b) && x + 4 < Size && y < Size
    requires At(b, x + 1, y) == color && At(b, x + 2, y) == color
    requires At(b, x + 3, y) == color && At(b, x + 4, y) == color
    ensures FiveAligned(b, (x, y), color)
  {
    assert Stones(b, color, x + 3, y, 1, 0, 1);
    assert Stones(b, color, x + 2, y, 1, 0, 2);
    assert Stones(b, color, x + 1, y, 1, 0, 3);
    assert Stones(b, color, x, y, 1, 0, 4);
    assert Stones(b, color, x, y, -1, 0, 0);
    FiveAlignedRow(b, (x, y), color);
  }

  // ---------------------------------------------------------------------------
  // check_aligned
  // ---------------------------------------------------------------------------

  /** `b` with every listed square set to `Empty`, in list order. */
  function ClearCells(b: Board, ps: seq<Pos>): (r: Board)
    requires Valid(b) && forall p :: p in ps ==> InBounds(p.0, p.1)
    ensures Valid(r) && r.bCapture == b.bCapture && r.wCapture == b.wCapture
    ensures forall i, j :: InBounds(i, j) ==> At(r, i, j) == if (i, j) in ps then Empty else At(b, i, j)
  {
    if ps == [] then b
    else
      var p := ps[|ps| - 1];
      Put(ClearCells(b, ps[..|ps| - 1]), p.0, p.1, Empty)
  }

  /**
   * `check_aligned`: five in a row at `pos` that is still five in a row once
   * every square `five_aligned_capture` reports is emptied on a copy.
   */
  method CheckAligned(b: Board, pos: Pos, color: Square) returns (r: bool)
    requires Valid(b)
    ensures r == (FiveAligned(b, pos, color) && FiveAligned(ClearCells(b, FiveAlignedCaptureOf(b)), pos, color))
  {
    if FiveAligned(b, pos, color) {
      var testBoard := b;
      var toRemove := FiveAlignedCapture(b);
      FiveAlignedCaptureStones(b);
      for i := 0 to |toRemove|
        invariant testBoard == ClearCells(b, toRemove[..i])
      {
        ClearOneMore(b, toRemove, i);
        testBoard := Put(testBoard, toRemove[i].0, toRemove[i].1, Empty);
      }
      assert toRemove[..|toRemove|] == toRemove;
      r := FiveAligned(testBoard, pos, color);
    } else {
      r := false;
    }
  }

  /** Clearing one more listed square is one more `Put` of `Empty`. */
  lemma ClearOneMore(b: Board, ps: seq<Pos>, i: nat)
    requires Valid(b) && forall p :: p in ps ==> InBounds(p.0, p.1)
    requires i < |ps|
    ensures ClearCells(b, ps[..i + 1]) == Put(ClearCells(b, ps[..i]), ps[i].0, ps[i].1, Empty)
  {
    assert ps[..i + 1][..i] == ps[..i];
  }

  /** Emptying squares never creates a run of stones. */
  lemma {:induction false} StonesOfCleared(b: Board, c: Board, color: Square, x: int, y: int, dx: int, dy: int, t: nat)
    requires Valid(b) && Valid(c) && color != Empty
    requires forall i, j :: InBounds(i, j) ==> At(c, i, j) == At(b, i, j) || At(c, i, j) == Empty
    requires Stones(c, color, x, y, dx, dy, t)
    ensures Stones(b, color, x, y, dx, dy, t)
    decreases t
  {
    if t > 0 {
      StonesOfCleared(b, c, color, x + dx, y + dy, dx, dy, t - 1);
    }
  }

  /** Emptying squares never creates a row of five of a stone colour on one axis. */
  lemma {:induction false} FiveThroughOfCleared(b: Board, c: Board, color: Square, x: int, y: int, dx: int, dy: int)
    requires Valid(b) && Valid(c) && color != Empty
    requires forall i, j :: InBounds(i, j) ==> At(c, i, j) == At(b, i, j) || At(c, i, j) == Empty
    requires FiveThrough(c, color, x, y, dx, dy)
    ensures FiveThrough(b, color, x, y, dx, dy)
  {
    var g: nat :| g <= 4 && Stones(c, color, x, y, dx, dy, 4 - g) && StonesBehind(c, color, x, y, dx, dy, g);
    StonesOfCleared(b, c, color, x, y, dx, dy, 4 - g);
    StonesOfCleared(b, c, color, x, y, -dx, -dy, g);
    assert StonesBehind(b, color, x, y, dx, dy, g);
  }

  /** Emptying squares never creates five in a row of a stone colour. */
  lemma {:induction false} FiveAlignedOfCleared(b: Board, c: Board, pos: Pos, color: Square)
    requires Valid(b) && Valid(c) && color != Empty
    requires forall i, j :: InBounds(i, j) ==> At(c, i, j) == At(b, i, j) || At(c, i, j) == Empty
    requires FiveAligned(c, pos, color)
    ensures FiveAligned(b, pos, color)
  {
    FiveAlignedRow(b, pos, color);
    FiveAlignedRow(c, pos, color);
    var (x, y) := pos;
    if FiveThrough(c, color, x, y, 1, 1) {
      FiveThroughOfCleared(b, c, color, x, y, 1, 1);
    } else if FiveThrough(c, color, x, y, 1, 0) {
      FiveThroughOfCleared(b, c, color, x, y, 1, 0);
    } else if FiveThrough(c, color, x, y, 0, 1) {
      FiveThroughOfCleared(b, c, color, x, y, 0, 1);
    } else {
      FiveThroughOfCleared(b, c, color, x, y, 1, -1);
    }
  }

  /**
   * For a stone colour the first test of `check_aligned` is implied by the
   * second: the result is five in a row on the board with every breakable
   * pair lifted, and it implies `five_aligned` on the board itself.
   */
  lemma {:induction false} CheckAlignedMeaning(b: Board, pos: Pos, color: Square)
    requires Valid(b) && color != Empty
    ensures var cleared := ClearCells(b, FiveAlignedCaptureOf(b));
      (FiveAligned(b, pos, color) && FiveAligned(cleared, pos, color)) == FiveAligned(cleared, pos, color)
  {
    FiveAlignedCaptureStones(b);
    var cleared := ClearCells(b, FiveAlignedCaptureOf(b));
    if FiveAligned(cleared, pos, color) {
      FiveAlignedOfCleared(b, cleared, pos, color);
    }
  }

  // ---------------------------------------------------------------------------
  // check_full_board
  // ---------------------------------------------------------------------------

  /** Some square among the first `n` of `row` is `Empty`. */
  function RowHasEmpty(row: seq<Square>, n: nat): (r: bool)
    requires n <= |row|
    ensures r <==> exists j :: 0 <= j < n && row[j] == Empty
  {
    n > 0 && (row[n - 1] == Empty || RowHasEmpty(row, n - 1))
  }

  /** Some square among the first `n` rows of `state` is `Empty`. */
  function AnyRowHasEmpty(state: seq<seq<Square>>, n: nat): (r: bool)
    requires n <= |state|
    ensures r <==> exists i, j :: 0 <= i < n && 0 <= j < |state[i]| && state[i][j] == Empty
  {
    n > 0 && (RowHasEmpty(state[n - 1], |state[n - 1]|) || AnyRowHasEmpty(state, n - 1))
  }

  /** `check_full_board`: no square of the board is `Empty`. */
  function CheckFullBoard(b: Board): (r: bool)
    ensures r <==> forall i, j :: 0 <= i < |b.state| && 0 <= j < |b.state[i]| ==> b.state[i][j] != Empty
    ensures Valid(b) ==> (r <==> forall i, j :: InBounds(i, j) ==> At(b, i, j) != Empty)
  {
    var full := !AnyRowHasEmpty(b.state, |b.state|);
    assert Valid(b) ==> forall i, j :: InBounds(i, j) ==> At(b, i, j) == b.state[i][j];
    full
  }
}
