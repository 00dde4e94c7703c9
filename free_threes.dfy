/**
 * The double-free-three test of src/board/check.rs (`check_free_threes`):
 * around `(x, y)` four windows of up to nine squares are read, one per axis,
 * clipped at the edges, and the move is a double three when more than one
 * of them contains one of the four free-three templates.
 */
module FreeThrees {
  import opened Wrappers
  import opened Squares
  import opened BoardState
  import opened Lines

  /** The four windows, in the source's order `t[0]` to `t[3]`. */
  datatype Axis = AlongX | AlongY | Diagonal | AntiDiagonal

  /** The square at step `i` of the window on `axis` through `(x, y)`. */
  function Cell(axis: Axis, x: int, y: int, i: int): (int, int)
  {
    match axis
    case AlongX => (x + i, y)
    case AlongY => (x, y + i)
    case Diagonal => (x + i, y + i)
    case AntiDiagonal => (x + i, y - i)
  }

  /** The `filter` of each window, as written: only the coordinates that move are tested. */
  predicate Kept(axis: Axis, x: int, y: int, i: int)
  {
    match axis
    case AlongX => x + i < Size && x + i >= 0
    case AlongY => y + i < Size && y + i >= 0
    case Diagonal => x + i < Size && x + i >= 0 && y + i < Size && y + i >= 0
    case AntiDiagonal => x + i < Size && x + i >= 0 && y - i < Size && y - i >= 0
  }

  /** Around a square on the board, the filter keeps exactly the steps that stay on the board. */
  lemma KeptOnBoard(axis: Axis, x: int, y: int, i: int)
    requires InBounds(x, y)
    ensures Kept(axis, x, y, i) <==> InBounds(Cell(axis, x, y, i).0, Cell(axis, x, y, i).1)
  {
  }

  /** The window's characters from step `i` to step 4, `Empty` written as a space. */
  function WindowFrom(b: Board, axis: Axis, x: int, y: int, i: int): (w: seq<char>)
    requires Valid(b) && InBounds(x, y) && -4 <= i <= 5
    ensures |w| <= 5 - i
    decreases 5 - i
  {
    if i > 4 then []
    else if Kept(axis, x, y, i) then
      var c := Cell(axis, x, y, i);
      [ToChar(At(b, c.0, c.1), ' ')] + WindowFrom(b, axis, x, y, i + 1)
    else WindowFrom(b, axis, x, y, i + 1)
  }

  /** The window `t[k]` on `axis`: steps -4 to 4 that stay on the board. */
  function Window(b: Board, axis: Axis, x: int, y: int): (w: seq<char>)
    requires Valid(b) && InBounds(x, y)
  {
    WindowFrom(b, axis, x, y, -4)
  }

  /** The four free-three templates of `color`, in the source's order. */
  function Templates(color: Square): (p: seq<seq<char>>)
    ensures |p| == 4 && forall k :: 0 <= k < 4 ==> |p[k]| == 6
  {
    var c := StoneLetter(color);
    [Replace(" x xx ", c), Replace(" xx x ", c), Replace("  xxx ", c), Replace(" xxx  ", c)]
  }

  /** The filter of the source's final count: one of the templates occurs in `w`. */
  predicate HasFreeThree(w: seq<char>, color: Square)
  {
    var p := Templates(color);
    Find(w, p[0]).Some? || Find(w, p[1]).Some? || Find(w, p[2]).Some? || Find(w, p[3]).Some?
  }

  /** The window on `axis` holds a free three of `color`. */
  predicate ThreeOnAxis(b: Board, x: int, y: int, color: Square, axis: Axis)
    requires Valid(b) && InBounds(x, y)
  {
    HasFreeThree(Window(b, axis, x, y), color)
  }

  function Indicator(c: bool): nat { if c then 1 else 0 }

  /** `check_free_threes`: more than one of the four windows holds a free three. */
  function CheckFreeThrees(b: Board, x: int, y: int, color: Square): bool
    requires Valid(b) && InBounds(x, y)
  {
    Indicator(ThreeOnAxis(b, x, y, color, AlongX)) + Indicator(ThreeOnAxis(b, x, y, color, AlongY))
    + Indicator(ThreeOnAxis(b, x, y, color, Diagonal)) + Indicator(ThreeOnAxis(b, x, y, color, AntiDiagonal)) > 1
  }

  // ---------------------------------------------------------------------------
  // Properties
  // ---------------------------------------------------------------------------

  /** More than one of four flags is set exactly when two different ones are. */
  lemma MoreThanOneOfFour(p: Axis -> bool)
    ensures Indicator(p(AlongX)) + Indicator(p(AlongY)) + Indicator(p(Diagonal)) + Indicator(p(AntiDiagonal)) > 1
      <==> exists a1: Axis, a2: Axis :: a1 != a2 && p(a1) && p(a2)
  {
    if Indicator(p(AlongX)) + Indicator(p(AlongY)) + Indicator(p(Diagonal)) + Indicator(p(AntiDiagonal)) > 1 {
      if p(AlongX) && p(AlongY) {
        assert AlongX != AlongY;
      } else if p(AlongX) && p(Diagonal) {
        assert AlongX != Diagonal;
      } else if p(AlongX) && p(AntiDiagonal) {
        assert AlongX != AntiDiagonal;
      } else if p(AlongY) && p(Diagonal) {
        assert AlongY != Diagonal;
      } else if p(AlongY) && p(AntiDiagonal) {
        assert AlongY != AntiDiagonal;
      } else {
        assert Diagonal != AntiDiagonal;
      }
    }
  }

  /** `check_free_threes` holds exactly when two different axes carry a free three. */
  lemma FreeThreesOnTwoAxes(b: Board, x: int, y: int, color: Square)
    requires Valid(b) && InBounds(x, y)
    ensures CheckFreeThrees(b, x, y, color) <==>
      exists a1: Axis, a2: Axis :: a1 != a2 && ThreeOnAxis(b, x, y, color, a1) && ThreeOnAxis(b, x, y, color, a2)
  {
    var p := (a: Axis) => Valid(b) && InBounds(x, y) && ThreeOnAxis(b, x, y, color, a);
    MoreThanOneOfFour(p);
    assert forall a :: p(a) == ThreeOnAxis(b, x, y, color, a);
  }

  /** Steps the filter keeps around a square on the board lead to squares on the board. */
  lemma KeptCellsOnBoard(axis: Axis, x: int, y: int, i: int)
    requires InBounds(x, y)
    requires forall t :: i <= t <= 4 ==> Kept(axis, x, y, t)
    ensures forall t :: i <= t <= 4 ==> InBounds(Cell(axis, x, y, t).0, Cell(axis, x, y, t).1)
  {
    forall t | i <= t <= 4
      ensures InBounds(Cell(axis, x, y, t).0, Cell(axis, x, y, t).1)
    {
      KeptOnBoard(axis, x, y, t);
    }
  }

  /** A kept step contributes its square's character in front of the rest of the window. */
  lemma WindowFromKept(b: Board, axis: Axis, x: int, y: int, i: int)
    requires Valid(b) && InBounds(x, y) && -4 <= i <= 4 && Kept(axis, x, y, i)
    ensures InBounds(Cell(axis, x, y, i).0, Cell(axis, x, y, i).1)
    ensures WindowFrom(b, axis, x, y, i) ==
      [ToChar(At(b, Cell(axis, x, y, i).0, Cell(axis, x, y, i).1), ' ')] + WindowFrom(b, axis, x, y, i + 1)
  {
    KeptOnBoard(axis, x, y, i);
  }

  /**
   * When every step from `i` to 4 stays on the board, the window from `i`
   * is those squares in order.
   */
  lemma {:induction false} WindowFromCells(b: Board, axis: Axis, x: int, y: int, i: int)
    requires Valid(b) && InBounds(x, y) && -4 <= i <= 5
    requires forall t :: i <= t <= 4 ==> Kept(axis, x, y, t)
    ensures var w := WindowFrom(b, axis, x, y, i);
      |w| == 5 - i &&
      forall t :: i <= t <= 4 ==>
        InBounds(Cell(axis, x, y, t).0, Cell(axis, x, y, t).1) &&
        w[t - i] == ToChar(At(b, Cell(axis, x, y, t).0, Cell(axis, x, y, t).1), ' ')
    decreases 5 - i
  {
    KeptCellsOnBoard(axis, x, y, i);
    if i <= 4 {
      WindowFromCells(b, axis, x, y, i + 1);
      var c := Cell(axis, x, y, i);
      var rest := WindowFrom(b, axis, x, y, i + 1);
      var w := [ToChar(At(b, c.0, c.1), ' ')] + rest;
      WindowFromKept(b, axis, x, y, i);
      forall t | i < t <= 4
        ensures w[t - i] == ToChar(At(b, Cell(axis, x, y, t).0, Cell(axis, x, y, t).1), ' ')
      {
        assert w[t - i] == rest[t - (i + 1)];
      }
    }
  }

  /**
   * Away from the edges (`4 <= x, y <= 14`) every window is nine squares
   * long, and its `k`-th character is the square at step `k - 4`.
   */
  lemma InteriorWindow(b: Board, axis: Axis, x: int, y: int)
    requires Valid(b) && 4 <= x <= 14 && 4 <= y <= 14
    ensures var w := Window(b, axis, x, y);
      |w| == 9 &&
      forall k :: 0 <= k < 9 ==>
        w[k] == ToChar(At(b, Cell(axis, x, y, k - 4).0, Cell(axis, x, y, k - 4).1), ' ')
  {
    WindowFromCells(b, axis, x, y, -4);
    var w := Window(b, axis, x, y);
    forall k | 0 <= k < 9
      ensures w[k] == ToChar(At(b, Cell(axis, x, y, k - 4).0, Cell(axis, x, y, k - 4).1), ' ')
    {
      assert w[(k - 4) - (-4)] == w[k];
    }
  }

  /** A free three of a stone colour needs three of its stones in the window. */
  lemma FreeThreeHasStones(w: seq<char>, color: Square)
    requires color != Empty && HasFreeThree(w, color)
    ensures exists k :: 0 <= k < |w| && w[k] == StoneLetter(color)
  {
    var p := Templates(color);
    var j :| 0 <= j < 4 && Find(w, p[j]).Some?;
    var o := Find(w, p[j]).value;
    var m := if j == 2 then 2 else 1;
    assert p[j][m] == StoneLetter(color);
    assert w[o..o + 6][m] == w[o + m];
  }
}
