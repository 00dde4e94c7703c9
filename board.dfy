/**
 * The operations of src/board/board.rs built on the rule checks: placing a
 * stone (`play_at`), the empty squares around stones (`get_square_surroundings`,
 * `get_surroundings`), the candidate moves (`get_plays`) and the evaluation.
 */
module Boards {
  import opened Wrappers
  import opened Squares
  import opened BoardState
  import opened Lines
  import opened Scan
  import opened Capture
  import opened FreeThrees
  import opened Patterns

  // ---------------------------------------------------------------------------
  // play_at
  // ---------------------------------------------------------------------------

  /**
   * A placement `play_at` accepts: a position on the board, an empty square,
   * and no double free three once the stone is on it.
   */
  predicate Legal(b: Board, pos: Option<Pos>, color: Square)
    requires Valid(b)
  {
    pos.Some? && InBounds(pos.value.0, pos.value.1) && At(b, pos.value.0, pos.value.1) == Empty
    && !CheckFreeThrees(Put(b, pos.value.0, pos.value.1, color), pos.value.0, pos.value.1, color)
  }

  /** The board after an accepted placement: the stone written, then its captures taken. */
  function Placed(b: Board, x: nat, y: nat, color: Square): Board
    requires Valid(b) && InBounds(x, y)
  {
    CaptureResult(Put(b, x, y, color), color, x, y)
  }

  /**
   * `play_at`: `None` for no position, a position off the board, an occupied
   * square or a double free three; otherwise the clone with the stone written
   * and the captures it makes taken. `b` itself is a value and never changes.
   */
  method PlayAt(b: Board, pos: Option<Pos>, color: Square) returns (r: Option<Board>)
    requires Valid(b)
    ensures r.Some? <==> Legal(b, pos, color)
    ensures r.Some? ==> r.value == Placed(b, pos.value.0, pos.value.1, color)
    ensures r.Some? ==> Valid(r.value) && At(r.value, pos.value.0, pos.value.1) == color
  {
    match pos {
      case Some((x, y)) =>
        var clone := b;
        if !(x < Size) || !(y < Size) || At(clone, x, y) != Empty {
          r := None;
        } else {
          clone := Put(clone, x, y, color);
          if !CheckFreeThrees(clone, x, y, color) {
            var captured := CheckCapture(clone, color, x, y);
            CaptureCells(clone, color, x, y);
            r := Some(captured);
          } else {
            r := None;
          }
        }
      case None =>
        r := None;
    }
  }

  /**
   * An accepted placement changes the board only at the new stone and at
   * opponent stones it captures, and credits the mover with two points per
   * capture window.
   */
  lemma PlacedChanges(b: Board, x: nat, y: nat, color: Square)
    requires Valid(b) && InBounds(x, y) && At(b, x, y) == Empty && color != Empty
    ensures var r := Placed(b, x, y, color);
      && At(r, x, y) == color
      && (forall i, j :: InBounds(i, j) && (i, j) != (x, y) && At(r, i, j) != At(b, i, j) ==>
            At(b, i, j) == Opposite(color) && At(r, i, j) == Empty)
      && GetScore(r, Opposite(color)) == GetScore(b, Opposite(color))
      && GetScore(r, color) >= GetScore(b, color)
      && (GetScore(r, color) - GetScore(b, color)) % 2 == 0
  {
    var p := Put(b, x, y, color);
    CaptureCells(p, color, x, y);
    CaptureScores(p, color, x, y);
  }

  // ---------------------------------------------------------------------------
  // Surroundings
  // ---------------------------------------------------------------------------

  /** `(p, q)` is one of the eight squares around `(x, y)`. */
  predicate Adjacent(p: int, q: int, x: int, y: int)
  {
    (p, q) != (x, y) && -1 <= p - x <= 1 && -1 <= q - y <= 1
  }

  /** The square `(p, q)` as a one-element list if it is on the board and empty. */
  function Keep(b: Board, p: int, q: int): (s: seq<Pos>)
    requires Valid(b)
    ensures |s| <= 1
  {
    if InBounds(p, q) && At(b, p, q) == Empty then [(p, q)] else []
  }

  /**
   * The empty squares around `(x, y)` in the order `get_square_surroundings`
   * looks at them: east, north-east, north, north-west, west, south-west,
   * south, south-east (with `x` the row index and `y` the column).
   */
  function SquareSurroundings(b: Board, x: int, y: int): seq<Pos>
    requires Valid(b)
  {
    Keep(b, x + 1, y) + Keep(b, x + 1, y + 1) + Keep(b, x, y + 1) + Keep(b, x - 1, y + 1)
    + Keep(b, x - 1, y) + Keep(b, x - 1, y - 1) + Keep(b, x, y - 1) + Keep(b, x + 1, y - 1)
  }

  /** The surroundings of a square are exactly its empty neighbours on the board. */
  lemma SquareSurroundingsExactly(b: Board, x: int, y: int)
    requires Valid(b)
    ensures forall p :: p in SquareSurroundings(b, x, y) <==>
      InBounds(p.0, p.1) && At(b, p.0, p.1) == Empty && Adjacent(p.0, p.1, x, y)
  {
    SquareSurroundingsSound(b, x, y);
    SquareSurroundingsComplete(b, x, y);
  }

  lemma SquareSurroundingsSound(b: Board, x: int, y: int)
    requires Valid(b)
    ensures forall p :: p in SquareSurroundings(b, x, y) ==>
      InBounds(p.0, p.1) && At(b, p.0, p.1) == Empty && Adjacent(p.0, p.1, x, y)
  {
    var s := SquareSurroundings(b, x, y);
    forall p | p in s ensures InBounds(p.0, p.1) && At(b, p.0, p.1) == Empty && Adjacent(p.0, p.1, x, y) {
      var k1, k2, k3, k4 := Keep(b, x + 1, y), Keep(b, x + 1, y + 1), Keep(b, x, y + 1), Keep(b, x - 1, y + 1);
      var k5, k6, k7, k8 := Keep(b, x - 1, y), Keep(b, x - 1, y - 1), Keep(b, x, y - 1), Keep(b, x + 1, y - 1);
      assert s == k1 + k2 + k3 + k4 + k5 + k6 + k7 + k8;
      assert p in k1 || p in k2 || p in k3 || p in k4 || p in k5 || p in k6 || p in k7 || p in k8;
    }
  }

  lemma SquareSurroundingsComplete(b: Board, x: int, y: int)
    requires Valid(b)
    ensures forall p: Pos :: InBounds(p.0, p.1) && At(b, p.0, p.1) == Empty && Adjacent(p.0, p.1, x, y) ==>
      p in SquareSurroundings(b, x, y)
  {
    var s := SquareSurroundings(b, x, y);
    forall p: Pos | InBounds(p.0, p.1) && At(b, p.0, p.1) == Empty && Adjacent(p.0, p.1, x, y)
      ensures p in s
    {
      var dx, dy := p.0 - x, p.1 - y;
      if dx == 1 {
        if dy == 1 {
          assert p in Keep(b, x + 1, y + 1);
        } else if dy == 0 {
          assert p in Keep(b, x + 1, y);
        } else {
          assert p in Keep(b, x + 1, y - 1);
        }
      } else if dx == 0 {
        if dy == 1 {
          assert p in Keep(b, x, y + 1);
        } else {
          assert p in Keep(b, x, y - 1);
        }
      } else {
        if dy == 1 {
          assert p in Keep(b, x - 1, y + 1);
        } else if dy == 0 {
          assert p in Keep(b, x - 1, y);
        } else {
          assert p in Keep(b, x - 1, y - 1);
        }
      }
    }
  }

  /** Two lists free of repetitions with no common element concatenate to one. */
  lemma NoDupConcat(s: seq<Pos>, t: seq<Pos>)
    requires NoDup(s) && NoDup(t) && forall r :: r in s ==> r !in t
    ensures NoDup(s + t)
  {
    forall i, j | 0 <= i < j < |s + t| ensures (s + t)[i] != (s + t)[j] {
      if i < |s| && j >= |s| {
        assert (s + t)[i] in s && (s + t)[j] == t[j - |s|];
      }
    }
  }

  /** The first four surroundings: east, north-east, north, north-west. */
  lemma FirstHalfDistinct(b: Board, x: int, y: int)
    requires Valid(b)
    ensures var h := Keep(b, x + 1, y) + Keep(b, x + 1, y + 1) + Keep(b, x, y + 1) + Keep(b, x - 1, y + 1);
      NoDup(h) && |h| <= 4 && forall r :: r in h ==> r.1 == y + 1 || r == (x + 1, y)
  {
  }

  /** The last four surroundings: west, south-west, south, south-east. */
  lemma SecondHalfDistinct(b: Board, x: int, y: int)
    requires Valid(b)
    ensures var h := Keep(b, x - 1, y) + Keep(b, x - 1, y - 1) + Keep(b, x, y - 1) + Keep(b, x + 1, y - 1);
      NoDup(h) && |h| <= 4 && forall r :: r in h ==> r.1 == y - 1 || r == (x - 1, y)
  {
  }

  /** The surroundings of a square list each neighbour once, so at most eight squares. */
  lemma SquareSurroundingsDistinct(b: Board, x: int, y: int)
    requires Valid(b)
    ensures NoDup(SquareSurroundings(b, x, y)) && |SquareSurroundings(b, x, y)| <= 8
  {
    var h1 := Keep(b, x + 1, y) + Keep(b, x + 1, y + 1) + Keep(b, x, y + 1) + Keep(b, x - 1, y + 1);
    var h2 := Keep(b, x - 1, y) + Keep(b, x - 1, y - 1) + Keep(b, x, y - 1) + Keep(b, x + 1, y - 1);
    FirstHalfDistinct(b, x, y);
    SecondHalfDistinct(b, x, y);
    NoDupConcat(h1, h2);
    assert SquareSurroundings(b, x, y) == h1 + h2;
  }

  /**
   * `get_square_surroundings`: eight guarded pushes in the order above. The
   * square `(x, y)` is on the board at every call site, where the source
   * indexes it unchecked.
   */
  method GetSquareSurroundings(b: Board, x: int, y: int) returns (surr: seq<Pos>)
    requires Valid(b) && InBounds(x, y)
    ensures surr == SquareSurroundings(b, x, y)
  {
    surr := [];
    surr := PushIfEmpty(b, surr, x + 1, y);
    surr := PushIfEmpty(b, surr, x + 1, y + 1);
    surr := PushIfEmpty(b, surr, x, y + 1);
    surr := PushIfEmpty(b, surr, x - 1, y + 1);
    surr := PushIfEmpty(b, surr, x - 1, y);
    surr := PushIfEmpty(b, surr, x - 1, y - 1);
    surr := PushIfEmpty(b, surr, x, y - 1);
    surr := PushIfEmpty(b, surr, x + 1, y - 1);
    assert [] + Keep(b, x + 1, y) == Keep(b, x + 1, y);
  }

  /** One guarded push: `(p, q)` is appended when it is on the board and empty. */
  method PushIfEmpty(b: Board, surr: seq<Pos>, p: int, q: int) returns (next: seq<Pos>)
    requires Valid(b)
    ensures next == surr + Keep(b, p, q)
  {
    if 0 <= p < Size && 0 <= q < Size && At(b, p, q) == Empty {
      next := surr + [(p, q)];
    } else {
      next := surr;
    }
  }

  /** Row `i` of `get_surroundings`: the surroundings of the stones of `color` in columns `0..m`. */
  function RowSurroundings(b: Board, color: Square, i: nat, m: nat): seq<Pos>
    requires Valid(b) && i < Size && m <= Size
  {
    if m == 0 then []
    else
      RowSurroundings(b, color, i, m - 1)
      + (if At(b, i, m - 1) != Empty && At(b, i, m - 1) == color then SquareSurroundings(b, i, m - 1) else [])
  }

  /**
   * `get_surroundings` over rows `0..n`: the rows' surroundings, concatenated in row order.
   * Each row is taken to its length, which is `Size` on a valid board.
   */
  function Surroundings(b: Board, color: Square, n: nat): seq<Pos>
    requires Valid(b) && n <= Size
  {
    if n == 0 then [] else Surroundings(b, color, n - 1) + RowSurroundings(b, color, n - 1, |b.state[n - 1]|)
  }

  /** `get_surroundings`: the empty squares around every stone of `color`, row by row. */
  method GetSurroundings(b: Board, color: Square) returns (acc: seq<Pos>)
    requires Valid(b)
    ensures acc == Surroundings(b, color, Size)
  {
    acc := [];
    for i := 0 to Size
      invariant acc == Surroundings(b, color, i)
    {
      var acc2 := GetRowSurroundings(b, color, i);
      acc := acc + acc2;
    }
  }

  /** The inner loop of `get_surroundings`: the squares around the stones of `color` in row `i`. */
  method GetRowSurroundings(b: Board, color: Square, i: nat) returns (acc2: seq<Pos>)
    requires Valid(b) && i < Size
    ensures acc2 == RowSurroundings(b, color, i, |b.state[i]|)
  {
    acc2 := [];
    for j := 0 to Size
      invariant acc2 == RowSurroundings(b, color, i, j)
    {
      acc2 := AddSquareSurroundings(b, color, i, j, acc2);
    }
  }

  /** One turn of the inner loop: a stone of `color` at `(i, j)` adds the squares around it. */
  method AddSquareSurroundings(b: Board, color: Square, i: nat, j: nat, acc2: seq<Pos>) returns (next: seq<Pos>)
    requires Valid(b) && i < Size && j < Size && acc2 == RowSurroundings(b, color, i, j)
    ensures next == RowSurroundings(b, color, i, j + 1)
  {
    next := acc2;
    if At(b, i, j) != Empty && At(b, i, j) == color {
      var surr := GetSquareSurroundings(b, i, j);
      next := acc2 + surr;
    }
  }

  /** Every square of a row's surroundings is empty, on the board, and next to a stone of `color` in that row. */
  lemma {:induction false} RowSurroundingsSound(b: Board, color: Square, i: nat, m: nat, p: Pos)
    requires Valid(b) && i < Size && m <= Size
    ensures p in RowSurroundings(b, color, i, m) ==>
      color != Empty && InBounds(p.0, p.1) && At(b, p.0, p.1) == Empty
      && exists j :: 0 <= j < m && At(b, i, j) == color && Adjacent(p.0, p.1, i, j)
  {
    if p in RowSurroundings(b, color, i, m) {
      var j := m - 1;
      if p in RowSurroundings(b, color, i, j) {
        RowSurroundingsSound(b, color, i, j, p);
      } else {
        SquareSurroundingsExactly(b, i, j);
      }
    }
  }

  /** Every square of `s` is an empty square of the board. */
  predicate AllEmpty(b: Board, s: seq<Pos>)
    requires Valid(b)
  {
    forall p :: p in s ==> InBounds(p.0, p.1) && At(b, p.0, p.1) == Empty
  }

  lemma AllEmptyConcat(b: Board, s: seq<Pos>, t: seq<Pos>)
    requires Valid(b) && AllEmpty(b, s) && AllEmpty(b, t)
    ensures AllEmpty(b, s + t)
  {
    forall p | p in s + t ensures InBounds(p.0, p.1) && At(b, p.0, p.1) == Empty {
      assert p in s || p in t;
    }
  }

  /** The squares of one row's surroundings are empty squares of the board. */
  lemma RowSurroundingsEmpty(b: Board, color: Square, i: nat, m: nat)
    requires Valid(b) && i < Size && m <= Size
    ensures AllEmpty(b, RowSurroundings(b, color, i, m))
  {
    forall p | p in RowSurroundings(b, color, i, m) ensures InBounds(p.0, p.1) && At(b, p.0, p.1) == Empty {
      RowSurroundingsSound(b, color, i, m, p);
    }
  }

  /** Every square `get_surroundings` returns is an empty square on the board. */
  lemma {:induction false} SurroundingsSound(b: Board, color: Square, n: nat)
    requires Valid(b) && n <= Size
    ensures AllEmpty(b, Surroundings(b, color, n))
  {
    if n > 0 {
      var m := n - 1;
      SurroundingsSound(b, color, m);
      RowSurroundingsEmpty(b, color, m, |b.state[m]|);
      AllEmptyConcat(b, Surroundings(b, color, m), RowSurroundings(b, color, m, |b.state[m]|));
    }
  }

  /** Every square `get_surroundings` returns is next to a stone of `color`. */
  lemma {:induction false} SurroundingsNearStone(b: Board, color: Square, n: nat, p: Pos)
    requires Valid(b) && n <= Size && p in Surroundings(b, color, n)
    ensures exists i, j :: 0 <= i < n && 0 <= j < Size && At(b, i, j) != Empty && At(b, i, j) == color && Adjacent(p.0, p.1, i, j)
  {
    var m := n - 1;
    if p in Surroundings(b, color, m) {
      SurroundingsNearStone(b, color, m, p);
      var i, j :| 0 <= i < m && 0 <= j < Size && At(b, i, j) != Empty && At(b, i, j) == color && Adjacent(p.0, p.1, i, j);
    } else {
      RowSurroundingsSound(b, color, m, |b.state[m]|, p);
      var j :| 0 <= j < Size && At(b, m, j) == color && Adjacent(p.0, p.1, m, j);
    }
  }

  // ---------------------------------------------------------------------------
  // unique
  // ---------------------------------------------------------------------------

  /** No element occurs twice. */
  predicate NoDup(s: seq<Pos>)
  {
    forall i, j :: 0 <= i < j < |s| ==> s[i] != s[j]
  }

  lemma NoDupAppend(s: seq<Pos>, x: Pos)
    requires NoDup(s) && x !in s
    ensures NoDup(s + [x])
  {
  }

  /** `itertools::unique`: the first occurrence of every element, in order. */
  function Dedup(s: seq<Pos>): (r: seq<Pos>)
    ensures NoDup(r)
    ensures forall x :: x in r <==> x in s
    ensures |r| <= |s|
  {
    if s == [] then []
    else
      var d := Dedup(s[..|s| - 1]);
      var last := s[|s| - 1];
      if last in d then d
      else
        NoDupAppend(d, last);
        d + [last]
  }

  /** The elements of a repetition-free sequence all survive `Dedup`, in place. */
  lemma {:induction false} DedupOfNoDup(s: seq<Pos>)
    requires NoDup(s)
    ensures Dedup(s) == s
  {
    if s != [] {
      var init, last := s[..|s| - 1], s[|s| - 1];
      assert NoDup(init) by {
        forall i, j | 0 <= i < j < |init| ensures init[i] != init[j] {
          assert init[i] == s[i] && init[j] == s[j];
        }
      }
      assert last !in init by {
        forall i | 0 <= i < |init| ensures init[i] != last {
          assert init[i] == s[i];
        }
      }
      DedupOfNoDup(init);
      assert init + [last] == s;
    }
  }

  /** Removing repetitions twice is removing them once. */
  lemma DedupIdempotent(s: seq<Pos>)
    ensures Dedup(Dedup(s)) == Dedup(s)
  {
    DedupOfNoDup(Dedup(s));
  }

  /** `Dedup` keeps first occurrences in order: extending the input extends the output. */
  lemma {:induction false} DedupPrefix(s: seq<Pos>, t: seq<Pos>)
    ensures Dedup(s) <= Dedup(s + t)
    decreases |t|
  {
    if t == [] {
      assert s + t == s;
    } else {
      assert (s + t)[..|s + t| - 1] == s + t[..|t| - 1];
      DedupPrefix(s, t[..|t| - 1]);
    }
  }

  // ---------------------------------------------------------------------------
  // get_plays
  // ---------------------------------------------------------------------------

  /** The candidate list of `get_plays` before `unique`. */
  function Candidates(b: Board, color: Square): seq<Pos>
    requires Valid(b)
  {
    if ThreatsOf(b) != [] then ThreatsOf(b)
    else
      var rest := CapturePosOf(b) + Surroundings(b, color, Size) + Surroundings(b, Opposite(color), Size);
      if rest != [] then rest else [(9, 9)]
  }

  /**
   * `get_plays`: the threat squares if there are any; otherwise the capture
   * squares, then the mover's surroundings, then the opponent's; `(9, 9)` if
   * all are empty; repetitions removed, first occurrence kept.
   */
  method GetPlays(b: Board, color: Square) returns (r: seq<Pos>)
    requires Valid(b)
    ensures r == Dedup(Candidates(b, color))
    ensures r != [] && NoDup(r)
    ensures ThreatsOf(b) != [] ==> forall p :: p in r <==> p in ThreatsOf(b)
  {
    var plays := CheckThreats(b);
    if |plays| == 0 {
      var checkCapture := CheckCapturePos(b);
      var playerSurroundings := GetSurroundings(b, color);
      var opponentSurroundings := GetSurroundings(b, Opposite(color));
      assert plays + checkCapture == checkCapture;
      plays := plays + checkCapture;
      plays := plays + playerSurroundings;
      plays := plays + opponentSurroundings;
    }
    if |plays| == 0 {
      plays := plays + [(9, 9)];
    }
    assert plays == Candidates(b, color);
    r := Dedup(plays);
    assert plays[0] in r;
  }

  /** Every candidate move is a square of the board. */
  lemma CandidatesOnBoard(b: Board, color: Square)
    requires Valid(b)
    ensures forall p :: p in Dedup(Candidates(b, color)) ==> InBounds(p.0, p.1)
  {
    AllHitsInBounds(b, AllLines(b), ThreatTable);
    AllHitsInBounds(b, AllLines(b), CaptureMoves);
    SurroundingsSound(b, color, Size);
    SurroundingsSound(b, Opposite(color), Size);
  }

  /** Without threats, every candidate is empty: capture squares and surroundings are gaps. */
  lemma QuietCandidatesEmpty(b: Board, color: Square)
    requires Valid(b) && ThreatsOf(b) == []
    ensures forall p :: p in Dedup(Candidates(b, color)) ==>
      (InBounds(p.0, p.1) && At(b, p.0, p.1) == Empty) || p == (9, 9)
  {
    CapturePosEmpty(b);
    SurroundingsSound(b, color, Size);
    SurroundingsSound(b, Opposite(color), Size);
  }

  /** A board without stones has no surroundings. */
  lemma BlankBoardSurroundings(b: Board, color: Square)
    requires Valid(b) && forall i, j :: InBounds(i, j) ==> At(b, i, j) == Empty
    ensures Surroundings(b, color, Size) == []
  {
    var s := Surroundings(b, color, Size);
    if s != [] {
      SurroundingsNearStone(b, color, Size, s[0]);
    }
  }

  /** On a board without stones (the new board, say) the only candidate is the centre. */
  lemma BlankBoardPlays(b: Board, color: Square)
    requires Valid(b) && forall i, j :: InBounds(i, j) ==> At(b, i, j) == Empty
    ensures Dedup(Candidates(b, color)) == [(9, 9)]
  {
    TablesNameStones();
    BlankBoardScansNothing(b, ThreatTable);
    BlankBoardScansNothing(b, CaptureMoves);
    BlankBoardSurroundings(b, color);
    BlankBoardSurroundings(b, Opposite(color));
    assert CapturePosOf(b) + Surroundings(b, color, Size) + Surroundings(b, Opposite(color), Size) == [];
  }

  // ---------------------------------------------------------------------------
  // evaluation
  // ---------------------------------------------------------------------------

  /** `Board::evaluation`: the pattern score, which is zero-sum between the two sides. */
  function Evaluation(b: Board, color: Square): (r: int)
    requires Valid(b)
    ensures r == -CheckPatterns(b, Opposite(color))
  {
    CheckPatternsAntisymmetric(b, color);
    CheckPatterns(b, color)
  }
}
