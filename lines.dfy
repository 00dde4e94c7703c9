/**
 * The line-extraction helper that src/board/check.rs repeats in its
 * scanners: every row, every column and both diagonal families of the grid
 * as a string, together with the closure `fun` that maps a character offset
 * back to its coordinates; and `str::find` on those strings.
 */
module Lines {
  import opened Wrappers
  import opened Squares
  import opened BoardState

  /** How a square is written in a scanned line; `empty` is the blank used by the caller. */
  function ToChar(s: Square, empty: char): char
  {
    match s
    case Black => 'B'
    case White => 'W'
    case Empty => empty
  }

  /** Reading the character back: `ToChar` loses nothing as long as the blank is not a stone letter. */
  lemma ToCharInjective(s: Square, t: Square, empty: char)
    requires empty != 'B' && empty != 'W'
    ensures ToChar(s, empty) == ToChar(t, empty) <==> s == t
  {
  }

  /** `s` with every `x` replaced by `c`. */
  function Replace(s: seq<char>, c: char): (r: seq<char>)
    ensures |r| == |s|
    ensures forall k :: 0 <= k < |s| ==> r[k] == if s[k] == 'x' then c else s[k]
  {
    seq(|s|, k requires 0 <= k < |s| => if s[k] == 'x' then c else s[k])
  }

  /** The letter that replaces `x` in a template of `color`: a space for `Empty`. */
  function StoneLetter(color: Square): char
  {
    match color
    case Black => 'B'
    case White => 'W'
    case Empty => ' '
  }

  function Max(a: int, b: int): int { if a < b then b else a }

  function Min(a: int, b: int): int { if a < b then a else b }

  function Abs(a: int): int { if a < 0 then -a else a }

  // ---------------------------------------------------------------------------
  // str::find
  // ---------------------------------------------------------------------------

  /** `p` occurs in `s` starting at index `k`. */
  predicate OccursAt(s: seq<char>, p: seq<char>, k: int)
  {
    0 <= k && k + |p| <= |s| && s[k..k + |p|] == p
  }

  function FindFrom(s: seq<char>, p: seq<char>, start: nat): (r: Option<nat>)
    ensures r.Some? ==> start <= r.value && OccursAt(s, p, r.value)
    decreases |s| - start
  {
    if start + |p| > |s| then None
    else if s[start..start + |p|] == p then Some(start)
    else FindFrom(s, p, start + 1)
  }

  /** `str::find`: the first index at which `p` occurs in `s`, if any. */
  function Find(s: seq<char>, p: seq<char>): (r: Option<nat>)
    ensures r.Some? ==> OccursAt(s, p, r.value)
  {
    FindFrom(s, p, 0)
  }

  /** The search from `start` finds the first occurrence at or after `start`, and fails only when there is none. */
  lemma {:induction false} FindFromFirst(s: seq<char>, p: seq<char>, start: nat)
    ensures FindFrom(s, p, start).Some? ==> forall k :: start <= k < FindFrom(s, p, start).value ==> !OccursAt(s, p, k)
    ensures FindFrom(s, p, start).None? ==> forall k :: start <= k ==> !OccursAt(s, p, k)
    decreases |s| - start
  {
    if start + |p| <= |s| && s[start..start + |p|] != p {
      FindFromFirst(s, p, start + 1);
    }
  }

  /** `Find` reports the first occurrence, and `None` only when `p` occurs nowhere in `s`. */
  lemma FindFirst(s: seq<char>, p: seq<char>)
    ensures Find(s, p).Some? ==> forall k :: 0 <= k < Find(s, p).value ==> !OccursAt(s, p, k)
    ensures Find(s, p).None? ==> forall k :: !OccursAt(s, p, k)
  {
    FindFromFirst(s, p, 0);
  }

  /** A pattern holding a character that the string lacks is never found in it. */
  lemma NotFoundWithoutChar(s: seq<char>, p: seq<char>, k: nat)
    requires k < |p| && p[k] !in s
    ensures Find(s, p) == None
  {
  }

  // ---------------------------------------------------------------------------
  // Lines of the grid
  // ---------------------------------------------------------------------------

  /** `vert` (the rows of `state`), `hor` (its columns), `diagup` and `diagdown`. */
  datatype Family = Vert | Hor | DiagUp | DiagDown

  /** 19 rows, 19 columns and 37 diagonals in each direction. */
  function Count(f: Family): nat
  {
    if f == Vert || f == Hor then Size else 2 * Size - 1
  }

  /** The length of line `i`: `19 - |19 - (i + 1)|` on the diagonals. */
  function LineLength(f: Family, i: nat): nat
    requires i < Count(f)
  {
    if f == Vert || f == Hor then Size else Size - Abs(Size - (i + 1))
  }

  /** The closure `fun` of line `i`: the coordinates of character `v`. */
  function Fun(f: Family, i: nat, v: nat): (p: Pos)
    requires i < Count(f) && v < LineLength(f, i)
    ensures InBounds(p.0, p.1)
  {
    match f
    case Vert => (i, v)
    case Hor => (v, i)
    case DiagUp => (Max(0, i - 18) + v, Max(0, 18 - i) + v)
    case DiagDown => (Max(0, i - 18) + v, Min(18, i) - v)
  }

  /**
   * The `data` string of line `i`, indexing `state` as the source does; its
   * `v`-th character is the square at `Fun(f, i, v)`.
   */
  function LineData(b: Board, f: Family, i: nat, empty: char): (data: seq<char>)
    requires Valid(b) && i < Count(f)
    ensures |data| == LineLength(f, i)
    ensures forall v :: 0 <= v < |data| ==> data[v] == ToChar(At(b, Fun(f, i, v).0, Fun(f, i, v).1), empty)
  {
    seq(LineLength(f, i), j requires 0 <= j < LineLength(f, i) => ToChar(LineSquare(b, f, i, j), empty))
  }

  /** Square `j` of line `i`, read from `state` with the source's indices; it is the square at `Fun(f, i, j)`. */
  function LineSquare(b: Board, f: Family, i: nat, j: nat): (s: Square)
    requires Valid(b) && i < Count(f) && j < LineLength(f, i)
    ensures s == At(b, Fun(f, i, j).0, Fun(f, i, j).1)
  {
    match f
    case Vert => b.state[i][j]
    case Hor => b.state[j][i]
    case DiagUp => b.state[Max(0, i - 18) + j][Max(0, 18 - i) + j]
    case DiagDown => b.state[Max(0, i - 18) + j][Min(18, i) - j]
  }

  /** The unit step between consecutive characters of a line of family `f`. */
  function Dir(f: Family): (int, int)
  {
    match f
    case Vert => (0, 1)
    case Hor => (1, 0)
    case DiagUp => (1, 1)
    case DiagDown => (1, -1)
  }

  /** Consecutive characters of a line are neighbouring squares, one `Dir(f)` apart. */
  lemma LineStep(f: Family, i: nat, v: nat)
    requires i < Count(f) && v + 1 < LineLength(f, i)
    ensures Fun(f, i, v + 1).0 == Fun(f, i, v).0 + Dir(f).0
    ensures Fun(f, i, v + 1).1 == Fun(f, i, v).1 + Dir(f).1
  {
  }

  /**
   * Every square lies on a line of every family: the line index and the
   * offset at which `fun` reaches `(x, y)`.
   */
  function Locate(f: Family, x: nat, y: nat): (iv: (nat, nat))
    requires InBounds(x, y)
    ensures iv.0 < Count(f) && iv.1 < LineLength(f, iv.0)
    ensures Fun(f, iv.0, iv.1) == (x, y)
  {
    match f
    case Vert => (x, y)
    case Hor => (y, x)
    case DiagUp => (x - y + 18, Min(x, y))
    case DiagDown => (x + y, x - Max(0, x + y - 18))
  }

  /** `Right`: one extracted line, its `data` and (as family and index) its `fun`. */
  datatype Right = Right(data: seq<char>, family: Family, index: nat)

  /** `r` names an existing line and its data has that line's length. */
  predicate Shaped(r: Right)
  {
    r.index < Count(r.family) && |r.data| == LineLength(r.family, r.index)
  }

  /** `r` is line `r.index` of family `r.family` of board `b`, blanks written `-`. */
  predicate LineOf(b: Board, r: Right)
  {
    Valid(b) && Shaped(r) && r.data == LineData(b, r.family, r.index, '-')
  }

  function MakeRight(b: Board, f: Family, i: nat): (r: Right)
    requires Valid(b) && i < Count(f)
    ensures LineOf(b, r) && r.family == f && r.index == i
  {
    Right(LineData(b, f, i, '-'), f, i)
  }

  /** All 112 lines in the order `vert`, `hor`, `diagup`, `diagdown`. */
  function AllLines(b: Board): (t: seq<Right>)
    requires Valid(b)
    ensures |t| == 2 * Size + 2 * (2 * Size - 1)
    ensures forall k :: 0 <= k < |t| ==> LineOf(b, t[k])
  {
    seq(19, i requires 0 <= i < 19 => MakeRight(b, Vert, i))
    + seq(19, i requires 0 <= i < 19 => MakeRight(b, Hor, i))
    + seq(37, i requires 0 <= i < 37 => MakeRight(b, DiagUp, i))
    + seq(37, i requires 0 <= i < 37 => MakeRight(b, DiagDown, i))
  }

  /** Every line of every family is among the scanned lines. */
  lemma AllLinesComplete(b: Board, f: Family, i: nat)
    requires Valid(b) && i < Count(f)
    ensures MakeRight(b, f, i) in AllLines(b)
  {
    var t := AllLines(b);
    match f
    case Vert => assert t[i] == MakeRight(b, f, i);
    case Hor => assert t[19 + i] == MakeRight(b, f, i);
    case DiagUp => assert t[38 + i] == MakeRight(b, f, i);
    case DiagDown => assert t[75 + i] == MakeRight(b, f, i);
  }
}
