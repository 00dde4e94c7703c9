/**
 * The board value of src/board/board.rs: the grid, the two capture counters,
 * the constructor, the score accessor, the text parser (`From<&str>`) and the
 * grid rows of the `Display` rendering.
 */
module BoardState {
  import opened Squares

  /** Side length of the grid. */
  const Size: nat := 19

  /** A coordinate pair `(x, y)`: `x` selects the row of `state`, `y` the square in it. */
  type Pos = (nat, nat)

  /** Rust's `Board`; the value is cloned, never shared, so a datatype models it. */
  datatype Board = Board(state: seq<seq<Square>>, bCapture: nat, wCapture: nat)

  /** A board the rule engine can index without panicking: 19 rows of 19 squares. */
  predicate Valid(b: Board)
  {
    |b.state| == Size && forall i :: 0 <= i < Size ==> |b.state[i]| == Size
  }

  predicate InBounds(x: int, y: int)
  {
    0 <= x < Size && 0 <= y < Size
  }

  function At(b: Board, x: int, y: int): Square
    requires Valid(b) && InBounds(x, y)
  {
    b.state[x][y]
  }

  /** The board with square `(x, y)` overwritten, as `board.state[x][y] = s` does. */
  function Put(b: Board, x: int, y: int, s: Square): (r: Board)
    requires Valid(b) && InBounds(x, y)
    ensures Valid(r) && r.bCapture == b.bCapture && r.wCapture == b.wCapture
    ensures forall i, j :: InBounds(i, j) ==> At(r, i, j) == if i == x && j == y then s else At(b, i, j)
  {
    b.(state := b.state[x := b.state[x][y := s]])
  }

  /** `Board::new`: an empty 19 by 19 grid and no captures. */
  function New(): (r: Board)
    ensures Valid(r) && r.bCapture == 0 && r.wCapture == 0
    ensures forall i, j :: InBounds(i, j) ==> At(r, i, j) == Empty
  {
    Board(seq(Size, _ => seq(Size, _ => Empty)), 0, 0)
  }

  /** `get_score`: the number of stones `color` has captured. */
  function GetScore(b: Board, color: Square): (r: int)
    ensures r >= 0
    ensures color == Empty ==> r == 0
    ensures color != Empty ==> r == (if color == Black then b.bCapture else b.wCapture)
  {
    match color
    case White => b.wCapture
    case Black => b.bCapture
    case Empty => 0
  }

  // ---------------------------------------------------------------------------
  // Text form
  // ---------------------------------------------------------------------------

  /** The pieces of `rows` glued back together with a newline between neighbours. */
  function Join(rows: seq<string>): string
    requires |rows| >= 1
  {
    if |rows| == 1 then rows[0] else rows[0] + "\n" + Join(rows[1..])
  }

  /**
   * Rust's `s.split('\n')`: the maximal newline-free pieces of `s`, one more
   * than there are newlines.
   */
  function Split(s: string): (r: seq<string>)
    ensures |r| >= 1
    ensures forall k :: 0 <= k < |r| ==> '\n' !in r[k]
  {
    if |s| == 0 then [""]
    else
      var rest := Split(s[1..]);
      if s[0] == '\n' then [""] + rest
      else [[s[0]] + rest[0]] + rest[1..]
  }

  /** One piece per newline, plus one. */
  lemma {:induction false} SplitCount(s: string)
    ensures |Split(s)| == multiset(s)['\n'] + 1
  {
    if |s| > 0 {
      SplitCount(s[1..]);
      assert s == [s[0]] + s[1..];
      assert multiset(s) == multiset([s[0]]) + multiset(s[1..]);
    }
  }

  /** Joining the pieces again gives the text back. */
  lemma {:induction false} JoinSplit(s: string)
    ensures Join(Split(s)) == s
  {
    if |s| > 0 {
      JoinSplit(s[1..]);
      var rest := Split(s[1..]);
      if s[0] == '\n' {
        assert Join([""] + rest) == "" + "\n" + Join(rest);
      } else {
        var r := [[s[0]] + rest[0]] + rest[1..];
        if |rest| > 1 {
          assert Join(rest) == rest[0] + "\n" + Join(rest[1..]);
          assert r[1..] == rest[1..];
          assert Join(r) == ([s[0]] + rest[0]) + "\n" + Join(rest[1..]);
        }
        assert Join(r) == s;
      }
    }
  }

  /** Splitting newline-free pieces joined by newlines gives exactly those pieces. */
  lemma {:induction false} SplitJoin(rows: seq<string>)
    requires |rows| >= 1
    requires forall k :: 0 <= k < |rows| ==> '\n' !in rows[k]
    ensures Split(Join(rows)) == rows
    decreases |Join(rows)|
  {
    if |rows[0]| == 0 {
      if |rows| > 1 {
        var tail := Join(rows[1..]);
        assert Join(rows) == "\n" + tail;
        SplitJoin(rows[1..]);
        assert Join(rows)[1..] == tail;
        assert rows == [""] + rows[1..];
      }
    } else {
      var c := rows[0][0];
      var rows' := [rows[0][1..]] + rows[1..];
      assert rows'[1..] == rows[1..];
      assert rows[0] == [c] + rows[0][1..];
      JoinCons(rows, rows');
      NewlineFreeTail(rows, rows');
      assert c != '\n' by { assert c in rows[0]; }
      SplitJoin(rows');
      assert Join(rows)[1..] == Join(rows');
    }
  }

  lemma JoinCons(rows: seq<string>, rows': seq<string>)
    requires |rows| >= 1 && |rows[0]| >= 1
    requires rows' == [rows[0][1..]] + rows[1..]
    ensures Join(rows) == [rows[0][0]] + Join(rows')
  {
    assert rows[0] == [rows[0][0]] + rows[0][1..];
    if |rows| > 1 {
      assert rows'[1..] == rows[1..];
      assert Join(rows') == rows[0][1..] + "\n" + Join(rows[1..]);
    }
  }

  lemma NewlineFreeTail(rows: seq<string>, rows': seq<string>)
    requires |rows| >= 1 && |rows[0]| >= 1
    requires rows' == [rows[0][1..]] + rows[1..]
    requires forall k :: 0 <= k < |rows| ==> '\n' !in rows[k]
    ensures forall k :: 0 <= k < |rows'| ==> '\n' !in rows'[k]
  {
    forall k | 0 <= k < |rows'| ensures '\n' !in rows'[k] {
      if k == 0 {
        assert forall ch :: ch in rows[0][1..] ==> ch in rows[0];
      } else {
        assert rows'[k] == rows[k];
      }
    }
  }

  /** The square a character of the text form stands for: `B`, `W`, anything else empty. */
  function SquareOfChar(c: char): Square
  {
    if c == 'B' then Black else if c == 'W' then White else Empty
  }

  /**
   * `From<&str> for Board`: one row per newline-separated line of the text,
   * each character mapped to a square, both counters at zero.
   */
  function Parse(s: string): (r: Board)
    ensures r.bCapture == 0 && r.wCapture == 0
    ensures |r.state| == |Split(s)|
    ensures forall k :: 0 <= k < |r.state| ==> r.state[k] == ParseRow(Split(s)[k])
  {
    var lines := Split(s);
    Board(seq(|lines|, k requires 0 <= k < |lines| => ParseRow(lines[k])), 0, 0)
  }

  function ParseRow(line: string): (row: seq<Square>)
    ensures |row| == |line|
    ensures forall j :: 0 <= j < |line| ==> row[j] == SquareOfChar(line[j])
  {
    seq(|line|, j requires 0 <= j < |line| => SquareOfChar(line[j]))
  }

  /** The character `Display` prints for a square. */
  function DisplayChar(s: Square): char
  {
    match s
    case Empty => '_'
    case Black => 'B'
    case White => 'W'
  }

  function RowText(row: seq<Square>): (t: string)
    ensures |t| == |row|
    ensures forall j :: 0 <= j < |row| ==> t[j] == DisplayChar(row[j])
  {
    seq(|row|, j requires 0 <= j < |row| => DisplayChar(row[j]))
  }

  /** The grid part of `Display`: every row rendered and followed by a newline. */
  function GridText(rows: seq<seq<Square>>): string
  {
    if rows == [] then "" else RowText(rows[0]) + "\n" + GridText(rows[1..])
  }

  lemma {:induction false} GridTextIsJoin(rows: seq<seq<Square>>)
    ensures GridText(rows) == Join(seq(|rows|, k requires 0 <= k < |rows| => RowText(rows[k])) + [""])
  {
    var texts := seq(|rows|, k requires 0 <= k < |rows| => RowText(rows[k]));
    if rows != [] {
      GridTextIsJoin(rows[1..]);
      var texts' := seq(|rows[1..]|, k requires 0 <= k < |rows[1..]| => RowText(rows[1..][k]));
      assert (texts + [""])[1..] == texts' + [""];
    }
  }

  /**
   * Parsing the rendered grid gives back every row of the board, followed by
   * the empty row that the final newline leaves behind.
   */
  lemma ParseGridText(b: Board)
    ensures Parse(GridText(b.state)).state == b.state + [[]]
  {
    var rows := b.state;
    var texts := seq(|rows|, k requires 0 <= k < |rows| => RowText(rows[k])) + [""];
    GridTextIsJoin(rows);
    forall k | 0 <= k < |texts| ensures '\n' !in texts[k] {
      if k < |rows| {
        forall j | 0 <= j < |texts[k]| ensures texts[k][j] != '\n' {
          assert texts[k][j] == DisplayChar(rows[k][j]);
        }
      }
    }
    SplitJoin(texts);
    var r := Parse(GridText(rows)).state;
    assert |r| == |rows| + 1;
    forall k | 0 <= k < |rows| ensures r[k] == rows[k] {
      assert r[k] == ParseRow(texts[k]);
      forall j | 0 <= j < |rows[k]| ensures r[k][j] == rows[k][j] {
        assert texts[k][j] == DisplayChar(rows[k][j]);
      }
    }
    assert r[|rows|] == ParseRow("") == [];
    assert r == rows + [[]];
  }
}
