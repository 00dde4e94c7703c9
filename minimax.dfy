/**
 * The alpha-beta search of src/minimax/mod.rs: decisions ordered by score,
 * the transposition map with its three entry kinds, the two-slot killer
 * table per depth, the candidate order, the recursive search itself and the
 * iterative-deepening driver of src/game/mod.rs.
 *
 * The board hash, the two-argument evaluation, the terminal test and the
 * clock are not part of this model; they are parameters of the
 * `Searcher`. The clock is an oracle `expired(n)` telling whether the time
 * budget is spent when the `n`-th node of the session is entered.
 */
module Minimax {
  import opened Wrappers
  import opened Squares
  import opened BoardState
  import opened Boards

  /** Rust's `i32`; scores are compared, never added, so no wrap-around arises. */
  newtype i32 = x: int | -0x8000_0000 <= x < 0x8000_0000

  const I32Min: i32 := -0x8000_0000
  const I32Max: i32 := 0x7fff_ffff

  /** Rows of the killer table: one per search depth below the deepest iteration. */
  const KillerDepths: nat := 12

  /** A search result: a score and the move it stands for (`None` after a timeout). */
  datatype Decision = Decision(score: i32, pos: Option<Pos>)

  /** How a stored score relates to the true value of the node. */
  datatype TTType = ExactValue | Lowerbound | Upperbound

  datatype TTEntry = TTEntry(score: i32, tttype: TTType, depth: nat)

  // ---------------------------------------------------------------------------
  // Decision ordering
  // ---------------------------------------------------------------------------

  /**
   * `cmp::max(v, decision)` under the score-only `Ord` of `Decision`: the
   * larger score wins, and on a tie the second argument is kept.
   */
  function MaxDecision(v: Decision, d: Decision): (r: Decision)
    ensures r == v || r == d
    ensures r.score >= v.score && r.score >= d.score
    ensures v.score == d.score ==> r == d
  {
    if d.score >= v.score then d else v
  }

  /**
   * `cmp::min(v, decision)`: the smaller score wins, and on a tie the first
   * argument is kept.
   */
  function MinDecision(v: Decision, d: Decision): (r: Decision)
    ensures r == v || r == d
    ensures r.score <= v.score && r.score <= d.score
    ensures v.score == d.score ==> r == v
  {
    if d.score < v.score then d else v
  }

  /** Integer `cmp::max` and `cmp::min` on scores. */
  function MaxScore(a: i32, b: i32): (r: i32)
    ensures r >= a && r >= b && (r == a || r == b)
  {
    if a <= b then b else a
  }

  function MinScore(a: i32, b: i32): (r: i32)
    ensures r <= a && r <= b && (r == a || r == b)
  {
    if a <= b then a else b
  }

  // ---------------------------------------------------------------------------
  // Transposition map
  // ---------------------------------------------------------------------------

  /**
   * The kind a finished node is stored with, against the window it ended
   * with. As written, a score at or below alpha is stored as `Lowerbound`
   * and one at or above beta as `Upperbound`.
   */
  function Kind(value: i32, alpha: i32, beta: i32): (k: TTType)
    ensures k == Lowerbound <==> value <= alpha
    ensures k == Upperbound <==> alpha < value && beta <= value
    ensures k == ExactValue <==> alpha < value < beta
  {
    if value <= alpha then Lowerbound
    else if value >= beta then Upperbound
    else ExactValue
  }

  /** What a look-up in the transposition map decides. */
  datatype ProbeResult =
    | Cutoff(score: i32)             // return this score at once
    | Window(alpha: i32, beta: i32)  // search on with this window

  /**
   * The transposition-map step of `minimax`: an entry at least as deep as the
   * search either settles the node (an exact score, or a window made empty)
   * or narrows the window.
   */
  function Probe(entry: Option<TTEntry>, depth: nat, alpha: i32, beta: i32): (r: ProbeResult)
    ensures r.Cutoff? ==> entry.Some? && entry.value.depth >= depth && r.score == entry.value.score
    ensures entry.Some? && entry.value.depth >= depth && entry.value.tttype == ExactValue ==> r.Cutoff?
    ensures r.Window? ==> alpha <= r.alpha && r.beta <= beta
    ensures r.Window? && entry.Some? && entry.value.depth >= depth ==> r.alpha < r.beta
    ensures r.Window? && (entry.None? || entry.value.depth < depth) ==> r == Window(alpha, beta)
  {
    if entry.Some? && entry.value.depth >= depth then
      var e := entry.value;
      match e.tttype
      case ExactValue => Cutoff(e.score)
      case Lowerbound =>
        var a := if e.score > alpha then e.score else alpha;
        if a >= beta then Cutoff(e.score) else Window(a, beta)
      case Upperbound =>
        var b := if e.score < beta then e.score else beta;
        if alpha >= b then Cutoff(e.score) else Window(alpha, b)
    else Window(alpha, beta)
  }

  /** A `Lowerbound` entry only ever raises alpha, an `Upperbound` entry only ever lowers beta. */
  lemma ProbeMovesOneBound(e: TTEntry, depth: nat, alpha: i32, beta: i32)
    requires e.depth >= depth && Probe(Some(e), depth, alpha, beta).Window?
    ensures var r := Probe(Some(e), depth, alpha, beta);
      && (e.tttype == Lowerbound ==> r.beta == beta && r.alpha == MaxScore(alpha, e.score))
      && (e.tttype == Upperbound ==> r.alpha == alpha && r.beta == MinScore(beta, e.score))
  {
  }

  /**
   * A node settled by its own stored entry, searched again at no greater
   * depth with the window it was stored against, returns the stored score
   * when the entry is exact.
   */
  lemma ExactEntryReused(value: i32, alpha: i32, beta: i32, depth: nat, depth2: nat, alpha2: i32, beta2: i32)
    requires alpha < value < beta && depth2 <= depth
    ensures Probe(Some(TTEntry(value, Kind(value, alpha, beta), depth)), depth2, alpha2, beta2) == Cutoff(value)
  {
  }

  /**
   * The `Lowerbound` kind given, as written, to a score at or below alpha
   * makes that entry inert for the window it came from: probing it again
   * at the same depth and window narrows nothing.
   */
  lemma FailLowEntryInert(value: i32, alpha: i32, beta: i32, depth: nat)
    requires value <= alpha < beta
    ensures Probe(Some(TTEntry(value, Kind(value, alpha, beta), depth)), depth, alpha, beta) == Window(alpha, beta)
  {
  }

  /**
   * The maximizing loop's value: `cmp::max` folded over the children's
   * decisions in order, from `v`. The result is `v` or one of them, and no
   * score is above it.
   */
  function MaxFold(v: Decision, ds: seq<Decision>): Decision
    decreases |ds|
  {
    if ds == [] then v else MaxDecision(MaxFold(v, ds[..|ds| - 1]), ds[|ds| - 1])
  }

  /** The maximizing fold picks `v` or one of the decisions, and no score exceeds it. */
  lemma {:induction false} MaxFoldIsBest(v: Decision, ds: seq<Decision>)
    ensures var r := MaxFold(v, ds);
      && (r == v || r in ds) && r.score >= v.score
      && forall k :: 0 <= k < |ds| ==> r.score >= ds[k].score
    decreases |ds|
  {
    if ds != [] {
      var init := ds[..|ds| - 1];
      MaxFoldIsBest(v, init);
      assert forall k :: 0 <= k < |init| ==> init[k] == ds[k];
    }
  }

  /**
   * The minimizing loop's value: `cmp::min` folded over the children's
   * decisions in order, from `v`. The result is `v` or one of them, and no
   * score is below it.
   */
  function MinFold(v: Decision, ds: seq<Decision>): Decision
    decreases |ds|
  {
    if ds == [] then v else MinDecision(MinFold(v, ds[..|ds| - 1]), ds[|ds| - 1])
  }

  /** The minimizing fold picks `v` or one of the decisions, and no score is below it. */
  lemma {:induction false} MinFoldIsBest(v: Decision, ds: seq<Decision>)
    ensures var r := MinFold(v, ds);
      && (r == v || r in ds) && r.score <= v.score
      && forall k :: 0 <= k < |ds| ==> r.score <= ds[k].score
    decreases |ds|
  {
    if ds != [] {
      var init := ds[..|ds| - 1];
      MinFoldIsBest(v, init);
      assert forall k :: 0 <= k < |init| ==> init[k] == ds[k];
    }
  }

  /** Folding one more decision in is one more `cmp::max`. */
  lemma MaxFoldSnoc(v: Decision, ds: seq<Decision>, d: Decision)
    ensures MaxFold(v, ds + [d]) == MaxDecision(MaxFold(v, ds), d)
  {
    assert (ds + [d])[..|ds|] == ds;
  }

  /** Folding one more decision in is one more `cmp::min`. */
  lemma MinFoldSnoc(v: Decision, ds: seq<Decision>, d: Decision)
    ensures MinFold(v, ds + [d]) == MinDecision(MinFold(v, ds), d)
  {
    assert (ds + [d])[..|ds|] == ds;
  }

  /**
   * The decisions `ds` each answer a legal move of `color` taken from `plays`:
   * they are children that were searched to the end.
   */
  predicate Searched(board: Board, color: Square, plays: seq<Pos>, ds: seq<Decision>)
    requires BoardState.Valid(board)
  {
    forall k :: 0 <= k < |ds| ==> ds[k].pos.Some? && ds[k].pos.value in plays && Legal(board, ds[k].pos, color)
  }

  /** Every move of `ms` is one of `plays` and legal for `color`. */
  predicate LegalMoves(board: Board, color: Square, plays: seq<Pos>, ms: seq<Pos>)
    requires BoardState.Valid(board)
  {
    forall k :: 0 <= k < |ms| ==> ms[k] in plays && Legal(board, Some(ms[k]), color)
  }

  /** A move halted on or searched is a legal move among `plays`. */
  lemma SomeLegal(board: Board, color: Square, plays: seq<Pos>, ms: seq<Pos>, ds: seq<Decision>)
    requires BoardState.Valid(board)
    requires LegalMoves(board, color, plays, ms) && Searched(board, color, plays, ds)
    requires ms != [] || ds != []
    ensures exists k :: 0 <= k < |plays| && Legal(board, Some(plays[k]), color)
  {
    if ms != [] {
      var k :| 0 <= k < |plays| && plays[k] == ms[0];
    } else {
      var k :| 0 <= k < |plays| && Some(plays[k]) == ds[0].pos;
    }
  }

  /** The moves of `ps` that `play_at` accepts for `color`, in their order. */
  function LegalOf(board: Board, color: Square, ps: seq<Pos>): seq<Pos>
    requires BoardState.Valid(board)
  {
    if ps == [] then []
    else
      LegalOf(board, color, ps[..|ps| - 1])
      + (if Legal(board, Some(ps[|ps| - 1]), color) then [ps[|ps| - 1]] else [])
  }

  /** The moves the decisions `ds` carry, in their order. */
  function MovesOf(ds: seq<Decision>): seq<Pos>
  {
    if ds == [] then []
    else MovesOf(ds[..|ds| - 1]) + (if ds[|ds| - 1].pos.Some? then [ds[|ds| - 1].pos.value] else [])
  }

  /** The moves of `ps` whose flag is set, in their order. */
  function Select(ps: seq<Pos>, flags: seq<bool>): seq<Pos>
    requires |flags| == |ps|
  {
    if ps == [] then []
    else Select(ps[..|ps| - 1], flags[..|ps| - 1]) + (if flags[|ps| - 1] then [ps[|ps| - 1]] else [])
  }

  /** `flags[k]` records whether `plays[k]` is legal for `color`. */
  predicate LegalFlags(board: Board, color: Square, plays: seq<Pos>, flags: seq<bool>)
    requires BoardState.Valid(board)
  {
    |flags| <= |plays| && forall k :: 0 <= k < |flags| ==> (flags[k] <==> Legal(board, Some(plays[k]), color))
  }

  lemma LegalFlagsSnoc(board: Board, color: Square, plays: seq<Pos>, flags: seq<bool>, f: bool)
    requires BoardState.Valid(board) && LegalFlags(board, color, plays, flags) && |flags| < |plays|
    requires f <==> Legal(board, Some(plays[|flags|]), color)
    ensures LegalFlags(board, color, plays, flags + [f])
  {
    assert forall k :: 0 <= k < |flags| ==> (flags + [f])[k] == flags[k];
  }

  /** Selecting by the legality flags of a prefix of `plays` keeps its legal moves. */
  lemma {:induction false} SelectLegal(board: Board, color: Square, plays: seq<Pos>, flags: seq<bool>)
    requires BoardState.Valid(board) && LegalFlags(board, color, plays, flags)
    decreases |flags|
    ensures Select(plays[..|flags|], flags) == LegalOf(board, color, plays[..|flags|])
  {
    if flags != [] {
      var n := |flags| - 1;
      assert forall k :: 0 <= k < n ==> flags[..n][k] == flags[k];
      SelectLegal(board, color, plays, flags[..n]);
      assert plays[..|flags|][..n] == plays[..n];
    }
  }

  lemma MovesOfSnoc(ds: seq<Decision>, d: Decision)
    requires d.pos.Some?
    ensures MovesOf(ds + [d]) == MovesOf(ds) + [d.pos.value]
  {
    assert (ds + [d])[..|ds|] == ds;
  }

  /** `LegalOf` never keeps more moves than it is given. */
  lemma {:induction false} LegalOfLength(board: Board, color: Square, ps: seq<Pos>)
    requires BoardState.Valid(board)
    decreases |ps|
    ensures |LegalOf(board, color, ps)| <= |ps|
  {
    if ps != [] {
      LegalOfLength(board, color, ps[..|ps| - 1]);
    }
  }

  /** A move is kept by `LegalOf` if and only if it is one of `ps` and legal for `color`. */
  lemma {:induction false} LegalOfMember(board: Board, color: Square, ps: seq<Pos>, p: Pos)
    requires BoardState.Valid(board)
    decreases |ps|
    ensures p in LegalOf(board, color, ps) <==> p in ps && Legal(board, Some(p), color)
  {
    if ps != [] {
      var init, last := ps[..|ps| - 1], ps[|ps| - 1];
      LegalOfMember(board, color, init, p);
      assert ps == init + [last];
      assert p in ps <==> p in init || p == last;
    }
  }

  /**
   * The bookkeeping of a search loop after `|flags|` of the moves `plays`:
   * `flags` records which of them were legal for `color`, and the moves of
   * the children searched to the end (`seen`), followed by the move whose
   * child timed out (`halted`, else empty), are exactly the legal ones, in
   * their order.
   */
  predicate Tracked(board: Board, color: Square, plays: seq<Pos>, flags: seq<bool>,
                    seen: seq<Decision>, halted: seq<Pos>)
    requires BoardState.Valid(board)
  {
    && LegalFlags(board, color, plays, flags)
    && MovesOf(seen) + halted == Select(plays[..|flags|], flags)
  }

  /** Flagging one more move of `plays` extends the selection by it, when its flag is set. */
  lemma SelectExtend(plays: seq<Pos>, flags: seq<bool>, f: bool)
    requires |flags| < |plays|
    ensures Select(plays[..|flags| + 1], flags + [f]) == Select(plays[..|flags|], flags) + (if f then [plays[|flags|]] else [])
  {
    var n := |flags|;
    var ps, fs := plays[..n + 1], flags + [f];
    assert ps[..n] == plays[..n];
    assert fs[..n] == flags;
  }

  /** An illegal move adds nothing to the bookkeeping but its flag. */
  lemma TrackSkip(board: Board, color: Square, plays: seq<Pos>, flags: seq<bool>, seen: seq<Decision>)
    requires BoardState.Valid(board) && Tracked(board, color, plays, flags, seen, [])
    requires |flags| < |plays| && !Legal(board, Some(plays[|flags|]), color)
    ensures Tracked(board, color, plays, flags + [false], seen, [])
  {
    LegalFlagsSnoc(board, color, plays, flags, false);
    SelectExtend(plays, flags, false);
  }

  /** A legal move whose child timed out becomes the halted move. */
  lemma TrackHalt(board: Board, color: Square, plays: seq<Pos>, flags: seq<bool>, seen: seq<Decision>)
    requires BoardState.Valid(board) && Tracked(board, color, plays, flags, seen, [])
    requires |flags| < |plays| && Legal(board, Some(plays[|flags|]), color)
    ensures Tracked(board, color, plays, flags + [true], seen, [plays[|flags|]])
  {
    LegalFlagsSnoc(board, color, plays, flags, true);
    SelectExtend(plays, flags, true);
  }

  /** A legal move searched to the end joins the searched children. */
  lemma TrackTurn(board: Board, color: Square, plays: seq<Pos>, flags: seq<bool>, seen: seq<Decision>, c: Decision)
    requires BoardState.Valid(board) && Tracked(board, color, plays, flags, seen, [])
    requires |flags| < |plays| && c.pos == Some(plays[|flags|]) && Legal(board, c.pos, color)
    ensures Tracked(board, color, plays, flags + [true], seen + [c], [])
  {
    LegalFlagsSnoc(board, color, plays, flags, true);
    SelectExtend(plays, flags, true);
    MovesOfSnoc(seen, c);
    assert MovesOf(seen) + [] == MovesOf(seen);
    assert MovesOf(seen + [c]) + [] == MovesOf(seen + [c]);
  }

  lemma SearchedSnoc(board: Board, color: Square, plays: seq<Pos>, ds: seq<Decision>, d: Decision)
    requires BoardState.Valid(board) && Searched(board, color, plays, ds)
    requires d.pos.Some? && d.pos.value in plays && Legal(board, d.pos, color)
    ensures Searched(board, color, plays, ds + [d])
  {
    assert forall k :: 0 <= k < |ds| ==> (ds + [d])[k] == ds[k];
  }

  /** Every score in `ds` is below `bound`. */
  predicate AllBelow(ds: seq<Decision>, bound: i32)
  {
    forall k :: 0 <= k < |ds| ==> ds[k].score < bound
  }

  /** Every score in `ds` is above `bound`. */
  predicate AllAbove(ds: seq<Decision>, bound: i32)
  {
    forall k :: 0 <= k < |ds| ==> bound < ds[k].score
  }

  lemma AllBelowSnoc(ds: seq<Decision>, d: Decision, bound: i32)
    requires AllBelow(ds, bound) && d.score < bound
    ensures AllBelow(ds + [d], bound)
  {
    assert forall k :: 0 <= k < |ds| ==> (ds + [d])[k] == ds[k];
  }

  lemma AllAboveSnoc(ds: seq<Decision>, d: Decision, bound: i32)
    requires AllAbove(ds, bound) && bound < d.score
    ensures AllAbove(ds + [d], bound)
  {
    assert forall k :: 0 <= k < |ds| ==> (ds + [d])[k] == ds[k];
  }

  /** Picking one of two decisions for legal moves gives a decision for a legal move. */
  lemma LegalPick(board: Board, color: Square, v: Decision, d: Decision, r: Decision)
    requires BoardState.Valid(board)
    requires v.pos.Some? ==> Legal(board, v.pos, color)
    requires d.pos.Some? && Legal(board, d.pos, color)
    requires r == v || r == d
    ensures r.pos.Some? ==> Legal(board, r.pos, color)
  {
  }

  /**
   * The maximizing loop's value once the children `seen` were searched:
   * `v` is their `cmp::max` fold, alpha the larger of the original alpha
   * and its score, and the move, if any, is legal.
   */
  ghost predicate MaxValue(board: Board, player: Square, alpha: i32, seen: seq<Decision>, v: Decision, a: i32)
    requires BoardState.Valid(board)
  {
    && v == MaxFold(Decision(I32Min, None), seen) && a == MaxScore(alpha, v.score)
    && (v.pos.Some? ==> Legal(board, v.pos, player))
  }

  /** The maximizing loop stops at the first cut-off: no child before the last reached beta. */
  ghost predicate MaxNoEarlyCut(alpha: i32, beta: i32, seen: seq<Decision>)
  {
    |seen| >= 2 ==> alpha < beta && AllBelow(seen[..|seen| - 1], beta)
  }

  /** No cut-off yet in the maximizing loop: alpha, and every child's score, below beta. */
  ghost predicate MaxOpen(alpha: i32, beta: i32, seen: seq<Decision>, a: i32)
  {
    seen != [] ==> a < beta && alpha < beta && AllBelow(seen, beta)
  }

  /**
   * The state of the maximizing loop after `|flags|` of the moves `plays`:
   * the bookkeeping is `Tracked`, alpha never drops, and every searched child
   * is a legal move of the list, none but the last reaching beta. Without a
   * timeout, `v` and `a` are the fold of the searched children; while no
   * cut-off happened, beta is out of reach; a cut-off happened at the last
   * child searched, the last move tried. A timeout hands up
   * `Decision(0, None)` and halts on one legal move.
   */
  ghost predicate MaxState(board: Board, player: Square, alpha: i32, beta: i32, plays: seq<Pos>,
                           flags: seq<bool>, seen: seq<Decision>, halted: seq<Pos>,
                           v: Decision, a: i32, stopped: bool, cut: bool)
    requires BoardState.Valid(board)
  {
    && Tracked(board, player, plays, flags, seen, halted)
    && alpha <= a && Searched(board, player, plays, seen) && MaxNoEarlyCut(alpha, beta, seen)
    && (stopped ==> v == Decision(0, None) && !cut && |halted| == 1 && LegalMoves(board, player, plays, halted))
    && (!stopped ==> halted == [] && MaxValue(board, player, alpha, seen, v, a))
    && (!stopped && !cut ==> MaxOpen(alpha, beta, seen, a))
    && (cut ==> seen != [] && beta <= a && 1 <= |flags| && seen[|seen| - 1].pos == Some(plays[|flags| - 1]))
  }

  /** An illegal move leaves the maximizing loop as it was, one move further on. */
  lemma MaxSkip(board: Board, player: Square, alpha: i32, beta: i32, plays: seq<Pos>,
                flags: seq<bool>, seen: seq<Decision>, v: Decision, a: i32)
    requires BoardState.Valid(board)
    requires MaxState(board, player, alpha, beta, plays, flags, seen, [], v, a, false, false)
    requires |flags| < |plays| && !Legal(board, Some(plays[|flags|]), player)
    ensures MaxState(board, player, alpha, beta, plays, flags + [false], seen, [], v, a, false, false)
  {
    TrackSkip(board, player, plays, flags, seen);
  }

  /** A legal move whose child timed out halts the maximizing loop on it. */
  lemma MaxHalt(board: Board, player: Square, alpha: i32, beta: i32, plays: seq<Pos>,
                flags: seq<bool>, seen: seq<Decision>, v: Decision, a: i32)
    requires BoardState.Valid(board)
    requires MaxState(board, player, alpha, beta, plays, flags, seen, [], v, a, false, false)
    requires |flags| < |plays| && Legal(board, Some(plays[|flags|]), player)
    ensures MaxState(board, player, alpha, beta, plays, flags + [true], seen, [plays[|flags|]],
                     Decision(0, None), a, true, false)
  {
    TrackHalt(board, player, plays, flags, seen);
  }

  /** Folding in one more legal, fully searched child keeps the maximizing loop's value and window. */
  lemma MaxFoldIn(board: Board, player: Square, plays: seq<Pos>, alpha: i32, beta: i32,
                  seen: seq<Decision>, v: Decision, a: i32, c: Decision, v': Decision, a': i32)
    requires BoardState.Valid(board)
    requires MaxValue(board, player, alpha, seen, v, a) && Searched(board, player, plays, seen)
    requires MaxOpen(alpha, beta, seen, a)
    requires c.pos.Some? && c.pos.value in plays && Legal(board, c.pos, player)
    requires v' == MaxDecision(v, c) && a' == MaxScore(a, v'.score)
    ensures MaxValue(board, player, alpha, seen + [c], v', a') && Searched(board, player, plays, seen + [c])
    ensures MaxNoEarlyCut(alpha, beta, seen + [c])
    ensures a' < beta ==> MaxOpen(alpha, beta, seen + [c], a')
  {
    MaxFoldSnoc(Decision(I32Min, None), seen, c);
    SearchedSnoc(board, player, plays, seen, c);
    LegalPick(board, player, v, c, v');
    if a' < beta {
      AllBelowSnoc(seen, c, beta);
    }
    assert (seen + [c])[..|seen|] == seen;
  }

  /**
   * Folding in one more legal, fully searched child keeps the maximizing
   * loop's state, with a cut-off exactly when the new alpha reaches beta.
   */
  lemma MaxTurn(board: Board, player: Square, alpha: i32, beta: i32, plays: seq<Pos>,
                flags: seq<bool>, seen: seq<Decision>, v: Decision, a: i32, c: Decision, v': Decision, a': i32)
    requires BoardState.Valid(board)
    requires MaxState(board, player, alpha, beta, plays, flags, seen, [], v, a, false, false)
    requires |flags| < |plays| && c.pos == Some(plays[|flags|]) && Legal(board, c.pos, player)
    requires v' == MaxDecision(v, c) && a' == MaxScore(a, v'.score)
    ensures MaxState(board, player, alpha, beta, plays, flags + [true], seen + [c], [], v', a', false, beta <= a')
  {
    TrackTurn(board, player, plays, flags, seen, c);
    MaxFoldIn(board, player, plays, alpha, beta, seen, v, a, c, v', a');
    assert (seen + [c])[|seen|] == c;
  }

  /**
   * The minimizing loop's value once the children `seen` were searched:
   * `v` is their `cmp::min` fold, beta the smaller of the original beta and
   * its score, and the move, if any, is legal for the opponent.
   */
  ghost predicate MinValue(board: Board, player: Square, beta: i32, seen: seq<Decision>, v: Decision, b: i32)
    requires BoardState.Valid(board)
  {
    && v == MinFold(Decision(I32Max, None), seen) && b == MinScore(beta, v.score)
    && (v.pos.Some? ==> Legal(board, v.pos, Opposite(player)))
  }

  /** The minimizing loop stops at the first cut-off: no child before the last reached alpha. */
  ghost predicate MinNoEarlyCut(alpha: i32, beta: i32, seen: seq<Decision>)
  {
    |seen| >= 2 ==> alpha < beta && AllAbove(seen[..|seen| - 1], alpha)
  }

  /** No cut-off yet in the minimizing loop: beta, and every child's score, above alpha. */
  ghost predicate MinOpen(alpha: i32, beta: i32, seen: seq<Decision>, b: i32)
  {
    seen != [] ==> alpha < b && alpha < beta && AllAbove(seen, alpha)
  }

  /**
   * The state of the minimizing loop after `|flags|` of the moves `plays`,
   * which the opponent plays: the mirror of `MaxState`, with beta lowered
   * and the cut-off once beta reaches alpha.
   */
  ghost predicate MinState(board: Board, player: Square, alpha: i32, beta: i32, plays: seq<Pos>,
                           flags: seq<bool>, seen: seq<Decision>, halted: seq<Pos>,
                           v: Decision, b: i32, stopped: bool, cut: bool)
    requires BoardState.Valid(board)
  {
    && Tracked(board, Opposite(player), plays, flags, seen, halted)
    && b <= beta && Searched(board, Opposite(player), plays, seen) && MinNoEarlyCut(alpha, beta, seen)
    && (stopped ==> v == Decision(0, None) && !cut && |halted| == 1
                    && LegalMoves(board, Opposite(player), plays, halted))
    && (!stopped ==> halted == [] && MinValue(board, player, beta, seen, v, b))
    && (!stopped && !cut ==> MinOpen(alpha, beta, seen, b))
    && (cut ==> seen != [] && b <= alpha && 1 <= |flags| && seen[|seen| - 1].pos == Some(plays[|flags| - 1]))
  }

  /** An illegal move leaves the minimizing loop as it was, one move further on. */
  lemma MinSkip(board: Board, player: Square, alpha: i32, beta: i32, plays: seq<Pos>,
                flags: seq<bool>, seen: seq<Decision>, v: Decision, b: i32)
    requires BoardState.Valid(board)
    requires MinState(board, player, alpha, beta, plays, flags, seen, [], v, b, false, false)
    requires |flags| < |plays| && !Legal(board, Some(plays[|flags|]), Opposite(player))
    ensures MinState(board, player, alpha, beta, plays, flags + [false], seen, [], v, b, false, false)
  {
    TrackSkip(board, Opposite(player), plays, flags, seen);
  }

  /** A legal move whose child timed out halts the minimizing loop on it. */
  lemma MinHalt(board: Board, player: Square, alpha: i32, beta: i32, plays: seq<Pos>,
                flags: seq<bool>, seen: seq<Decision>, v: Decision, b: i32)
    requires BoardState.Valid(board)
    requires MinState(board, player, alpha, beta, plays, flags, seen, [], v, b, false, false)
    requires |flags| < |plays| && Legal(board, Some(plays[|flags|]), Opposite(player))
    ensures MinState(board, player, alpha, beta, plays, flags + [true], seen, [plays[|flags|]],
                     Decision(0, None), b, true, false)
  {
    TrackHalt(board, Opposite(player), plays, flags, seen);
  }

  /** Folding in one more legal, fully searched child keeps the minimizing loop's value and window. */
  lemma MinFoldIn(board: Board, player: Square, plays: seq<Pos>, alpha: i32, beta: i32,
                  seen: seq<Decision>, v: Decision, b: i32, c: Decision, v': Decision, b': i32)
    requires BoardState.Valid(board)
    requires MinValue(board, player, beta, seen, v, b) && Searched(board, Opposite(player), plays, seen)
    requires MinOpen(alpha, beta, seen, b)
    requires c.pos.Some? && c.pos.value in plays && Legal(board, c.pos, Opposite(player))
    requires v' == MinDecision(v, c) && b' == MinScore(b, v'.score)
    ensures MinValue(board, player, beta, seen + [c], v', b') && Searched(board, Opposite(player), plays, seen + [c])
    ensures MinNoEarlyCut(alpha, beta, seen + [c])
    ensures alpha < b' ==> MinOpen(alpha, beta, seen + [c], b')
  {
    MinFoldSnoc(Decision(I32Max, None), seen, c);
    SearchedSnoc(board, Opposite(player), plays, seen, c);
    LegalPick(board, Opposite(player), v, c, v');
    if alpha < b' {
      AllAboveSnoc(seen, c, alpha);
    }
    assert (seen + [c])[..|seen|] == seen;
  }

  /**
   * Folding in one more legal, fully searched child keeps the minimizing
   * loop's state, with a cut-off exactly when the new beta reaches alpha.
   */
  lemma MinTurn(board: Board, player: Square, alpha: i32, beta: i32, plays: seq<Pos>,
                flags: seq<bool>, seen: seq<Decision>, v: Decision, b: i32, c: Decision, v': Decision, b': i32)
    requires BoardState.Valid(board)
    requires MinState(board, player, alpha, beta, plays, flags, seen, [], v, b, false, false)
    requires |flags| < |plays| && c.pos == Some(plays[|flags|]) && Legal(board, c.pos, Opposite(player))
    requires v' == MinDecision(v, c) && b' == MinScore(b, v'.score)
    ensures MinState(board, player, alpha, beta, plays, flags + [true], seen + [c], [], v', b', false, b' <= alpha)
  {
    TrackTurn(board, Opposite(player), plays, flags, seen, c);
    MinFoldIn(board, player, plays, alpha, beta, seen, v, b, c, v', b');
    assert (seen + [c])[|seen|] == c;
  }

  /** Current colour of a node: the player at maximizing nodes, the opponent otherwise. */
  function Current(player: Square, maximizing: bool): Square
  {
    if maximizing then player else Opposite(player)
  }

  /** The non-`None` slots of a row of the killer table, slot 0 first. */
  function Slots(k0: Option<Pos>, k1: Option<Pos>): (r: seq<Pos>)
    ensures |r| <= 2
    ensures forall p :: p in r <==> k0 == Some(p) || k1 == Some(p)
    ensures k0.Some? ==> r[0] == k0.value
  {
    (if k0.Some? then [k0.value] else []) + (if k1.Some? then [k1.value] else [])
  }

  // ---------------------------------------------------------------------------
  // The searcher
  // ---------------------------------------------------------------------------

  /**
   * The search state: the killer table (`KILLER_MOVES`, updated in place),
   * the transposition map (`ttmap`), and the node counter the clock oracle
   * reads. `hash`, `evaluate`, `isTerminal` and `expired` stand for code
   * this model does not include.
   */
  class Searcher {
    const killers: array2<Option<Pos>>
    var ttmap: map<nat, TTEntry>
    var nodes: nat
    const hash: Board -> nat
    const evaluate: (Board, Square, Square) -> i32
    const isTerminal: Board -> bool
    const expired: nat -> bool

    /** The killer table is 12 by 2 and only ever holds squares of the board. */
    predicate Valid()
      reads this, killers
    {
      killers.Length0 == KillerDepths && killers.Length1 == 2
      && forall r, c :: 0 <= r < KillerDepths && 0 <= c < 2 && killers[r, c].Some? ==>
           InBounds(killers[r, c].value.0, killers[r, c].value.1)
    }

    constructor(hash: Board -> nat, evaluate: (Board, Square, Square) -> i32,
                isTerminal: Board -> bool, expired: nat -> bool)
      ensures Valid() && fresh(killers)
      ensures forall r, c :: 0 <= r < KillerDepths && 0 <= c < 2 ==> killers[r, c] == None
      ensures ttmap == map[] && nodes == 0
      ensures this.hash == hash && this.evaluate == evaluate
      ensures this.isTerminal == isTerminal && this.expired == expired
    {
      killers := new Option<Pos>[KillerDepths, 2]((_, _) => None);
      ttmap := map[];
      nodes := 0;
      this.hash := hash;
      this.evaluate := evaluate;
      this.isTerminal := isTerminal;
      this.expired := expired;
    }

    /** The killer moves recorded for depth `d`, slot 0 first. */
    function KillerMoves(d: nat): seq<Pos>
      reads this, killers
      requires Valid() && d < KillerDepths
    {
      Slots(killers[d, 0], killers[d, 1])
    }

    /** `p` is one of the two killer moves recorded for depth `d`. */
    predicate IsKiller(d: nat, p: Pos)
      reads this, killers
      requires Valid() && d < KillerDepths
    {
      killers[d, 0] == Some(p) || killers[d, 1] == Some(p)
    }

    /** The entry of the transposition map for `board`, if any. */
    function Lookup(board: Board): Option<TTEntry>
      reads this
    {
      if hash(board) in ttmap then Some(ttmap[hash(board)]) else None
    }

    /**
     * `add_killer_move(pos, d)`: the first free slot takes `pos`; once slot 1
     * is taken, slot 0's old move moves down to slot 1 and `pos` takes slot 0.
     * Only row `d` changes.
     */
    method AddKillerMove(pos: Option<Pos>, d: nat)
      requires Valid() && d < KillerDepths
      requires pos.Some? ==> InBounds(pos.value.0, pos.value.1)
      modifies killers
      ensures Valid()
      ensures old(killers[d, 0]).None? && old(killers[d, 1]).None? ==>
        killers[d, 0] == pos && killers[d, 1] == None
      ensures old(killers[d, 0]).Some? && old(killers[d, 1]).None? ==>
        killers[d, 0] == old(killers[d, 0]) && killers[d, 1] == pos
      ensures old(killers[d, 1]).Some? ==>
        killers[d, 0] == pos && killers[d, 1] == old(killers[d, 0])
      ensures forall r, c :: 0 <= r < KillerDepths && r != d && 0 <= c < 2 ==> killers[r, c] == old(killers[r, c])
      ensures pos.Some? ==> pos.value in KillerMoves(d) && IsKiller(d, pos.value)
    {
      match (killers[d, 0], killers[d, 1]) {
        case (None, None) =>
          killers[d, 0] := pos;
        case (Some(_), None) =>
          killers[d, 1] := pos;
        case (old0, Some(_)) =>
          killers[d, 1] := old0;
          killers[d, 0] := pos;
      }
    }

    /**
     * `get_plays` of the search: the killer moves of depth `d`, then the
     * board's candidate moves in their order.
     */
    method GetPlays(board: Board, color: Square, d: nat) returns (v: seq<Pos>)
      requires Valid() && BoardState.Valid(board) && d < KillerDepths
      ensures v == KillerMoves(d) + Dedup(Candidates(board, color))
    {
      v := [];
      match (killers[d, 0], killers[d, 1]) {
        case (None, None) =>
        case (Some(pos), None) =>
          v := v + [pos];
        case (None, Some(pos)) =>
          v := v + [pos];
        case (Some(pos), Some(pos2)) =>
          v := v + [pos, pos2];
      }
      assert v == KillerMoves(d);
      var plays := Boards.GetPlays(board, color);
      v := v + plays;
    }

    /** Store the finished node's score with the kind its final window gives it. */
    method Store(board: Board, value: i32, alpha: i32, beta: i32, depth: nat)
      modifies this
      ensures ttmap == old(ttmap)[hash(board) := TTEntry(value, Kind(value, alpha, beta), depth)]
      ensures nodes == old(nodes)
    {
      ttmap := ttmap[hash(board) := TTEntry(value, Kind(value, alpha, beta), depth)];
    }

    /**
     * `minimax`. Past the clock it returns `Decision(0, None)` untouched; a
     * deep enough map entry may settle it; a leaf is evaluated and stored;
     * other nodes are expanded and stored, a maximizing node as `Lowerbound`
     * and a minimizing one as `Lowerbound` or `Upperbound`. An inner node
     * answers with its own move, or with `Decision(0, None)` after a timeout
     * below it; the root answers with a legal move or `None`. Killer rows
     * from `depth` (maximizing) or `depth + 1` (minimizing) up are left alone.
     */
    method Minimax(board: Board, depth: nat, alpha: i32, beta: i32, maximizing: bool,
                   prevPlay: Option<Pos>, player: Square) returns (d: Decision)
      requires Valid() && BoardState.Valid(board)
      requires depth <= KillerDepths && (maximizing || depth < KillerDepths)
      modifies this, killers
      decreases depth, 4
      ensures Valid()
      ensures expired(old(nodes)) ==> d == Decision(0, None) && ttmap == old(ttmap) && unchanged(killers)
      ensures prevPlay.Some? ==> d.pos == None || d.pos == prevPlay
      ensures prevPlay.Some? && d.pos.None? ==> d == Decision(0, None)
      ensures prevPlay.None? && d.pos.Some? ==> Legal(board, d.pos, Current(player, maximizing))
      ensures forall r, c :: (if maximizing then depth else depth + 1) <= r < KillerDepths && 0 <= c < 2 ==>
        killers[r, c] == old(killers[r, c])
      ensures !expired(old(nodes)) && old(Probe(Lookup(board), depth, alpha, beta)).Cutoff? ==>
        d == Decision(old(Probe(Lookup(board), depth, alpha, beta)).score, prevPlay) && ttmap == old(ttmap)
      ensures !expired(old(nodes)) && old(Probe(Lookup(board), depth, alpha, beta)).Window? ==>
        var w := old(Probe(Lookup(board), depth, alpha, beta));
        && (depth == 0 || isTerminal(board) ==>
              var value := evaluate(board, player, Current(player, maximizing));
              d == Decision(value, prevPlay)
              && ttmap == old(ttmap)[hash(board) := TTEntry(value, Kind(value, w.alpha, w.beta), depth)])
        && (d.pos.Some? ==>
              hash(board) in ttmap && ttmap[hash(board)].score == d.score && ttmap[hash(board)].depth == depth
              && (depth == 0 || isTerminal(board) ||
                  ttmap[hash(board)].tttype == (if maximizing || d.score <= w.alpha then Lowerbound else Upperbound)))
    {
      var color := Current(player, maximizing);
      var now := nodes;
      nodes := nodes + 1;
      if expired(now) {
        return Decision(0, None);
      }
      var probe := Probe(Lookup(board), depth, alpha, beta);
      if probe.Cutoff? {
        return Decision(probe.score, prevPlay);
      }
      var a, b := probe.alpha, probe.beta;
      if depth == 0 || isTerminal(board) {
        var value := evaluate(board, player, color);
        Store(board, value, a, b, depth);
        return Decision(value, prevPlay);
      }
      var plays := GetPlays(board, color, depth - 1);
      ghost var seen, completed, tried;
      if maximizing {
        d, seen, completed, tried := ExpandMax(board, depth, a, b, prevPlay, player, plays);
      } else {
        d, seen, completed, tried := ExpandMin(board, depth, a, b, prevPlay, player, plays);
      }
    }

    /**
     * A maximizing node past its transposition-map step: run the loop, then,
     * unless a child timed out (`completed` false), answer with the best
     * child's score and store it against the raised alpha, which always
     * makes it a `Lowerbound`. No legal child leaves the score at `i32::MIN`.
     * `seen` are the decisions of the children searched to the end.
     */
    method ExpandMax(board: Board, depth: nat, alpha: i32, beta: i32, prevPlay: Option<Pos>,
                     player: Square, plays: seq<Pos>)
      returns (d: Decision, ghost seen: seq<Decision>, ghost completed: bool, ghost tried: nat)
      requires Valid() && BoardState.Valid(board) && 1 <= depth <= KillerDepths
      modifies this, killers
      decreases depth, 3
      ensures Valid()
      ensures !completed ==> d == Decision(0, None)
      ensures completed ==>
        var best := MaxFold(Decision(I32Min, None), seen);
        && d == Decision(best.score, if prevPlay.None? then best.pos else prevPlay)
        && hash(board) in ttmap && ttmap[hash(board)] == TTEntry(d.score, Lowerbound, depth)
      ensures Searched(board, player, plays, seen)
      ensures completed ==>
        && tried <= |plays| && MovesOf(seen) == LegalOf(board, player, plays[..tried])
        && MaxNoEarlyCut(alpha, beta, seen)
      ensures completed && tried < |plays| ==>
        var best := MaxFold(Decision(I32Min, None), seen);
        && 1 <= tried && seen != [] && seen[|seen| - 1].pos == Some(plays[tried - 1])
        && beta <= MaxScore(alpha, best.score)
      ensures prevPlay.Some? ==> d.pos == None || d.pos == prevPlay
      ensures prevPlay.None? && d.pos.Some? ==> Legal(board, d.pos, player)
      ensures forall r, c :: depth <= r < KillerDepths && 0 <= c < 2 ==> killers[r, c] == old(killers[r, c])
      ensures (forall k :: 0 <= k < |plays| ==> !Legal(board, Some(plays[k]), player)) ==>
        completed && seen == [] && d.score == I32Min
        && ttmap == old(ttmap)[hash(board) := TTEntry(I32Min, Lowerbound, depth)]
    {
      var v, a, stopped, cut, t;
      ghost var halted, flags;
      v, a, stopped, cut, seen, t, halted, flags := MaxLoop(board, depth, alpha, beta, player, plays);
      SelectLegal(board, player, plays, flags);
      if halted != [] || seen != [] {
        SomeLegal(board, player, plays, halted, seen);
      }
      completed, tried := !stopped, t;
      if stopped {
        return v, seen, completed, tried;
      }
      var value := v.score;
      Store(board, value, a, beta, depth);
      assert ttmap[hash(board)] == TTEntry(value, Kind(value, a, beta), depth);
      d := Decision(value, if prevPlay.None? then v.pos else prevPlay);
    }

    /**
     * The loop of a maximizing node: legal children in order, each folded in
     * with `cmp::max`, alpha raised to the best score so far. The loop stops
     * at the first cut-off, after recording the best move as a killer at
     * `depth - 1` (`cut`), and otherwise tries every move (`tried` counts
     * them). A child that timed out stops the loop and is handed up
     * (`stopped`); `halted` is then the move it was searched for.
     */
    method MaxLoop(board: Board, depth: nat, alpha: i32, beta: i32, player: Square, plays: seq<Pos>)
      returns (v: Decision, a: i32, stopped: bool, cut: bool, ghost seen: seq<Decision>, tried: nat,
               ghost halted: seq<Pos>, ghost flags: seq<bool>)
      requires Valid() && BoardState.Valid(board) && 1 <= depth <= KillerDepths
      modifies this, killers
      decreases depth, 2
      ensures Valid() && tried <= |plays| && |flags| == tried
      ensures tried == |plays| || stopped || cut
      ensures MaxState(board, player, alpha, beta, plays, flags, seen, halted, v, a, stopped, cut)
      ensures cut && v.pos.Some? ==> IsKiller(depth - 1, v.pos.value)
      ensures !stopped && seen == [] ==> ttmap == old(ttmap)
      ensures forall r, c :: depth <= r < KillerDepths && 0 <= c < 2 ==> killers[r, c] == old(killers[r, c])
    {
      v := Decision(I32Min, None);
      a := alpha;
      stopped := false;
      cut := false;
      seen := [];
      tried := 0;
      halted := [];
      flags := [];
      while tried < |plays| && !stopped && !cut
        invariant Valid() && tried <= |plays| && |flags| == tried
        invariant MaxState(board, player, alpha, beta, plays, flags, seen, halted, v, a, stopped, cut)
        invariant cut && v.pos.Some? ==> IsKiller(depth - 1, v.pos.value)
        invariant !stopped && seen == [] ==> ttmap == old(ttmap)
        invariant forall r, c :: depth <= r < KillerDepths && 0 <= c < 2 ==> killers[r, c] == old(killers[r, c])
        decreases |plays| - tried
      {
        ghost var child;
        v, a, stopped, cut, seen, child, flags, halted :=
          MaxStep(board, depth, alpha, beta, player, plays, flags, plays[tried], v, a, seen);
        tried := tried + 1;
      }
    }

    /**
     * One turn of the maximizing loop on the move `pos`, the next of
     * `plays`. An illegal move changes nothing (`child` is `None`). A child
     * that timed out is handed up as it is. Otherwise the child's decision
     * joins `seen` and is folded in with `cmp::max`, alpha is raised to the
     * best score, and exactly when alpha reaches beta the best move is
     * recorded as a killer at `depth - 1`. The loop's state is kept in every
     * case.
     */
    method MaxStep(board: Board, depth: nat, ghost alpha: i32, beta: i32, player: Square, ghost plays: seq<Pos>,
                   ghost flags: seq<bool>, pos: Pos, v: Decision, a: i32, ghost seen: seq<Decision>)
      returns (v': Decision, a': i32, stopped: bool, cut: bool, ghost seen': seq<Decision>,
               ghost child: Option<Decision>, ghost flags': seq<bool>, ghost halted': seq<Pos>)
      requires Valid() && BoardState.Valid(board) && 1 <= depth <= KillerDepths
      requires |flags| < |plays| && pos == plays[|flags|]
      requires MaxState(board, player, alpha, beta, plays, flags, seen, [], v, a, false, false)
      modifies this, killers
      decreases depth, 1
      ensures Valid() && a <= a'
      ensures child.Some? <==> Legal(board, Some(pos), player)
      ensures child.Some? ==> child.value.pos == None || child.value.pos == Some(pos)
      ensures stopped <==> child.Some? && child.value.pos.None?
      ensures stopped ==> v' == child.value && v' == Decision(0, None) && a' == a && !cut && seen' == seen
      ensures child.Some? && child.value.pos.Some? ==>
        && v' == MaxDecision(v, child.value) && a' == MaxScore(a, v'.score) && (cut <==> beta <= a')
        && seen' == seen + [child.value]
      ensures child.None? ==> v' == v && a' == a && !cut && seen' == seen && ttmap == old(ttmap)
      ensures flags' == flags + [child.Some?] && halted' == (if stopped then [pos] else [])
      ensures MaxState(board, player, alpha, beta, plays, flags', seen', halted', v', a', stopped, cut)
      ensures cut && v'.pos.Some? ==> IsKiller(depth - 1, v'.pos.value)
      ensures forall r, c :: depth <= r < KillerDepths && 0 <= c < 2 ==> killers[r, c] == old(killers[r, c])
    {
      var r := Child(board, depth, a, beta, false, pos, player);
      child := r;
      flags' := flags + [r.Some?];
      v', a', stopped, cut, seen', halted' := v, a, false, false, seen, [];
      if r.None? {
        MaxSkip(board, player, alpha, beta, plays, flags, seen, v, a);
      } else if r.value.pos.None? {
        v', stopped, halted' := r.value, true, [pos];
        MaxHalt(board, player, alpha, beta, plays, flags, seen, v, a);
      } else {
        v', a', cut := MaxAccept(depth, beta, v, r.value, a);
        MaxTurn(board, player, alpha, beta, plays, flags, seen, v, a, r.value, v', a');
        seen' := seen + [r.value];
      }
    }

    /**
     * The rest of a maximizing turn once the child answered with its move:
     * fold the decision in with `cmp::max`, raise alpha to the best score,
     * and exactly when alpha reaches beta record the best move as a killer
     * at `depth - 1`; no other row changes.
     */
    method MaxAccept(depth: nat, beta: i32, v: Decision, decision: Decision, a: i32)
      returns (v': Decision, a': i32, cut: bool)
      requires Valid() && 1 <= depth <= KillerDepths
      requires v.pos.Some? ==> InBounds(v.pos.value.0, v.pos.value.1)
      requires decision.pos.Some? && InBounds(decision.pos.value.0, decision.pos.value.1)
      modifies killers
      ensures Valid()
      ensures v' == MaxDecision(v, decision) && a' == MaxScore(a, v'.score) && (cut <==> beta <= a')
      ensures cut && v'.pos.Some? ==> IsKiller(depth - 1, v'.pos.value)
      ensures !cut ==> unchanged(killers)
      ensures forall r, c :: 0 <= r < KillerDepths && r != depth - 1 && 0 <= c < 2 ==> killers[r, c] == old(killers[r, c])
    {
      v' := MaxDecision(v, decision);
      a' := MaxScore(a, v'.score);
      cut := a' >= beta;
      if cut {
        AddKillerMove(v'.pos, depth - 1);
      }
    }

    /**
     * A minimizing node past its transposition-map step: run the loop, then,
     * unless a child timed out, answer with the best child's score and store
     * it against the lowered beta, which makes it a `Lowerbound` when it is at
     * or below alpha and an `Upperbound` otherwise, never exact. No legal
     * child leaves the score at `i32::MAX`.
     */
    method ExpandMin(board: Board, depth: nat, alpha: i32, beta: i32, prevPlay: Option<Pos>,
                     player: Square, plays: seq<Pos>)
      returns (d: Decision, ghost seen: seq<Decision>, ghost completed: bool, ghost tried: nat)
      requires Valid() && BoardState.Valid(board) && 1 <= depth < KillerDepths
      modifies this, killers
      decreases depth, 3
      ensures Valid()
      ensures !completed ==> d == Decision(0, None)
      ensures completed ==>
        var best := MinFold(Decision(I32Max, None), seen);
        && d == Decision(best.score, if prevPlay.None? then best.pos else prevPlay)
        && hash(board) in ttmap
        && ttmap[hash(board)] == TTEntry(d.score, if d.score <= alpha then Lowerbound else Upperbound, depth)
      ensures Searched(board, Opposite(player), plays, seen)
      ensures completed ==>
        && tried <= |plays| && MovesOf(seen) == LegalOf(board, Opposite(player), plays[..tried])
        && MinNoEarlyCut(alpha, beta, seen)
      ensures completed && tried < |plays| ==>
        var best := MinFold(Decision(I32Max, None), seen);
        && 1 <= tried && seen != [] && seen[|seen| - 1].pos == Some(plays[tried - 1])
        && MinScore(beta, best.score) <= alpha
      ensures prevPlay.Some? ==> d.pos == None || d.pos == prevPlay
      ensures prevPlay.None? && d.pos.Some? ==> Legal(board, d.pos, Opposite(player))
      ensures forall r, c :: depth + 1 <= r < KillerDepths && 0 <= c < 2 ==> killers[r, c] == old(killers[r, c])
      ensures (forall k :: 0 <= k < |plays| ==> !Legal(board, Some(plays[k]), Opposite(player))) ==>
        completed && seen == [] && d.score == I32Max
        && ttmap == old(ttmap)[hash(board) := TTEntry(I32Max, Kind(I32Max, alpha, beta), depth)]
    {
      var v, b, stopped, cut, t;
      ghost var halted, flags;
      v, b, stopped, cut, seen, t, halted, flags := MinLoop(board, depth, alpha, beta, player, plays);
      SelectLegal(board, Opposite(player), plays, flags);
      if halted != [] || seen != [] {
        SomeLegal(board, Opposite(player), plays, halted, seen);
      }
      completed, tried := !stopped, t;
      if stopped {
        return v, seen, completed, tried;
      }
      var value := v.score;
      Store(board, value, alpha, b, depth);
      assert ttmap[hash(board)] == TTEntry(value, Kind(value, alpha, b), depth);
      d := Decision(value, if prevPlay.None? then v.pos else prevPlay);
    }

    /**
     * The loop of a minimizing node: legal children of the opponent in
     * order, each folded in with `cmp::min`, beta lowered to the best score
     * so far. The loop stops at the first cut-off, after recording the best
     * move as a killer at `depth` (not `depth - 1`, as written; `cut`), and
     * otherwise tries every move. A child that timed out stops the loop and
     * is handed up (`stopped`); `halted` is then the move it was searched for.
     */
    method MinLoop(board: Board, depth: nat, alpha: i32, beta: i32, player: Square, plays: seq<Pos>)
      returns (v: Decision, b: i32, stopped: bool, cut: bool, ghost seen: seq<Decision>, tried: nat,
               ghost halted: seq<Pos>, ghost flags: seq<bool>)
      requires Valid() && BoardState.Valid(board) && 1 <= depth < KillerDepths
      modifies this, killers
      decreases depth, 2
      ensures Valid() && tried <= |plays| && |flags| == tried
      ensures tried == |plays| || stopped || cut
      ensures MinState(board, player, alpha, beta, plays, flags, seen, halted, v, b, stopped, cut)
      ensures cut && v.pos.Some? ==> IsKiller(depth, v.pos.value)
      ensures !stopped && seen == [] ==> ttmap == old(ttmap)
      ensures forall r, c :: depth + 1 <= r < KillerDepths && 0 <= c < 2 ==> killers[r, c] == old(killers[r, c])
    {
      v := Decision(I32Max, None);
      b := beta;
      stopped := false;
      cut := false;
      seen := [];
      tried := 0;
      halted := [];
      flags := [];
      while tried < |plays| && !stopped && !cut
        invariant Valid() && tried <= |plays| && |flags| == tried
        invariant MinState(board, player, alpha, beta, plays, flags, seen, halted, v, b, stopped, cut)
        invariant cut && v.pos.Some? ==> IsKiller(depth, v.pos.value)
        invariant !stopped && seen == [] ==> ttmap == old(ttmap)
        invariant forall r, c :: depth + 1 <= r < KillerDepths && 0 <= c < 2 ==> killers[r, c] == old(killers[r, c])
        decreases |plays| - tried
      {
        ghost var child;
        v, b, stopped, cut, seen, child, flags, halted :=
          MinStep(board, depth, alpha, beta, player, plays, flags, plays[tried], v, b, seen);
        tried := tried + 1;
      }
    }

    /**
     * One turn of the minimizing loop on the move `pos`, the next of
     * `plays`, played by the opponent. An illegal move changes nothing. A
     * child that timed out is handed up as it is. Otherwise the child's
     * decision joins `seen` and is folded in with `cmp::min`, beta is
     * lowered to the best score, and exactly when beta reaches alpha the best
     * move is recorded as a killer at `depth` (not `depth - 1`, as written).
     * The loop's state is kept in every case.
     */
    method MinStep(board: Board, depth: nat, alpha: i32, ghost beta: i32, player: Square, ghost plays: seq<Pos>,
                   ghost flags: seq<bool>, pos: Pos, v: Decision, b: i32, ghost seen: seq<Decision>)
      returns (v': Decision, b': i32, stopped: bool, cut: bool, ghost seen': seq<Decision>,
               ghost child: Option<Decision>, ghost flags': seq<bool>, ghost halted': seq<Pos>)
      requires Valid() && BoardState.Valid(board) && 1 <= depth < KillerDepths
      requires |flags| < |plays| && pos == plays[|flags|]
      requires MinState(board, player, alpha, beta, plays, flags, seen, [], v, b, false, false)
      modifies this, killers
      decreases depth, 1
      ensures Valid() && b' <= b
      ensures child.Some? <==> Legal(board, Some(pos), Opposite(player))
      ensures child.Some? ==> child.value.pos == None || child.value.pos == Some(pos)
      ensures stopped <==> child.Some? && child.value.pos.None?
      ensures stopped ==> v' == child.value && v' == Decision(0, None) && b' == b && !cut && seen' == seen
      ensures child.Some? && child.value.pos.Some? ==>
        && v' == MinDecision(v, child.value) && b' == MinScore(b, v'.score) && (cut <==> b' <= alpha)
        && seen' == seen + [child.value]
      ensures child.None? ==> v' == v && b' == b && !cut && seen' == seen && ttmap == old(ttmap)
      ensures flags' == flags + [child.Some?] && halted' == (if stopped then [pos] else [])
      ensures MinState(board, player, alpha, beta, plays, flags', seen', halted', v', b', stopped, cut)
      ensures cut && v'.pos.Some? ==> IsKiller(depth, v'.pos.value)
      ensures forall r, c :: depth + 1 <= r < KillerDepths && 0 <= c < 2 ==> killers[r, c] == old(killers[r, c])
    {
      var r := Child(board, depth, alpha, b, true, pos, player);
      child := r;
      flags' := flags + [r.Some?];
      v', b', stopped, cut, seen', halted' := v, b, false, false, seen, [];
      if r.None? {
        MinSkip(board, player, alpha, beta, plays, flags, seen, v, b);
      } else if r.value.pos.None? {
        v', stopped, halted' := r.value, true, [pos];
        MinHalt(board, player, alpha, beta, plays, flags, seen, v, b);
      } else {
        v', b', cut := MinAccept(depth, alpha, v, r.value, b);
        MinTurn(board, player, alpha, beta, plays, flags, seen, v, b, r.value, v', b');
        seen' := seen + [r.value];
      }
    }

    /**
     * The rest of a minimizing turn once the child answered with its move:
     * fold the decision in with `cmp::min`, lower beta to the best score,
     * and exactly when beta reaches alpha record the best move as a killer
     * at `depth` (not `depth - 1`, as written); no other row changes.
     */
    method MinAccept(depth: nat, alpha: i32, v: Decision, decision: Decision, b: i32)
      returns (v': Decision, b': i32, cut: bool)
      requires Valid() && 1 <= depth < KillerDepths
      requires v.pos.Some? ==> InBounds(v.pos.value.0, v.pos.value.1)
      requires decision.pos.Some? && InBounds(decision.pos.value.0, decision.pos.value.1)
      modifies killers
      ensures Valid()
      ensures v' == MinDecision(v, decision) && b' == MinScore(b, v'.score) && (cut <==> b' <= alpha)
      ensures cut && v'.pos.Some? ==> IsKiller(depth, v'.pos.value)
      ensures !cut ==> unchanged(killers)
      ensures forall r, c :: 0 <= r < KillerDepths && r != depth && 0 <= c < 2 ==> killers[r, c] == old(killers[r, c])
    {
      v' := MinDecision(v, decision);
      b' := MinScore(b, v'.score);
      cut := b' <= alpha;
      if cut {
        AddKillerMove(v'.pos, depth);
      }
    }

    /**
     * One child of a node at `depth`: play `pos` for the colour to move
     * (`Move::Legal` or not) and, when legal, search the resulting board one
     * ply shallower with the other side to move. `childMaximizing` is the
     * kind of the child node. A child answers with `pos` or, after a
     * timeout, with `Decision(0, None)`.
     */
    method Child(board: Board, depth: nat, alpha: i32, beta: i32, childMaximizing: bool,
                 pos: Pos, player: Square) returns (r: Option<Decision>)
      requires Valid() && BoardState.Valid(board) && 1 <= depth <= KillerDepths
      requires childMaximizing ==> depth < KillerDepths
      modifies this, killers
      decreases depth, 0
      ensures Valid()
      ensures r.Some? <==> Legal(board, Some(pos), Current(player, !childMaximizing))
      ensures r.Some? ==> r.value.pos == Some(pos) || r.value == Decision(0, None)
      ensures r.None? ==> ttmap == old(ttmap) && unchanged(killers)
      ensures forall r, c :: (if childMaximizing then depth + 1 else depth) <= r < KillerDepths && 0 <= c < 2 ==>
        killers[r, c] == old(killers[r, c])
    {
      var child := PlayAt(board, Some(pos), Current(player, !childMaximizing));
      if child.None? {
        return None;
      }
      var decision := Minimax(child.value, depth - 1, alpha, beta, childMaximizing, Some(pos), player);
      return Some(decision);
    }

    /**
     * `get_input_ai`: deepen from 1 to 12 plies and keep the last move found
     * before the clock ran out. Whatever it proposes is a legal move.
     */
    method GetInputAi(board: Board, player: Square) returns (prevValue: Option<Pos>)
      requires Valid() && BoardState.Valid(board)
      modifies this, killers
      ensures Valid()
      ensures prevValue.Some? ==> Legal(board, prevValue, player)
    {
      prevValue := None;
      for depth := 1 to KillerDepths + 1
        invariant Valid()
        invariant prevValue.Some? ==> Legal(board, prevValue, player)
      {
        var value := Minimax(board, depth, I32Min, I32Max, true, None, player);
        if value.pos == None {
          break;
        }
        prevValue := value.pos;
      }
    }
  }
}
