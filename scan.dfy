/**
 * The three template scanners of src/board/check.rs (`five_aligned_capture`,
 * `check_threats`, `check_capture_pos`): every extracted line is searched
 * for every template, and the first occurrence of a template contributes the
 * coordinates of its listed offsets.
 */
module Scan {
  import opened Wrappers
  import opened Squares
  import opened BoardState
  import opened Lines

  /** A line template and the offsets inside it that the scanner reports. */
  datatype Template = Template(pattern: seq<char>, offsets: seq<nat>)

  predicate WellFormed(ts: seq<Template>)
  {
    forall j, k :: 0 <= j < |ts| && 0 <= k < |ts[j].offsets| ==> ts[j].offsets[k] < |ts[j].pattern|
  }

  /** What one template contributes on one line: its offsets past the first occurrence. */
  function Hits(r: Right, t: Template): (h: seq<Pos>)
    requires Shaped(r)
    requires forall k :: 0 <= k < |t.offsets| ==> t.offsets[k] < |t.pattern|
  {
    match Find(r.data, t.pattern)
    case None => []
    case Some(o) => HitList(r, t, o, |t.offsets|)
  }

  /** The positions of the first `n` offsets of `t`, counted from `o` along the line. */
  function HitList(r: Right, t: Template, o: nat, n: nat): (h: seq<Pos>)
    requires Shaped(r) && n <= |t.offsets|
    requires forall k :: 0 <= k < |t.offsets| ==> t.offsets[k] + o < |r.data|
    ensures |h| == n
  {
    if n == 0 then [] else HitList(r, t, o, n - 1) + [Fun(r.family, r.index, t.offsets[n - 1] + o)]
  }

  /** Entry `k` of the list is the position of offset `k`. */
  lemma {:induction false} HitListAt(r: Right, t: Template, o: nat, n: nat, k: nat)
    requires Shaped(r) && k < n <= |t.offsets|
    requires forall k :: 0 <= k < |t.offsets| ==> t.offsets[k] + o < |r.data|
    ensures HitList(r, t, o, n)[k] == Fun(r.family, r.index, t.offsets[k] + o)
  {
    var m := n - 1;
    if k < m {
      HitListAt(r, t, o, m, k);
    }
  }

  /** What the first `n` templates contribute on one line, in table order. */
  function LineHits(r: Right, ts: seq<Template>, n: nat): seq<Pos>
    requires Shaped(r)
    requires WellFormed(ts) && n <= |ts|
  {
    if n == 0 then [] else LineHits(r, ts, n - 1) + Hits(r, ts[n - 1])
  }

  /** What the templates contribute on all lines, line by line. */
  function AllHits(rs: seq<Right>, ts: seq<Template>): seq<Pos>
    requires forall q :: 0 <= q < |rs| ==> Shaped(rs[q])
    requires WellFormed(ts)
  {
    if rs == [] then [] else AllHits(rs[..|rs| - 1], ts) + LineHits(rs[|rs| - 1], ts, |ts|)
  }

  /** The nested `for right in t { for (pattern, vec) in p { ... } }` loops of the scanners. */
  method ScanLines(rs: seq<Right>, ts: seq<Template>) returns (pos: seq<Pos>)
    requires forall q :: 0 <= q < |rs| ==> Shaped(rs[q])
    requires WellFormed(ts)
    ensures pos == AllHits(rs, ts)
  {
    pos := [];
    for a := 0 to |rs|
      invariant pos == AllHits(rs[..a], ts)
    {
      pos := ScanLine(pos, rs[a], ts);
      assert rs[..a + 1][..a] == rs[..a];
    }
    assert rs[..|rs|] == rs;
  }

  /** The body of the outer loop: every template searched on one line, in table order. */
  method ScanLine(pos0: seq<Pos>, right: Right, ts: seq<Template>) returns (pos: seq<Pos>)
    requires Shaped(right) && WellFormed(ts)
    ensures pos == pos0 + LineHits(right, ts, |ts|)
  {
    pos := pos0;
    for c := 0 to |ts|
      invariant pos == pos0 + LineHits(right, ts, c)
    {
      LineHitsStep(right, ts, c);
      var done, hits := LineHits(right, ts, c), Hits(right, ts[c]);
      pos := ScanTemplate(pos, right, ts[c]);
      assert pos0 + done + hits == pos0 + (done + hits);
    }
  }

  /** The body of the inner loop: one template searched on one line. */
  method ScanTemplate(pos0: seq<Pos>, right: Right, t: Template) returns (pos: seq<Pos>)
    requires Shaped(right)
    requires forall k :: 0 <= k < |t.offsets| ==> t.offsets[k] < |t.pattern|
    ensures pos == pos0 + Hits(right, t)
  {
    var found := Find(right.data, t.pattern);
    if found.Some? {
      pos := PushHits(pos0, right, t, found.value);
    } else {
      pos := pos0;
      assert pos0 + Hits(right, t) == pos0;
    }
  }

  /** One more template searched on a line adds what that template contributes. */
  lemma LineHitsStep(r: Right, ts: seq<Template>, c: nat)
    requires Shaped(r) && WellFormed(ts) && c < |ts|
    ensures LineHits(r, ts, c + 1) == LineHits(r, ts, c) + Hits(r, ts[c])
  {
    var n := c + 1;
    assert n - 1 == c;
  }

  /** The innermost loop: `for i in vec { pos.push((right.fun)(i + offset)) }`. */
  method PushHits(pos0: seq<Pos>, right: Right, t: Template, offset: nat) returns (pos: seq<Pos>)
    requires Shaped(right)
    requires forall k :: 0 <= k < |t.offsets| ==> t.offsets[k] < |t.pattern|
    requires Find(right.data, t.pattern) == Some(offset)
    ensures pos == pos0 + Hits(right, t)
  {
    pos := pos0;
    for k := 0 to |t.offsets|
      invariant pos == pos0 + HitList(right, t, offset, k)
    {
      var done, next := HitList(right, t, offset, k), Fun(right.family, right.index, t.offsets[k] + offset);
      pos := pos + [next];
      assert HitList(right, t, offset, k + 1) == done + [next];
      assert pos0 + done + [next] == pos0 + (done + [next]);
    }
  }

  // ---------------------------------------------------------------------------
  // What a reported position holds
  // ---------------------------------------------------------------------------

  /** `p` holds the character that offset `k` of template `j` expects there. */
  predicate Produced(b: Board, p: Pos, ts: seq<Template>, j: int, k: int)
    requires Valid(b) && InBounds(p.0, p.1)
  {
    0 <= j < |ts| && 0 <= k < |ts[j].offsets| && ts[j].offsets[k] < |ts[j].pattern|
    && ToChar(At(b, p.0, p.1), '-') == ts[j].pattern[ts[j].offsets[k]]
  }

  /** The `k`-th position a template contributes is the line's square `v`, which holds offset `k`'s character. */
  lemma HitIndex(r: Right, t: Template, k: nat) returns (v: nat)
    requires Shaped(r)
    requires forall k :: 0 <= k < |t.offsets| ==> t.offsets[k] < |t.pattern|
    requires k < |Hits(r, t)|
    ensures v < |r.data| && Hits(r, t)[k] == Fun(r.family, r.index, v)
    ensures r.data[v] == t.pattern[t.offsets[k]]
  {
    var o := Find(r.data, t.pattern).value;
    var off := t.offsets[k];
    v := o + off;
    assert OccursAt(r.data, t.pattern, o);
    assert r.data[o..o + |t.pattern|][off] == r.data[v];
    HitListAt(r, t, o, |t.offsets|, k);
  }

  /** The `k`-th position a template contributes on a line holds the template's character there. */
  lemma HitAt(b: Board, r: Right, t: Template, k: nat)
    requires LineOf(b, r)
    requires forall k :: 0 <= k < |t.offsets| ==> t.offsets[k] < |t.pattern|
    requires k < |Hits(r, t)|
    ensures InBounds(Hits(r, t)[k].0, Hits(r, t)[k].1)
    ensures ToChar(At(b, Hits(r, t)[k].0, Hits(r, t)[k].1), '-') == t.pattern[t.offsets[k]]
  {
    var v := HitIndex(r, t, k);
    var p := Fun(r.family, r.index, v);
    assert r.data[v] == ToChar(At(b, p.0, p.1), '-');
  }

  lemma HitsProduced(b: Board, r: Right, ts: seq<Template>, j: nat, p: Pos)
    requires LineOf(b, r) && WellFormed(ts) && j < |ts|
    requires p in Hits(r, ts[j])
    ensures InBounds(p.0, p.1) && exists k :: Produced(b, p, ts, j, k)
  {
    var k :| 0 <= k < |Hits(r, ts[j])| && Hits(r, ts[j])[k] == p;
    HitAt(b, r, ts[j], k);
    assert |Hits(r, ts[j])| == |ts[j].offsets|;
    assert Produced(b, p, ts, j, k);
  }

  lemma {:induction false} LineHitsProduced(b: Board, r: Right, ts: seq<Template>, n: nat, p: Pos)
    requires LineOf(b, r) && WellFormed(ts) && n <= |ts|
    requires p in LineHits(r, ts, n)
    ensures InBounds(p.0, p.1) && exists j, k :: Produced(b, p, ts, j, k)
  {
    var m := n - 1;
    if p in LineHits(r, ts, m) {
      LineHitsProduced(b, r, ts, m, p);
    } else {
      HitsProduced(b, r, ts, m, p);
    }
  }

  /**
   * Every position a scanner reports lies on the board and holds the
   * character that its template has at the reported offset.
   */
  lemma {:induction false} AllHitsProduced(b: Board, rs: seq<Right>, ts: seq<Template>, p: Pos)
    requires Valid(b)
    requires forall q :: 0 <= q < |rs| ==> LineOf(b, rs[q]) && Shaped(rs[q])
    requires WellFormed(ts) && p in AllHits(rs, ts)
    ensures InBounds(p.0, p.1) && exists j, k :: Produced(b, p, ts, j, k)
  {
    var last := rs[|rs| - 1];
    if p in AllHits(rs[..|rs| - 1], ts) {
      AllHitsProduced(b, rs[..|rs| - 1], ts, p);
    } else {
      LineHitsProduced(b, last, ts, |ts|, p);
    }
  }

  /** Whatever a template contributes on one of the lines appears in the scanner's output. */
  lemma {:induction false} HitsInAllHits(rs: seq<Right>, ts: seq<Template>, q: nat, j: nat)
    requires forall q :: 0 <= q < |rs| ==> Shaped(rs[q])
    requires WellFormed(ts) && q < |rs| && j < |ts|
    ensures forall p :: p in Hits(rs[q], ts[j]) ==> p in AllHits(rs, ts)
  {
    if q < |rs| - 1 {
      assert rs[..|rs| - 1][q] == rs[q];
      HitsInAllHits(rs[..|rs| - 1], ts, q, j);
    } else {
      forall p | p in Hits(rs[q], ts[j]) ensures p in AllHits(rs, ts) {
        LineHitsContain(rs[q], ts, |ts|, j, p);
      }
    }
  }

  lemma {:induction false} LineHitsContain(r: Right, ts: seq<Template>, n: nat, j: nat, p: Pos)
    requires Shaped(r)
    requires WellFormed(ts) && j < n <= |ts| && p in Hits(r, ts[j])
    ensures p in LineHits(r, ts, n)
  {
    var m := n - 1;
    LineHitsStep(r, ts, m);
    var prev, last := LineHits(r, ts, m), Hits(r, ts[m]);
    if j < m {
      LineHitsContain(r, ts, m, j, p);
      assert p in prev;
    } else {
      assert p in last;
    }
    assert p in prev + last;
  }

  // ---------------------------------------------------------------------------
  // The three scanners
  // ---------------------------------------------------------------------------

  /** `five_aligned_capture`'s templates: a pair bracketed on one side only. */
  const CaptureRisk: seq<Template> := [
    Template("BWW-", [1, 2]), Template("-WWB", [1, 2]),
    Template("WBB-", [1, 2]), Template("-BBW", [1, 2])]

  /** `check_threats`'s templates, as written (note `WWWW-W` reporting offset 3). */
  const ThreatTable: seq<Template> := [
    Template("WWWW-", [4]), Template("BBBB-", [4]),
    Template("WWWW-W", [3]), Template("BBBB-B", [3]),
    Template("WW-WW", [2]), Template("BB-BB", [2]),
    Template("W-WWW", [1]), Template("B-BBB", [1]),
    Template("-WWWW", [0]), Template("-BBBB", [0]),
    Template("--WWW", [1]), Template("--BBB", [1]),
    Template("WWW--", [3]), Template("BBB--", [3]),
    Template("-WWW-", [0, 4]), Template("-BBB-", [0, 4]),
    Template("W-WW-", [1, 4]), Template("B-BB-", [1, 4]),
    Template("-WW-W", [3, 0]), Template("-BB-B", [3, 0])]

  /** `check_capture_pos`'s templates: the gap next to a pair bracketed on the other side. */
  const CaptureMoves: seq<Template> := [
    Template("BWW-", [3]), Template("WBB-", [3]),
    Template("-WWB", [0]), Template("-BBW", [0])]

  function FiveAlignedCaptureOf(b: Board): (pos: seq<Pos>)
    requires Valid(b)
    ensures forall p :: p in pos ==> InBounds(p.0, p.1)
  {
    AllHitsInBounds(b, AllLines(b), CaptureRisk);
    AllHits(AllLines(b), CaptureRisk)
  }

  function ThreatsOf(b: Board): seq<Pos>
    requires Valid(b)
  {
    AllHits(AllLines(b), ThreatTable)
  }

  function CapturePosOf(b: Board): seq<Pos>
    requires Valid(b)
  {
    AllHits(AllLines(b), CaptureMoves)
  }

  method FiveAlignedCapture(b: Board) returns (pos: seq<Pos>)
    requires Valid(b)
    ensures pos == AllHits(AllLines(b), CaptureRisk)
  {
    pos := ScanLines(AllLines(b), CaptureRisk);
  }

  method CheckThreats(b: Board) returns (pos: seq<Pos>)
    requires Valid(b)
    ensures pos == AllHits(AllLines(b), ThreatTable)
  {
    pos := ScanLines(AllLines(b), ThreatTable);
  }

  method CheckCapturePos(b: Board) returns (pos: seq<Pos>)
    requires Valid(b)
    ensures pos == AllHits(AllLines(b), CaptureMoves)
  {
    pos := ScanLines(AllLines(b), CaptureMoves);
  }

  /** Every position a scan reports is on the board. */
  lemma AllHitsInBounds(b: Board, rs: seq<Right>, ts: seq<Template>)
    requires Valid(b) && WellFormed(ts) && forall q :: 0 <= q < |rs| ==> LineOf(b, rs[q]) && Shaped(rs[q])
    ensures forall p :: p in AllHits(rs, ts) ==> InBounds(p.0, p.1)
  {
    forall p | p in AllHits(rs, ts) ensures InBounds(p.0, p.1) {
      AllHitsProduced(b, rs, ts, p);
    }
  }

  /** Every template of `ts` expects at least one stone. */
  predicate NamesStone(ts: seq<Template>)
  {
    forall j :: 0 <= j < |ts| ==> 'B' in ts[j].pattern || 'W' in ts[j].pattern
  }

  /** A line without stones matches no template that expects one. */
  lemma {:induction false} LineHitsOfBlankLine(r: Right, ts: seq<Template>, n: nat)
    requires Shaped(r) && WellFormed(ts) && NamesStone(ts) && n <= |ts|
    requires 'B' !in r.data && 'W' !in r.data
    ensures LineHits(r, ts, n) == []
  {
    if n > 0 {
      var m := n - 1;
      LineHitsStep(r, ts, m);
      LineHitsOfBlankLine(r, ts, m);
      var t := ts[m];
      assert 'B' in t.pattern || 'W' in t.pattern;
      var k :| 0 <= k < |t.pattern| && t.pattern[k] in "BW";
      NotFoundWithoutChar(r.data, t.pattern, k);
      assert Hits(r, t) == [];
    }
  }

  lemma {:induction false} AllHitsOfBlankLines(rs: seq<Right>, ts: seq<Template>)
    requires forall q :: 0 <= q < |rs| ==> Shaped(rs[q]) && 'B' !in rs[q].data && 'W' !in rs[q].data
    requires WellFormed(ts) && NamesStone(ts)
    ensures AllHits(rs, ts) == []
  {
    if rs != [] {
      AllHitsOfBlankLines(rs[..|rs| - 1], ts);
      LineHitsOfBlankLine(rs[|rs| - 1], ts, |ts|);
    }
  }

  /** Every template of the three scanners names a stone. */
  lemma TablesNameStones()
    ensures WellFormed(CaptureRisk) && NamesStone(CaptureRisk)
    ensures WellFormed(ThreatTable) && NamesStone(ThreatTable)
    ensures WellFormed(CaptureMoves) && NamesStone(CaptureMoves)
  {
    ThreatTableNamesStones();
  }

  lemma ThreatTableNamesStones()
    ensures WellFormed(ThreatTable) && NamesStone(ThreatTable)
  {
    forall j | 0 <= j < |ThreatTable|
      ensures 'B' in ThreatTable[j].pattern || 'W' in ThreatTable[j].pattern
    {
      var t := ThreatTable[j];
      assert t.pattern[1] in "BW" || t.pattern[2] in "BW";
    }
  }

  /** On a board without stones (the new board, say) no scan reports anything. */
  lemma BlankBoardScansNothing(b: Board, ts: seq<Template>)
    requires Valid(b) && forall i, j :: InBounds(i, j) ==> At(b, i, j) == Empty
    requires WellFormed(ts) && NamesStone(ts)
    ensures AllHits(AllLines(b), ts) == []
  {
    var rs := AllLines(b);
    forall q | 0 <= q < |rs| ensures Shaped(rs[q]) && 'B' !in rs[q].data && 'W' !in rs[q].data {
      assert forall v :: 0 <= v < |rs[q].data| ==> rs[q].data[v] == '-';
    }
    AllHitsOfBlankLines(rs, ts);
  }

  /** Every position `check_capture_pos` reports is an empty square on the board. */
  lemma CapturePosEmpty(b: Board)
    requires Valid(b)
    ensures forall p :: p in CapturePosOf(b) ==> InBounds(p.0, p.1) && At(b, p.0, p.1) == Empty
  {
    forall p | p in CapturePosOf(b) ensures InBounds(p.0, p.1) && At(b, p.0, p.1) == Empty {
      AllHitsProduced(b, AllLines(b), CaptureMoves, p);
    }
  }

  /** Every square `five_aligned_capture` reports holds a stone (one of the bracketed pair). */
  lemma FiveAlignedCaptureStones(b: Board)
    requires Valid(b)
    ensures forall p :: p in FiveAlignedCaptureOf(b) ==> InBounds(p.0, p.1) && At(b, p.0, p.1) != Empty
  {
    forall p | p in FiveAlignedCaptureOf(b) ensures InBounds(p.0, p.1) && At(b, p.0, p.1) != Empty {
      AllHitsProduced(b, AllLines(b), CaptureRisk, p);
      var j, k :| Produced(b, p, CaptureRisk, j, k);
      CaptureRiskStones(j, k);
    }
  }

  /** Every offset of `five_aligned_capture`'s templates lands on a stone of the pair. */
  lemma CaptureRiskStones(j: nat, k: nat)
    requires j < |CaptureRisk| && k < |CaptureRisk[j].offsets|
    ensures CaptureRisk[j].offsets[k] < |CaptureRisk[j].pattern|
    ensures CaptureRisk[j].pattern[CaptureRisk[j].offsets[k]] in "BW"
  {
  }

  /**
   * Every threat position is an empty square, except those reported by the
   * templates `WWWW-W` and `BBBB-B`, whose offset 3 lands on a stone.
   */
  lemma ThreatsEmptyExceptFourGapOne(b: Board)
    requires Valid(b)
    ensures forall p :: p in ThreatsOf(b) ==> InBounds(p.0, p.1)
    ensures forall p :: p in ThreatsOf(b) && At(b, p.0, p.1) != Empty ==>
      exists k :: Produced(b, p, ThreatTable, 2, k) || Produced(b, p, ThreatTable, 3, k)
  {
    forall p | p in ThreatsOf(b) ensures InBounds(p.0, p.1) && (At(b, p.0, p.1) != Empty ==>
      exists k :: Produced(b, p, ThreatTable, 2, k) || Produced(b, p, ThreatTable, 3, k))
    {
      AllHitsProduced(b, AllLines(b), ThreatTable, p);
      var j, k :| Produced(b, p, ThreatTable, j, k);
      ThreatTableGaps(j, k);
    }
  }

  /** All threat templates but `WWWW-W` and `BBBB-B` report squares where they expect a gap. */
  lemma ThreatTableGaps(j: nat, k: nat)
    requires j < |ThreatTable| && k < |ThreatTable[j].offsets|
    ensures ThreatTable[j].offsets[k] < |ThreatTable[j].pattern|
    ensures j != 2 && j != 3 ==> ThreatTable[j].pattern[ThreatTable[j].offsets[k]] == '-'
  {
  }

  /**
   * As written, a line holding `WWWW-W` makes `check_threats` report the
   * fourth White stone of it, an occupied square.
   */
  lemma ThreatOnOccupiedSquare(b: Board, q: nat, o: nat)
    requires Valid(b) && q < |AllLines(b)|
    requires Find(AllLines(b)[q].data, "WWWW-W") == Some(o)
    ensures var r := AllLines(b)[q];
      var p := Fun(r.family, r.index, o + 3);
      p in ThreatsOf(b) && At(b, p.0, p.1) == White
  {
    var r := AllLines(b)[q];
    var p := Fun(r.family, r.index, o + 3);
    assert ThreatTable[2].pattern == "WWWW-W";
    assert Hits(r, ThreatTable[2]) == [p];
    HitsInAllHits(AllLines(b), ThreatTable, q, 2);
    assert r.data[o..o + 6][3] == 'W';
  }
}
