/**
 * The imperative scorer for one term: it fills the cell table and the end and
 * predecessor tables of FzfAlign row by row in arrays, picks the best end, and
 * walks the recorded predecessors back to emit the positions, last one first.
 */
module FzfTable {
  import opened Wrappers
  import opened FzfScoring
  import opened FzfAlign

  /** The tables have one row per term character and one column per text character. */
  predicate Shapes(t: seq<char>, q: seq<char>, cell: array3<Option<int>>,
                   end: array2<Option<int>>, endArg: array2<nat>,
                   before: array2<Option<int>>, beforeArg: array2<nat>)
  {
    cell.Length0 == |q| && cell.Length1 == |t| && cell.Length2 == |q| &&
    end.Length0 == |q| && end.Length1 == |t| &&
    endArg.Length0 == |q| && endArg.Length1 == |t| &&
    before.Length0 == |q| && before.Length1 == |t| &&
    beforeArg.Length0 == |q| && beforeArg.Length1 == |t| &&
    end != before && endArg != beforeArg
  }

  /** Every entry of the cell table before (i, j, L) in row-major order holds Cell. */
  predicate CellsBelow(t: seq<char>, q: seq<char>, cell: array3<Option<int>>, i: nat, j: nat, L: nat)
    reads cell
  {
    cell.Length0 == |q| && cell.Length1 == |t| && cell.Length2 == |q| &&
    forall a, b, c ::
      0 <= a < |q| && 0 <= b < |t| && 0 <= c < |q| && (a < i || (a == i && (b < j || (b == j && c < L)))) ==>
      cell[a, b, c] == Cell(t, q, a, b, c)
  }

  /** Every entry of the end tables before (i, j) in row-major order holds End and ArgEnd. */
  predicate EndsBelow(t: seq<char>, q: seq<char>, end: array2<Option<int>>, endArg: array2<nat>, i: nat, j: nat)
    reads end, endArg
  {
    end.Length0 == |q| && end.Length1 == |t| && endArg.Length0 == |q| && endArg.Length1 == |t| &&
    forall a, b :: 0 <= a < |q| && 0 <= b < |t| && (a < i || (a == i && b < j)) ==>
      end[a, b] == End(t, q, a, b) && (end[a, b].Some? ==> endArg[a, b] == ArgEnd(t, q, a, b))
  }

  /** Every entry of the predecessor tables before (i, j) in row-major order holds Before and ArgBefore. */
  predicate BeforeBelow(t: seq<char>, q: seq<char>, before: array2<Option<int>>, beforeArg: array2<nat>, i: nat, j: nat)
    reads before, beforeArg
  {
    before.Length0 == |q| && before.Length1 == |t| && beforeArg.Length0 == |q| && beforeArg.Length1 == |t| &&
    forall a, b :: 0 <= a < |q| && 0 <= b < |t| && (a < i || (a == i && b < j)) ==>
      before[a, b] == Before(t, q, a, b) && (before[a, b].Some? ==> beforeArg[a, b] == ArgBefore(t, q, a, b))
  }

  /** The value of one cell, read off the row above and the predecessor table. */
  method CellAt(t: seq<char>, q: seq<char>, i: nat, j: nat, L: nat, cell: array3<Option<int>>,
                before: array2<Option<int>>, beforeArg: array2<nat>) returns (v: Option<int>)
    requires i < |q| && j < |t| && L < |q|
    requires CellsBelow(t, q, cell, i, 0, 0) && BeforeBelow(t, q, before, beforeArg, i, 0)
    ensures v == Cell(t, q, i, j, L)
  {
    if L > i || L > j || t[j] != q[i] {
      v := None;
    } else if L > 0 {
      if BreaksRun(t, j) {
        v := None;
      } else {
        var run := cell[i - 1, j - 1, L - 1];
        v := if run.None? then None
             else Some(run.value + ScoreMatch + Max(Max(Bonus(t, j), BonusConsecutive), Bonus(t, j - L)));
      }
    } else if i == 0 {
      v := Some(ScoreMatch + Bonus(t, j) * BonusFirstCharMultiplier);
    } else {
      var b := before[i - 1, j];
      v := if b.None? then None else Some(b.value + ScoreMatch + Bonus(t, j));
    }
  }

  /** Fills row i of the cell table. */
  method FillCells(t: seq<char>, q: seq<char>, i: nat, cell: array3<Option<int>>,
                   before: array2<Option<int>>, beforeArg: array2<nat>)
    requires i < |q| && CellsBelow(t, q, cell, i, 0, 0) && BeforeBelow(t, q, before, beforeArg, i, 0)
    modifies cell
    ensures CellsBelow(t, q, cell, i + 1, 0, 0)
  {
    for j := 0 to |t|
      invariant CellsBelow(t, q, cell, i, j, 0)
    {
      for L := 0 to |q|
        invariant CellsBelow(t, q, cell, i, j, L)
      {
        var v := CellAt(t, q, i, j, L, cell, before, beforeArg);
        cell[i, j, L] := v;
      }
    }
  }

  /** The best cell of column j in row i and the run length it has, scanning the runs upwards. */
  method EndAt(t: seq<char>, q: seq<char>, i: nat, j: nat, cell: array3<Option<int>>)
    returns (best: Option<int>, arg: nat)
    requires i < |q| && j < |t| && CellsBelow(t, q, cell, i + 1, 0, 0)
    ensures best == End(t, q, i, j) && (best.Some? ==> arg == ArgEnd(t, q, i, j))
  {
    best, arg := None, 0;
    for L := 0 to |q|
      invariant best == UpTo(t, q, i, j, L) && (best.Some? ==> arg == ArgUpTo(t, q, i, j, L))
    {
      var v := cell[i, j, L];
      if Beats(v, best) {
        best, arg := v, L;
      }
    }
    UpToBeyond(t, q, i, j, |q|);
  }

  /** Fills row i of the end tables. */
  method FillEnds(t: seq<char>, q: seq<char>, i: nat, cell: array3<Option<int>>,
                  end: array2<Option<int>>, endArg: array2<nat>)
    requires i < |q| && CellsBelow(t, q, cell, i + 1, 0, 0) && EndsBelow(t, q, end, endArg, i, 0)
    modifies end, endArg
    ensures EndsBelow(t, q, end, endArg, i + 1, 0)
  {
    for j := 0 to |t|
      invariant EndsBelow(t, q, end, endArg, i, j)
    {
      var best, arg := EndAt(t, q, i, j, cell);
      end[i, j], endArg[i, j] := best, arg;
    }
  }

  /** One more earlier end enters Gapped, and becomes its argument when it is at least as good. */
  lemma GappedStep(t: seq<char>, q: seq<char>, i: nat, j: nat, k: nat)
    requires k + 1 < j
    ensures Gapped(t, q, i, j, k + 1) == MaxOpt(Gapped(t, q, i, j, k), Shift(End(t, q, i, k), j - 1 - k))
    ensures Gapped(t, q, i, j, k + 1).Some? ==>
      ArgGapped(t, q, i, j, k + 1) ==
        if Beats(Shift(End(t, q, i, k), j - 1 - k), Gapped(t, q, i, j, k)) then k else ArgGapped(t, q, i, j, k)
  {
  }

  /** Gapped(t, q, i, j, j - 1) and its argument, scanning the earlier ends of row i. */
  method GappedAt(t: seq<char>, q: seq<char>, i: nat, j: nat, end: array2<Option<int>>, endArg: array2<nat>)
    returns (g: Option<int>, ga: nat)
    requires i < |q| && 0 < j < |t| && EndsBelow(t, q, end, endArg, i + 1, 0)
    ensures g == Gapped(t, q, i, j, j - 1) && (g.Some? ==> ga == ArgGapped(t, q, i, j, j - 1))
  {
    g, ga := None, 0;
    for k := 0 to j - 1
      invariant g == Gapped(t, q, i, j, k) && (g.Some? ==> ga == ArgGapped(t, q, i, j, k))
    {
      var e := end[i, k];
      assert e == End(t, q, i, k);
      GappedStep(t, q, i, j, k);
      var candidate := Shift(e, j - 1 - k);
      if Beats(candidate, g) {
        g, ga := candidate, k;
      }
    }
  }

  /** Before(t, q, i, j) and its argument: the gapped predecessor, or the adjacent end where t[j] breaks the run. */
  method BeforeAt(t: seq<char>, q: seq<char>, i: nat, j: nat, end: array2<Option<int>>, endArg: array2<nat>)
    returns (b: Option<int>, arg: nat)
    requires i < |q| && j < |t| && EndsBelow(t, q, end, endArg, i + 1, 0)
    ensures b == Before(t, q, i, j) && (b.Some? ==> arg == ArgBefore(t, q, i, j))
  {
    if j == 0 {
      return None, 0;
    }
    var g, ga := GappedAt(t, q, i, j, end, endArg);
    if BreaksRun(t, j) && Beats(end[i, j - 1], g) {
      b, arg := end[i, j - 1], j - 1;
    } else {
      b, arg := g, ga;
    }
  }

  /** Fills row i of the predecessor tables. */
  method FillBefore(t: seq<char>, q: seq<char>, i: nat, end: array2<Option<int>>, endArg: array2<nat>,
                    before: array2<Option<int>>, beforeArg: array2<nat>)
    requires end != before && endArg != beforeArg
    requires i < |q| && EndsBelow(t, q, end, endArg, i + 1, 0) && BeforeBelow(t, q, before, beforeArg, i, 0)
    modifies before, beforeArg
    ensures BeforeBelow(t, q, before, beforeArg, i + 1, 0)
  {
    for j := 0 to |t|
      invariant BeforeBelow(t, q, before, beforeArg, i, j)
    {
      var b, arg := BeforeAt(t, q, i, j, end, endArg);
      before[i, j], beforeArg[i, j] := b, arg;
    }
  }

  /** The argument tables record ArgEnd and ArgBefore wherever End and Before are reachable. */
  predicate ArgsRecorded(t: seq<char>, q: seq<char>, endArg: array2<nat>, beforeArg: array2<nat>)
    reads endArg, beforeArg
  {
    endArg.Length0 == |q| && endArg.Length1 == |t| && beforeArg.Length0 == |q| && beforeArg.Length1 == |t| &&
    (forall a, b :: 0 <= a < |q| && 0 <= b < |t| && End(t, q, a, b).Some? ==> endArg[a, b] == ArgEnd(t, q, a, b)) &&
    (forall a, b :: 0 <= a < |q| && 0 <= b < |t| && Before(t, q, a, b).Some? ==> beforeArg[a, b] == ArgBefore(t, q, a, b))
  }

  /** Fills row i of every table: the cells, then the ends, then the predecessors. */
  method FillRow(t: seq<char>, q: seq<char>, i: nat, cell: array3<Option<int>>, end: array2<Option<int>>,
                 endArg: array2<nat>, before: array2<Option<int>>, beforeArg: array2<nat>)
    requires end != before && endArg != beforeArg
    requires i < |q| && CellsBelow(t, q, cell, i, 0, 0) && EndsBelow(t, q, end, endArg, i, 0)
    requires BeforeBelow(t, q, before, beforeArg, i, 0)
    modifies cell, end, endArg, before, beforeArg
    ensures CellsBelow(t, q, cell, i + 1, 0, 0) && EndsBelow(t, q, end, endArg, i + 1, 0)
    ensures BeforeBelow(t, q, before, beforeArg, i + 1, 0)
  {
    FillCells(t, q, i, cell, before, beforeArg);
    FillEnds(t, q, i, cell, end, endArg);
    FillBefore(t, q, i, end, endArg, before, beforeArg);
  }

  /** Allocates and fills every table for one term. */
  method FillTables(t: seq<char>, q: seq<char>)
    returns (end: array2<Option<int>>, endArg: array2<nat>, beforeArg: array2<nat>)
    requires |q| > 0
    ensures EndsBelow(t, q, end, endArg, |q|, 0) && ArgsRecorded(t, q, endArg, beforeArg)
  {
    var m, n := |q|, |t|;
    var cell := new Option<int>[m, n, m];
    end := new Option<int>[m, n];
    endArg := new nat[m, n];
    var before := new Option<int>[m, n];
    beforeArg := new nat[m, n];
    for i := 0 to m
      invariant CellsBelow(t, q, cell, i, 0, 0) && EndsBelow(t, q, end, endArg, i, 0)
      invariant BeforeBelow(t, q, before, beforeArg, i, 0)
    {
      FillRow(t, q, i, cell, end, endArg, before, beforeArg);
    }
  }

  /** The cell the traceback moves to from (i, j, L), read off the recorded arguments. */
  method StepBack(t: seq<char>, q: seq<char>, i: nat, j: nat, L: nat,
                  endArg: array2<nat>, beforeArg: array2<nat>) returns (j': nat, L': nat)
    requires i > 0 && Cell(t, q, i, j, L).Some?
    requires ArgsRecorded(t, q, endArg, beforeArg)
    ensures Cell(t, q, i - 1, j', L').Some?
    ensures Trace(t, q, i, j, L) == Trace(t, q, i - 1, j', L') + [j]
  {
    CellInRange(t, q, i, j, L);
    if L > 0 {
      TraceInRun(t, q, i, j, L);
      j', L' := j - 1, L - 1;
    } else {
      TraceAtStart(t, q, i, j);
      j' := beforeArg[i - 1, j];
      L' := endArg[i - 1, j'];
    }
  }

  /** The walk back from a reachable cell through the recorded predecessors. */
  method TraceBack(t: seq<char>, q: seq<char>, i0: nat, j0: nat, L0: nat,
                   endArg: array2<nat>, beforeArg: array2<nat>) returns (positions: seq<nat>)
    requires Cell(t, q, i0, j0, L0).Some?
    requires ArgsRecorded(t, q, endArg, beforeArg)
    ensures positions == Reverse(Trace(t, q, i0, j0, L0))
  {
    var i, j, L := i0, j0, L0;
    positions := [];
    while i > 0
      invariant Cell(t, q, i, j, L).Some?
      invariant positions + Reverse(Trace(t, q, i, j, L)) == Reverse(Trace(t, q, i0, j0, L0))
      decreases i
    {
      var j', L' := StepBack(t, q, i, j, L, endArg, beforeArg);
      EmitLast(positions, Reverse(Trace(t, q, i0, j0, L0)), Trace(t, q, i, j, L), Trace(t, q, i - 1, j', L'), j);
      positions := positions + [j];
      i, j, L := i - 1, j', L';
    }
    assert Reverse(Trace(t, q, i, j, L)) == [j];
    positions := positions + [j];
  }

  /** One more end position enters Final, and becomes its argument only when strictly better. */
  lemma FinalStep(t: seq<char>, q: seq<char>, j: nat)
    requires |q| > 0
    ensures Final(t, q, j + 1) == MaxOpt(Final(t, q, j), End(t, q, |q| - 1, j))
    ensures Final(t, q, j + 1).Some? ==>
      FirstBest(t, q, j + 1) ==
        if StrictlyBeats(End(t, q, |q| - 1, j), Final(t, q, j)) then j else FirstBest(t, q, j)
  {
  }

  /** Row a of the end table holds End. */
  predicate RowEnds(t: seq<char>, q: seq<char>, end: array2<Option<int>>, a: nat)
    reads end
  {
    end.Length0 == |q| && end.Length1 == |t| && a < |q| &&
    forall b :: 0 <= b < |t| ==> end[a, b] == End(t, q, a, b)
  }

  /** The best end of the last row and its earliest position, scanning the row left to right. */
  method BestEnd(t: seq<char>, q: seq<char>, end: array2<Option<int>>)
    returns (best: Option<int>, bestEnd: nat)
    requires |q| > 0 && RowEnds(t, q, end, |q| - 1)
    ensures best == Final(t, q, |t|) && (best.Some? ==> bestEnd == FirstBest(t, q, |t|))
  {
    best, bestEnd := None, 0;
    for j := 0 to |t|
      invariant best == Final(t, q, j) && (best.Some? ==> bestEnd == FirstBest(t, q, j))
    {
      var e := end[|q| - 1, j];
      FinalStep(t, q, j);
      if StrictlyBeats(e, best) {
        best, bestEnd := e, j;
      }
    }
  }

  /**
   * Scores one case-folded term against a case-folded text: the best score of a
   * placement, and the positions of the placement chosen by the tie rules, last
   * one first; None and no positions when the term cannot be placed.
   */
  method AlignTerm(t: seq<char>, q: seq<char>) returns (score: Option<int>, positions: seq<nat>)
    requires |q| > 0
    ensures score == Final(t, q, |t|)
    ensures score.Some? ==> positions == Reverse(Best(t, q))
    ensures score.None? ==> positions == []
  {
    var end, endArg, beforeArg := FillTables(t, q);
    var bestEnd;
    score, bestEnd := BestEnd(t, q, end);
    positions := [];
    if score.Some? {
      positions := TraceBack(t, q, |q| - 1, bestEnd, endArg[|q| - 1, bestEnd], endArg, beforeArg);
    }
  }

  lemma ReverseSnoc(s: seq<nat>, x: nat)
    ensures Reverse(s + [x]) == [x] + Reverse(s)
  {
    assert (s + [x])[..|s|] == s;
  }

  /** Emitting the last position of what remains of a traceback keeps the output a prefix of the whole. */
  lemma EmitLast(out: seq<nat>, whole: seq<nat>, rest: seq<nat>, rest': seq<nat>, j: nat)
    requires out + Reverse(rest) == whole && rest == rest' + [j]
    ensures (out + [j]) + Reverse(rest') == whole
  {
    ReverseSnoc(rest', j);
    assert out + ([j] + Reverse(rest')) == (out + [j]) + Reverse(rest');
  }
}
