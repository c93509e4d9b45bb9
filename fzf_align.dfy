/**
 * The alignment of one case-folded term q against a case-folded text t, as a
 * dynamic programme over cells (i, j, L): q[i] is placed on t[j], and the
 * consecutive run that ends there started L positions earlier, at t[j - L].
 * The tables are specified here as recursive functions; FzfMatcher fills them
 * with loops. The lemmas prove that the programme finds the best placement.
 */
module FzfAlign {
  import opened Wrappers
  import opened FzfScoring

  function Min(a: nat, b: nat): nat { if a <= b then a else b }

  /** The larger of two optional scores; an absent score loses to any present one. */
  function MaxOpt(a: Option<int>, b: Option<int>): (r: Option<int>)
    ensures r == a || r == b
    ensures r.Some? <==> a.Some? || b.Some?
    ensures a.Some? ==> r.Some? && r.value >= a.value
    ensures b.Some? ==> r.Some? && r.value >= b.value
  {
    if a.None? then b
    else if b.None? then a
    else if a.value >= b.value then a
    else b
  }

  /** a is present and not below b. */
  predicate Beats(a: Option<int>, b: Option<int>)
  {
    a.Some? && (b.None? || a.value >= b.value)
  }

  /** a is present and strictly above b. */
  predicate StrictlyBeats(a: Option<int>, b: Option<int>)
  {
    a.Some? && (b.None? || a.value > b.value)
  }

  function Shift(o: Option<int>, g: nat): Option<int>
  {
    match o
    case None => None
    case Some(x) => Some(AfterGap(x, g))
  }

  // ------------------------------------------------------------ the tables

  /**
   * Cell(t, q, i, j, L): the best score of a placement of q[..i+1] that puts q[i]
   * on t[j] inside a consecutive run starting at t[j - L]; None if there is none.
   */
  function Cell(t: seq<char>, q: seq<char>, i: nat, j: nat, L: nat): Option<int>
    decreases i, 0, 0
  {
    if i >= |q| || j >= |t| || L > i || L > j || t[j] != q[i] then None
    else if L > 0 then
      if BreaksRun(t, j) then None
      else match Cell(t, q, i - 1, j - 1, L - 1)
        case None => None
        case Some(x) => Some(x + ScoreMatch + Max(Max(Bonus(t, j), BonusConsecutive), Bonus(t, j - L)))
    else if i == 0 then Some(ScoreMatch + Bonus(t, j) * BonusFirstCharMultiplier)
    else match Before(t, q, i - 1, j)
      case None => None
      case Some(x) => Some(x + ScoreMatch + Bonus(t, j))
  }

  /** The best of Cell(t, q, i, j, L) over L < c. */
  function UpTo(t: seq<char>, q: seq<char>, i: nat, j: nat, c: nat): Option<int>
    decreases i, 1, c
  {
    if c == 0 then None else MaxOpt(UpTo(t, q, i, j, c - 1), Cell(t, q, i, j, c - 1))
  }

  /** End(t, q, i, j): the best score of a placement of q[..i+1] that puts q[i] on t[j]. */
  function End(t: seq<char>, q: seq<char>, i: nat, j: nat): Option<int>
    decreases i, 2, 0
  {
    UpTo(t, q, i, j, Min(i, j) + 1)
  }

  /** The best of End(t, q, i, j') shifted by the gap up to j, over j' < k (k < j). */
  function Gapped(t: seq<char>, q: seq<char>, i: nat, j: nat, k: nat): Option<int>
    requires k < j
    decreases i, 3, k
  {
    if k == 0 then None
    else MaxOpt(Gapped(t, q, i, j, k - 1), Shift(End(t, q, i, k - 1), j - k))
  }

  /**
   * Before(t, q, i, j): the best score of a placement of q[..i+1] after which a new
   * run can start at t[j]: one that ends before t[j - 1], across a gap, or one that
   * ends at t[j - 1] when t[j] breaks the run.
   */
  function Before(t: seq<char>, q: seq<char>, i: nat, j: nat): Option<int>
    decreases i, 4, 0
  {
    if j == 0 then None
    else
      var gapped := Gapped(t, q, i, j, j - 1);
      if j < |t| && BreaksRun(t, j) then MaxOpt(gapped, End(t, q, i, j - 1)) else gapped
  }

  /** The best of End(t, q, |q| - 1, j) over j < c. */
  function Final(t: seq<char>, q: seq<char>, c: nat): Option<int>
    requires |q| > 0
  {
    if c == 0 then None else MaxOpt(Final(t, q, c - 1), End(t, q, |q| - 1, c - 1))
  }

  // ------------------------------------------------------ chosen arguments

  /** The run length that realises UpTo; on a tie the longer run. */
  function ArgUpTo(t: seq<char>, q: seq<char>, i: nat, j: nat, c: nat): (L: nat)
    requires UpTo(t, q, i, j, c).Some?
    ensures L < c && Cell(t, q, i, j, L) == UpTo(t, q, i, j, c)
  {
    if Beats(Cell(t, q, i, j, c - 1), UpTo(t, q, i, j, c - 1)) then c - 1
    else ArgUpTo(t, q, i, j, c - 1)
  }

  function ArgEnd(t: seq<char>, q: seq<char>, i: nat, j: nat): (L: nat)
    requires End(t, q, i, j).Some?
    ensures L <= i && L <= j && Cell(t, q, i, j, L) == End(t, q, i, j)
  {
    ArgUpTo(t, q, i, j, Min(i, j) + 1)
  }

  /** The predecessor position that realises Gapped; on a tie the nearer one. */
  function ArgGapped(t: seq<char>, q: seq<char>, i: nat, j: nat, k: nat): (j': nat)
    requires k < j && Gapped(t, q, i, j, k).Some?
    ensures j' < k && Shift(End(t, q, i, j'), j - 1 - j') == Gapped(t, q, i, j, k)
  {
    if Beats(Shift(End(t, q, i, k - 1), j - k), Gapped(t, q, i, j, k - 1)) then k - 1
    else ArgGapped(t, q, i, j, k - 1)
  }

  /** The predecessor position that realises Before; on a tie the adjacent one. */
  function ArgBefore(t: seq<char>, q: seq<char>, i: nat, j: nat): (j': nat)
    requires Before(t, q, i, j).Some?
    ensures j' < j && Shift(End(t, q, i, j'), j - 1 - j') == Before(t, q, i, j)
    ensures j' == j - 1 ==> j < |t| && BreaksRun(t, j)
  {
    var gapped := Gapped(t, q, i, j, j - 1);
    if j < |t| && BreaksRun(t, j) && Beats(End(t, q, i, j - 1), gapped) then j - 1
    else ArgGapped(t, q, i, j, j - 1)
  }

  /** The end position that realises Final; on a tie the earliest one. */
  function FirstBest(t: seq<char>, q: seq<char>, c: nat): (j: nat)
    requires |q| > 0 && Final(t, q, c).Some?
    ensures j < c && End(t, q, |q| - 1, j) == Final(t, q, c)
  {
    if StrictlyBeats(End(t, q, |q| - 1, c - 1), Final(t, q, c - 1)) then c - 1
    else FirstBest(t, q, c - 1)
  }

  // ------------------------------------------------------------- traceback

  /** Appending a position after the last one of a placed prefix places one more character. */
  lemma AppendPlaces(t: seq<char>, q: seq<char>, prev: seq<nat>, j: nat)
    requires PlacesPrefix(t, q, prev) && 0 < |prev| < |q|
    requires prev[|prev| - 1] < j < |t| && t[j] == q[|prev|]
    ensures PlacesPrefix(t, q, prev + [j])
    ensures (prev + [j])[..|prev|] == prev
  {
    var p := prev + [j];
    assert p[..|prev|] == prev;
    assert forall k :: 0 <= k < |prev| ==> p[k] == prev[k];
  }

  /** The last position of p extends the consecutive run of the positions before it. */
  lemma ScoreInRun(t: seq<char>, p: seq<nat>)
    requires |p| >= 2 && Increasing(p)
    requires p[|p| - 1] == p[|p| - 2] + 1 && !BreaksRun(t, p[|p| - 1])
    ensures Increasing(p[..|p| - 1])
    ensures RunStart(t, p) == RunStart(t, p[..|p| - 1])
    ensures PlacementScore(t, p) == PlacementScore(t, p[..|p| - 1]) + ScoreMatch +
      Max(Max(Bonus(t, p[|p| - 1]), BonusConsecutive), Bonus(t, RunStart(t, p[..|p| - 1])))
  {
  }

  /** The last position of p starts a new consecutive run. */
  lemma ScoreRestart(t: seq<char>, p: seq<nat>)
    requires |p| >= 2 && Increasing(p)
    requires !(p[|p| - 1] == p[|p| - 2] + 1 && !BreaksRun(t, p[|p| - 1]))
    ensures Increasing(p[..|p| - 1])
    ensures RunStart(t, p) == p[|p| - 1]
    ensures PlacementScore(t, p) ==
      AfterGap(PlacementScore(t, p[..|p| - 1]), p[|p| - 1] - p[|p| - 2] - 1) + ScoreMatch + Bonus(t, p[|p| - 1])
  {
  }

  /** A reachable cell inside a run extends the reachable cell one step back. */
  lemma CellInRun(t: seq<char>, q: seq<char>, i: nat, j: nat, L: nat)
    requires L > 0 && Cell(t, q, i, j, L).Some?
    ensures i < |q| && j < |t| && L <= i && L <= j && t[j] == q[i] && !BreaksRun(t, j)
    ensures Cell(t, q, i - 1, j - 1, L - 1).Some?
    ensures Cell(t, q, i, j, L).value ==
      Cell(t, q, i - 1, j - 1, L - 1).value + ScoreMatch + Max(Max(Bonus(t, j), BonusConsecutive), Bonus(t, j - L))
  {
  }

  /** A reachable cell that starts a run follows the best predecessor. */
  lemma CellStartsRun(t: seq<char>, q: seq<char>, i: nat, j: nat)
    requires i > 0 && Cell(t, q, i, j, 0).Some?
    ensures i < |q| && j < |t| && t[j] == q[i]
    ensures Before(t, q, i - 1, j).Some?
    ensures Cell(t, q, i, j, 0).value == Before(t, q, i - 1, j).value + ScoreMatch + Bonus(t, j)
  {
  }

  /** The score of a placement whose last position extends the run realised by its prefix. */
  lemma RealiseInRun(t: seq<char>, q: seq<char>, i: nat, j: nat, L: nat, p: seq<nat>)
    requires L > 0 && Cell(t, q, i, j, L).Some?
    requires |p| == i + 1 && i > 0 && p[i] == j && p[i - 1] == j - 1 && Increasing(p)
    requires Increasing(p[..i])
    requires RunStart(t, p[..i]) == j - L
    requires PlacementScore(t, p[..i]) == Cell(t, q, i - 1, j - 1, L - 1).value
    ensures RunStart(t, p) == j - L && PlacementScore(t, p) == Cell(t, q, i, j, L).value
  {
    CellInRun(t, q, i, j, L);
    ScoreInRun(t, p);
  }

  /** The score of a placement whose last position starts a run after the chosen predecessor. */
  lemma RealiseStart(t: seq<char>, q: seq<char>, i: nat, j: nat, j': nat, L': nat, p: seq<nat>)
    requires i > 0 && Cell(t, q, i, j, 0).Some? && Before(t, q, i - 1, j).Some?
    requires j' == ArgBefore(t, q, i - 1, j) && End(t, q, i - 1, j').Some?
    requires Cell(t, q, i - 1, j', L') == End(t, q, i - 1, j')
    requires |p| == i + 1 && p[i] == j && p[i - 1] == j' && Increasing(p)
    requires Increasing(p[..i])
    requires PlacementScore(t, p[..i]) == Cell(t, q, i - 1, j', L').value
    ensures RunStart(t, p) == j && PlacementScore(t, p) == Cell(t, q, i, j, 0).value
  {
    CellStartsRun(t, q, i, j);
    ScoreRestart(t, p);
  }

  /** p places q[..i+1], ends at j inside a run of length L + 1, and scores what cell (i, j, L) holds. */
  predicate Realised(t: seq<char>, q: seq<char>, i: nat, j: nat, L: nat, p: seq<nat>)
  {
    Cell(t, q, i, j, L).Some? && |p| == i + 1 && p[i] == j && PlacesPrefix(t, q, p) &&
    RunStart(t, p) == j - L && PlacementScore(t, p) == Cell(t, q, i, j, L).value
  }

  /** Extending the traceback of a cell's in-run predecessor. */
  lemma ExtendRun(t: seq<char>, q: seq<char>, i: nat, j: nat, L: nat, prev: seq<nat>)
    requires L > 0 && Cell(t, q, i, j, L).Some?
    requires Realised(t, q, i - 1, j - 1, L - 1, prev)
    ensures Realised(t, q, i, j, L, prev + [j])
  {
    CellInRun(t, q, i, j, L);
    AppendPlaces(t, q, prev, j);
    RealiseInRun(t, q, i, j, L, prev + [j]);
  }

  /** Extending the traceback of the predecessor chosen for a cell that starts a run. */
  lemma ExtendStart(t: seq<char>, q: seq<char>, i: nat, j: nat, j': nat, L': nat, prev: seq<nat>)
    requires i > 0 && Cell(t, q, i, j, 0).Some? && Before(t, q, i - 1, j).Some?
    requires j' == ArgBefore(t, q, i - 1, j) && End(t, q, i - 1, j').Some?
    requires Cell(t, q, i - 1, j', L') == End(t, q, i - 1, j')
    requires Realised(t, q, i - 1, j', L', prev)
    ensures Realised(t, q, i, j, 0, prev + [j])
  {
    CellStartsRun(t, q, i, j);
    AppendPlaces(t, q, prev, j);
    RealiseStart(t, q, i, j, j', L', prev + [j]);
  }

  /** The placement of q[..i+1] that realises a reachable cell, walked back through the chosen predecessors. */
  function Trace(t: seq<char>, q: seq<char>, i: nat, j: nat, L: nat): (p: seq<nat>)
    requires Cell(t, q, i, j, L).Some?
    ensures |p| == i + 1 && p[i] == j
    decreases i
  {
    if i == 0 then [j]
    else if L > 0 then
      CellInRun(t, q, i, j, L);
      Trace(t, q, i - 1, j - 1, L - 1) + [j]
    else
      CellStartsRun(t, q, i, j);
      var j' := ArgBefore(t, q, i - 1, j);
      Trace(t, q, i - 1, j', ArgEnd(t, q, i - 1, j')) + [j]
  }

  /** The traceback of a reachable cell places q[..i+1], ends in the cell's run, and scores the cell's value. */
  lemma {:induction false} TraceRealises(t: seq<char>, q: seq<char>, i: nat, j: nat, L: nat)
    requires Cell(t, q, i, j, L).Some?
    ensures Realised(t, q, i, j, L, Trace(t, q, i, j, L))
    decreases i
  {
    if i == 0 {
      CellInRange(t, q, i, j, L);
    } else if L > 0 {
      CellInRun(t, q, i, j, L);
      var prev := Trace(t, q, i - 1, j - 1, L - 1);
      TraceRealises(t, q, i - 1, j - 1, L - 1);
      ExtendRun(t, q, i, j, L, prev);
      assert Trace(t, q, i, j, L) == prev + [j];
    } else {
      CellStartsRun(t, q, i, j);
      var j' := ArgBefore(t, q, i - 1, j);
      var L' := ArgEnd(t, q, i - 1, j');
      var prev := Trace(t, q, i - 1, j', L');
      TraceRealises(t, q, i - 1, j', L');
      ExtendStart(t, q, i, j, j', L', prev);
      assert Trace(t, q, i, j, 0) == prev + [j];
    }
  }

  // ------------------------------------------------------------ optimality

  lemma {:induction false} UpToBound(t: seq<char>, q: seq<char>, i: nat, j: nat, c: nat, L: nat)
    requires L < c && Cell(t, q, i, j, L).Some?
    ensures UpTo(t, q, i, j, c).Some? && UpTo(t, q, i, j, c).value >= Cell(t, q, i, j, L).value
    decreases c
  {
    if L < c - 1 {
      UpToBound(t, q, i, j, c - 1, L);
    }
  }

  lemma {:induction false} GappedBound(t: seq<char>, q: seq<char>, i: nat, j: nat, k: nat, j': nat)
    requires j' < k < j && End(t, q, i, j').Some?
    ensures Gapped(t, q, i, j, k).Some?
    ensures Gapped(t, q, i, j, k).value >= AfterGap(End(t, q, i, j').value, j - 1 - j')
    decreases k
  {
    if j' < k - 1 {
      GappedBound(t, q, i, j, k - 1, j');
    }
  }

  lemma {:induction false} FinalBound(t: seq<char>, q: seq<char>, c: nat, j: nat)
    requires |q| > 0 && j < c && End(t, q, |q| - 1, j).Some?
    ensures Final(t, q, c).Some? && Final(t, q, c).value >= End(t, q, |q| - 1, j).value
    decreases c
  {
    if j < c - 1 {
      FinalBound(t, q, c - 1, j);
    }
  }

  /** No end position earlier than the chosen one reaches the best score. */
  lemma {:induction false} FirstBestIsEarliest(t: seq<char>, q: seq<char>, c: nat, j: nat)
    requires |q| > 0 && j < c && Final(t, q, c).Some? && End(t, q, |q| - 1, j) == Final(t, q, c)
    ensures FirstBest(t, q, c) <= j
    decreases c
  {
    if j < c - 1 {
      FinalBound(t, q, c - 1, j);
      if !StrictlyBeats(End(t, q, |q| - 1, c - 1), Final(t, q, c - 1)) {
        FirstBestIsEarliest(t, q, c - 1, j);
      }
    }
  }

  /** Cell(t, q, i, j, L) is reachable and scores at least s. */
  predicate Reaches(t: seq<char>, q: seq<char>, i: nat, j: nat, L: nat, s: int)
  {
    Cell(t, q, i, j, L).Some? && Cell(t, q, i, j, L).value >= s
  }

  /** A reachable cell lies inside the table and on a matching character. */
  lemma CellInRange(t: seq<char>, q: seq<char>, i: nat, j: nat, L: nat)
    requires Cell(t, q, i, j, L).Some?
    ensures i < |q| && j < |t| && L <= i && L <= j && t[j] == q[i]
  {
  }

  /** Extending a run by one character extends a cell that reaches s by that character's score. */
  lemma StepInRun(t: seq<char>, q: seq<char>, i: nat, j': nat, L': nat, j: nat, L: nat, r: nat, s: int, s': int)
    requires 0 < i < |q| && j == j' + 1 && L == L' + 1 && r == j' - L' && j < |t| && t[j] == q[i] && !BreaksRun(t, j)
    requires Reaches(t, q, i - 1, j', L', s)
    requires s' == s + ScoreMatch + Max(Max(Bonus(t, j), BonusConsecutive), Bonus(t, r))
    ensures Reaches(t, q, i, j, L, s')
  {
    CellInRange(t, q, i - 1, j', L');
  }

  /** Before(t, q, i, j) is at least every earlier end, shifted over the gap to j. */
  lemma BeforeBound(t: seq<char>, q: seq<char>, i: nat, j': nat, j: nat)
    requires j' < j < |t| && End(t, q, i, j').Some?
    requires j' == j - 1 ==> BreaksRun(t, j)
    ensures Before(t, q, i, j).Some?
    ensures Before(t, q, i, j).value >= AfterGap(End(t, q, i, j').value, j - 1 - j')
  {
    if j' < j - 1 {
      GappedBound(t, q, i, j, j - 1, j');
    }
  }

  /** A restarting cell whose predecessor table has a value. */
  lemma CellRestart(t: seq<char>, q: seq<char>, i: nat, j: nat)
    requires 0 < i < |q| && j < |t| && t[j] == q[i] && Before(t, q, i - 1, j).Some?
    ensures Cell(t, q, i, j, 0) == Some(Before(t, q, i - 1, j).value + ScoreMatch + Bonus(t, j))
  {
  }

  /** Starting a new run after any reachable earlier cell reaches the gapped score plus the new character. */
  lemma StepRestart(t: seq<char>, q: seq<char>, i: nat, j: nat, j': nat, L': nat, s: int, s': int)
    requires 0 < i < |q| && j' < j < |t| && t[j] == q[i]
    requires j' == j - 1 ==> BreaksRun(t, j)
    requires Reaches(t, q, i - 1, j', L', s)
    requires s' == AfterGap(s, j - 1 - j') + ScoreMatch + Bonus(t, j)
    ensures Reaches(t, q, i, j, 0, s')
  {
    CellInRange(t, q, i - 1, j', L');
    UpToBound(t, q, i - 1, j', Min(i - 1, j') + 1, L');
    BeforeBound(t, q, i - 1, j', j);
    AfterGapMonotone(s, End(t, q, i - 1, j').value, j - 1 - j');
    CellRestart(t, q, i, j);
  }

  /** The cell a placement of a prefix of q ends in reaches at least the placement's score. */
  predicate Covers(t: seq<char>, q: seq<char>, p: seq<nat>)
    requires |p| > 0 && Increasing(p)
  {
    Reaches(t, q, |p| - 1, p[|p| - 1], p[|p| - 1] - RunStart(t, p), PlacementScore(t, p))
  }

  /** Inductive step of CellBound when the last position extends the run. */
  lemma CoverInRun(t: seq<char>, q: seq<char>, p: seq<nat>)
    requires 2 <= |p| <= |q| && Increasing(p) && p[|p| - 1] < |t| && t[p[|p| - 1]] == q[|p| - 1]
    requires p[|p| - 1] == p[|p| - 2] + 1 && !BreaksRun(t, p[|p| - 1])
    requires Increasing(p[..|p| - 1]) && Covers(t, q, p[..|p| - 1])
    ensures Covers(t, q, p)
  {
    var i := |p| - 1;
    var prev := p[..i];
    ScoreInRun(t, p);
    var j', r := prev[i - 1], RunStart(t, prev);
    StepInRun(t, q, i, j', j' - r, p[i], p[i] - r, r, PlacementScore(t, prev), PlacementScore(t, p));
  }

  /** Inductive step of CellBound when the last position starts a new run. */
  lemma CoverRestart(t: seq<char>, q: seq<char>, p: seq<nat>)
    requires 2 <= |p| <= |q| && Increasing(p) && p[|p| - 1] < |t| && t[p[|p| - 1]] == q[|p| - 1]
    requires !(p[|p| - 1] == p[|p| - 2] + 1 && !BreaksRun(t, p[|p| - 1]))
    requires Increasing(p[..|p| - 1]) && Covers(t, q, p[..|p| - 1])
    ensures Covers(t, q, p)
  {
    var i := |p| - 1;
    var prev := p[..i];
    assert |prev| - 1 == i - 1 && prev[|prev| - 1] == p[i - 1];
    ScoreRestart(t, p);
    assert p[i] - RunStart(t, p) == 0;
    StepRestart(t, q, i, p[i], p[i - 1], p[i - 1] - RunStart(t, prev), PlacementScore(t, prev), PlacementScore(t, p));
  }

  /**
   * The principle of optimality: every placement of a prefix of q reaches the cell of
   * its last position and its run start with at least its own score.
   */
  lemma {:induction false} CellBound(t: seq<char>, q: seq<char>, p: seq<nat>)
    requires |p| > 0 && PlacesPrefix(t, q, p)
    ensures Covers(t, q, p)
    decreases |p|
  {
    var i := |p| - 1;
    if i > 0 {
      var prev := p[..i];
      assert PlacesPrefix(t, q, prev);
      CellBound(t, q, prev);
      if p[i] == p[i - 1] + 1 && !BreaksRun(t, p[i]) {
        CoverInRun(t, q, p);
      } else {
        CoverRestart(t, q, p);
      }
    }
  }

  /** Every placement of a prefix of q ending at t[j] scores at most End(t, q, |p| - 1, j). */
  lemma EndBound(t: seq<char>, q: seq<char>, p: seq<nat>)
    requires |p| > 0 && PlacesPrefix(t, q, p)
    ensures var e := End(t, q, |p| - 1, p[|p| - 1]); e.Some? && e.value >= PlacementScore(t, p)
  {
    var i := |p| - 1;
    var j := p[i];
    CellBound(t, q, p);
    UpToBound(t, q, i, j, Min(i, j) + 1, j - RunStart(t, p));
  }

  /** The placement the matcher reports for a term that can be placed. */
  function Best(t: seq<char>, q: seq<char>): (p: seq<nat>)
    requires |q| > 0 && Final(t, q, |t|).Some?
    ensures |p| == |q|
  {
    var j := FirstBest(t, q, |t|);
    Trace(t, q, |q| - 1, j, ArgEnd(t, q, |q| - 1, j))
  }

  /**
   * The alignment is exact: it finds a score iff q can be placed in t; the reported
   * placement has that score, no placement scores more, and no placement with the
   * same score ends earlier.
   */
  lemma TermOptimal(t: seq<char>, q: seq<char>)
    requires |q| > 0
    ensures Final(t, q, |t|).Some? <==> exists p :: IsPlacement(t, q, p)
    ensures Final(t, q, |t|).Some? ==>
      IsPlacement(t, q, Best(t, q)) && PlacementScore(t, Best(t, q)) == Final(t, q, |t|).value
    ensures Final(t, q, |t|).Some? ==>
      forall p :: IsPlacement(t, q, p) ==>
        PlacementScore(t, p) <= Final(t, q, |t|).value &&
        (PlacementScore(t, p) == Final(t, q, |t|).value ==> Best(t, q)[|q| - 1] <= p[|q| - 1])
  {
    var m := |q|;
    forall p | IsPlacement(t, q, p)
      ensures Final(t, q, |t|).Some? && PlacementScore(t, p) <= Final(t, q, |t|).value
      ensures PlacementScore(t, p) == Final(t, q, |t|).value ==> Best(t, q)[m - 1] <= p[m - 1]
    {
      EndBound(t, q, p);
      FinalBound(t, q, |t|, p[m - 1]);
      if PlacementScore(t, p) == Final(t, q, |t|).value {
        FirstBestIsEarliest(t, q, |t|, p[m - 1]);
      }
    }
    if Final(t, q, |t|).Some? {
      var j := FirstBest(t, q, |t|);
      TraceRealises(t, q, m - 1, j, ArgEnd(t, q, m - 1, j));
      assert IsPlacement(t, q, Best(t, q));
    }
  }

  // ---------------------------------------------------- facts for the method

  /** The positions of s from last to first. */
  function Reverse(s: seq<nat>): (r: seq<nat>)
    ensures |r| == |s|
    ensures forall k :: 0 <= k < |s| ==> r[k] == s[|s| - 1 - k]
  {
    if s == [] then [] else [s[|s| - 1]] + Reverse(s[..|s| - 1])
  }

  /** Beyond the longest possible run, UpTo and its argument no longer change. */
  lemma {:induction false} UpToBeyond(t: seq<char>, q: seq<char>, i: nat, j: nat, c: nat)
    requires c >= Min(i, j) + 1
    ensures UpTo(t, q, i, j, c) == End(t, q, i, j)
    ensures End(t, q, i, j).Some? ==> ArgUpTo(t, q, i, j, c) == ArgEnd(t, q, i, j)
    decreases c
  {
    if c > Min(i, j) + 1 {
      UpToBeyond(t, q, i, j, c - 1);
    }
  }

  /** One step of the traceback inside a run. */
  lemma TraceInRun(t: seq<char>, q: seq<char>, i: nat, j: nat, L: nat)
    requires L > 0 && Cell(t, q, i, j, L).Some?
    ensures i > 0 && j > 0 && Cell(t, q, i - 1, j - 1, L - 1).Some?
    ensures Trace(t, q, i, j, L) == Trace(t, q, i - 1, j - 1, L - 1) + [j]
  {
    CellInRun(t, q, i, j, L);
  }

  /** One step of the traceback at the start of a run. */
  lemma TraceAtStart(t: seq<char>, q: seq<char>, i: nat, j: nat)
    requires i > 0 && Cell(t, q, i, j, 0).Some?
    ensures Before(t, q, i - 1, j).Some?
    ensures var j' := ArgBefore(t, q, i - 1, j);
      End(t, q, i - 1, j').Some? &&
      Trace(t, q, i, j, 0) == Trace(t, q, i - 1, j', ArgEnd(t, q, i - 1, j')) + [j]
  {
    CellStartsRun(t, q, i, j);
  }
}

