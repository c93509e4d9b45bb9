/**
 * The matcher's interface: every term of a pattern is aligned against the
 * case-folded text; the scores are summed and the position lists, each last
 * placed character first, are concatenated in term order. One term that
 * cannot be placed fails the whole pattern, which then scores 0 with no
 * positions.
 */
module FzfMatcher {
  import opened Wrappers
  import opened FzfScoring
  import opened FzfAlign
  import opened FzfTable
  import opened FzfPattern

  datatype TermResult = TermResult(score: int, positions: seq<nat>)

  /**
   * The aligner's answer for a non-empty folded term: the best placement score and
   * that placement's positions, last one first; None when the term cannot be placed.
   */
  function Align(t: seq<char>, q: seq<char>): Option<TermResult>
    requires |q| > 0
  {
    match Final(t, q, |t|)
    case None => None
    case Some(s) => Some(TermResult(s, Reverse(Best(t, q))))
  }

  /**
   * One term against the text, both case-folded. An empty term, which no parsed
   * pattern holds, matches trivially.
   */
  function TermMatch(text: seq<char>, term: seq<char>): Option<TermResult>
  {
    if term == [] then Some(TermResult(0, [])) else Align(Fold(text), Fold(term))
  }

  function Combine(a: TermResult, b: TermResult): TermResult
  {
    TermResult(a.score + b.score, a.positions + b.positions)
  }

  /**
   * The per-term results combined in order: the scores summed and the position lists
   * concatenated; None as soon as one term failed.
   */
  function Aggregate(rs: seq<Option<TermResult>>): (r: Option<TermResult>)
    ensures r.Some? <==> forall k :: 0 <= k < |rs| ==> rs[k].Some?
  {
    if rs == [] then Some(TermResult(0, []))
    else
      var init := rs[..|rs| - 1];
      assert forall k :: 0 <= k < |init| ==> init[k] == rs[k];
      match Aggregate(init)
      case None => None
      case Some(acc) =>
        match rs[|rs| - 1]
        case None => None
        case Some(m) => Some(Combine(acc, m))
  }

  /** Each term's own result against the text. */
  function Results(text: seq<char>, terms: seq<seq<char>>): (rs: seq<Option<TermResult>>)
    ensures |rs| == |terms|
    ensures forall k :: 0 <= k < |terms| ==> rs[k] == TermMatch(text, terms[k])
  {
    if terms == [] then []
    else Results(text, terms[..|terms| - 1]) + [TermMatch(text, terms[|terms| - 1])]
  }

  /** All terms against the text; it fails exactly when one of the terms fails. */
  function MatchAll(text: seq<char>, terms: seq<seq<char>>): (r: Option<TermResult>)
    ensures r.Some? <==> forall k :: 0 <= k < |terms| ==> TermMatch(text, terms[k]).Some?
  {
    Aggregate(Results(text, terms))
  }

  function Score(text: seq<char>, pattern: Pattern): int
  {
    match MatchAll(text, pattern.terms)
    case None => 0
    case Some(r) => r.score
  }

  function Positions(text: seq<char>, pattern: Pattern): seq<nat>
  {
    match MatchAll(text, pattern.terms)
    case None => []
    case Some(r) => r.positions
  }

  // ---------------------------------------------------------------- one term

  /** Positions strictly decrease: the traceback reports the last placed character first. */
  predicate Decreasing(s: seq<nat>)
  {
    forall a, b :: 0 <= a < b < |s| ==> s[a] > s[b]
  }

  /**
   * The aligner's positions: one per term character, strictly decreasing, each on a
   * text character equal to its term character; the score is the score of the
   * placement they spell out.
   */
  lemma AlignSound(t: seq<char>, q: seq<char>)
    requires |q| > 0 && Align(t, q).Some?
    ensures var r := Align(t, q).value;
      |r.positions| == |q| && Decreasing(r.positions) &&
      (forall k :: 0 <= k < |q| ==> r.positions[k] < |t| && t[r.positions[k]] == q[|q| - 1 - k]) &&
      Increasing(Reverse(r.positions)) && r.score == PlacementScore(t, Reverse(r.positions))
  {
    TermOptimal(t, q);
    var b := Best(t, q);
    IncreasingOrdered(b);
    ReverseTwice(b);
  }

  /**
   * A matched term has one position per character, strictly decreasing, each on a
   * text character equal to its term character up to case; its score is the score
   * of the placement the positions spell out in the folded text.
   */
  lemma TermMatchSound(text: seq<char>, term: seq<char>)
    requires |term| > 0 && TermMatch(text, term).Some?
    ensures var r := TermMatch(text, term).value;
      |r.positions| == |term| && Decreasing(r.positions) &&
      (forall k :: 0 <= k < |term| ==>
        r.positions[k] < |text| && FoldChar(text[r.positions[k]]) == FoldChar(term[|term| - 1 - k])) &&
      Increasing(Reverse(r.positions)) && r.score == PlacementScore(Fold(text), Reverse(r.positions))
  {
    var t, q := Fold(text), Fold(term);
    assert TermMatch(text, term) == Align(t, q);
    AlignSound(t, q);
    FoldedPositions(text, term, Align(t, q).value.positions);
  }

  /** Positions that land on equal characters of the folded text and term land on characters equal up to case. */
  lemma FoldedPositions(text: seq<char>, term: seq<char>, ps: seq<nat>)
    requires |ps| == |term|
    requires forall k :: 0 <= k < |term| ==> ps[k] < |Fold(text)| && Fold(text)[ps[k]] == Fold(term)[|term| - 1 - k]
    ensures forall k :: 0 <= k < |term| ==> ps[k] < |text| && FoldChar(text[ps[k]]) == FoldChar(term[|term| - 1 - k])
  {
  }

  /** The positions of a matched term read back in placement order. */
  lemma ReverseTwice(s: seq<nat>)
    ensures Reverse(Reverse(s)) == s
  {
    var r := Reverse(s);
    assert forall k :: 0 <= k < |s| ==> Reverse(r)[k] == r[|r| - 1 - k] == s[k];
  }

  /**
   * A term fails exactly when it cannot be placed; otherwise no placement beats its
   * score, and a placement with the same score ends no earlier than the reported one.
   */
  lemma AlignOptimal(t: seq<char>, q: seq<char>)
    requires |q| > 0
    ensures Align(t, q).Some? <==> exists p :: IsPlacement(t, q, p)
    ensures Align(t, q).Some? ==>
      forall p :: IsPlacement(t, q, p) ==>
        PlacementScore(t, p) <= Align(t, q).value.score &&
        (PlacementScore(t, p) == Align(t, q).value.score ==> Align(t, q).value.positions[0] <= p[|p| - 1])
  {
    TermOptimal(t, q);
    if Final(t, q, |t|).Some? {
      var s, b := Final(t, q, |t|).value, Best(t, q);
      assert Align(t, q) == Some(TermResult(s, Reverse(b)));
      assert Reverse(b)[0] == b[|q| - 1];
      forall p | IsPlacement(t, q, p)
        ensures PlacementScore(t, p) <= s && (PlacementScore(t, p) == s ==> b[|q| - 1] <= p[|p| - 1])
      {
      }
    }
  }

  /** Every placed character earns ScoreMatch and a gap never drives the running score below zero. */
  lemma {:induction false} PlacementScoreAtLeastMatch(t: seq<char>, p: seq<nat>)
    requires |p| > 0 && Increasing(p)
    ensures PlacementScore(t, p) >= ScoreMatch
    decreases |p|
  {
    if |p| > 1 {
      PlacementScoreAtLeastMatch(t, p[..|p| - 1]);
    }
  }

  /** The score of n placed characters that all earn the boundary bonus, the first one doubled. */
  function TopScore(n: nat): int
  {
    if n <= 1 then ScoreMatch + BonusBoundary * BonusFirstCharMultiplier
    else TopScore(n - 1) + ScoreMatch + BonusBoundary
  }

  lemma LastBonusAtMost(t: seq<char>, p: seq<nat>)
    requires |p| > 0
    ensures LastBonus(t, p) <= (if |p| == 1 then BonusBoundary * BonusFirstCharMultiplier else BonusBoundary)
  {
  }

  /** No placement scores more than TopScore of its length. */
  lemma {:induction false} PlacementScoreAtMost(t: seq<char>, p: seq<nat>)
    requires |p| > 0 && Increasing(p)
    ensures PlacementScore(t, p) <= TopScore(|p|)
    decreases |p|
  {
    LastBonusAtMost(t, p);
    if |p| > 1 {
      var prev := p[..|p| - 1];
      PlacementScoreAtMost(t, prev);
      PlacementScoreAtLeastMatch(t, prev);
      var g := p[|p| - 1] - p[|p| - 2] - 1;
      assert PlacementScore(t, p) == AfterGap(PlacementScore(t, prev), g) + ScoreMatch + LastBonus(t, p);
    }
  }

  /** A matched non-empty term scores at least ScoreMatch and reports one position per character. */
  lemma TermScorePositive(text: seq<char>, term: seq<char>)
    requires |term| > 0 && TermMatch(text, term).Some?
    ensures TermMatch(text, term).value.score >= ScoreMatch
    ensures |TermMatch(text, term).value.positions| == |term|
  {
    var t, q := Fold(text), Fold(term);
    TermOptimal(t, q);
    PlacementScoreAtLeastMatch(t, Best(t, q));
  }

  // ---------------------------------------------------------- case folding

  lemma {:induction false} FoldUpcase(s: seq<char>)
    ensures Fold(Upcase(s)) == Fold(s)
  {
    assert forall k :: 0 <= k < |s| ==> FoldChar(UpcaseChar(s[k])) == FoldChar(s[k]);
  }

  /** Upper-casing the text or the term does not change a term's result. */
  lemma TermMatchUpcase(text: seq<char>, term: seq<char>)
    ensures TermMatch(Upcase(text), Upcase(term)) == TermMatch(text, term)
  {
    FoldUpcase(text);
    FoldUpcase(term);
  }

  lemma MatchAllUpcase(text: seq<char>, terms: seq<seq<char>>)
    ensures MatchAll(Upcase(text), UpcaseAll(terms)) == MatchAll(text, terms)
  {
    var us := UpcaseAll(terms);
    forall k | 0 <= k < |terms|
      ensures TermMatch(Upcase(text), us[k]) == TermMatch(text, terms[k])
    {
      TermMatchUpcase(text, terms[k]);
    }
    assert Results(Upcase(text), us) == Results(text, terms);
  }

  /** Matching is case-insensitive in both the query and the text. */
  lemma CaseInsensitive(text: seq<char>, query: seq<char>)
    ensures Score(Upcase(text), ParsePattern(Upcase(query))) == Score(text, ParsePattern(query))
    ensures Positions(Upcase(text), ParsePattern(Upcase(query))) == Positions(text, ParsePattern(query))
  {
    WordsUpcase(query);
    MatchAllUpcase(text, Words(query));
  }

  // ------------------------------------------------------------ aggregation

  lemma {:induction false} AggregateSplit(a: seq<Option<TermResult>>, b: seq<Option<TermResult>>)
    ensures Aggregate(a + b) ==
      if Aggregate(a).Some? && Aggregate(b).Some?
      then Some(Combine(Aggregate(a).value, Aggregate(b).value))
      else None
    decreases |b|
  {
    if b == [] {
      assert a + b == a;
      if Aggregate(a).Some? {
        assert Aggregate(a).value.positions + [] == Aggregate(a).value.positions;
      }
    } else {
      var n := |b| - 1;
      assert (a + b)[..|a| + n] == a + b[..n];
      assert (a + b)[|a| + n] == b[n];
      AggregateSplit(a, b[..n]);
      var A, B, x := Aggregate(a), Aggregate(b[..n]), b[n];
      if A.Some? && B.Some? && x.Some? {
        assert Aggregate(b) == Some(Combine(B.value, x.value));
        CombineAssoc(A.value, B.value, x.value);
      }
    }
  }

  lemma CombineAssoc(a: TermResult, b: TermResult, c: TermResult)
    ensures Combine(Combine(a, b), c) == Combine(a, Combine(b, c))
  {
    assert (a.positions + b.positions) + c.positions == a.positions + (b.positions + c.positions);
  }

  /** Matching a concatenation of term lists combines the results of the two parts. */
  lemma MatchAllSplit(text: seq<char>, a: seq<seq<char>>, b: seq<seq<char>>)
    ensures MatchAll(text, a + b) ==
      if MatchAll(text, a).Some? && MatchAll(text, b).Some?
      then Some(Combine(MatchAll(text, a).value, MatchAll(text, b).value))
      else None
  {
    assert Results(text, a + b) == Results(text, a) + Results(text, b);
    AggregateSplit(Results(text, a), Results(text, b));
  }

  lemma AggregateSingle(x: Option<TermResult>)
    ensures Aggregate([x]) == x
  {
    assert [x][..0] == [];
    if x.Some? {
      assert [] + x.value.positions == x.value.positions;
    }
  }

  /** With every term non-empty, a match earns at least ScoreMatch and one position per term. */
  lemma {:induction false} MatchAllBounds(text: seq<char>, terms: seq<seq<char>>)
    requires forall k :: 0 <= k < |terms| ==> IsTerm(terms[k])
    requires MatchAll(text, terms).Some?
    ensures MatchAll(text, terms).value.score >= ScoreMatch * |terms|
    ensures |MatchAll(text, terms).value.positions| >= |terms|
    decreases |terms|
  {
    if terms != [] {
      var n := |terms| - 1;
      MatchAllBounds(text, terms[..n]);
      TermScorePositive(text, terms[n]);
    }
  }

  /**
   * For a parsed query, a score of 0 and an empty position list go together: both
   * mean that some term failed, or that the query holds no term at all.
   */
  lemma ZeroScoreIffNoPositions(text: seq<char>, query: seq<char>)
    ensures var p := ParsePattern(query);
      (Score(text, p) == 0 <==> Positions(text, p) == []) &&
      (Score(text, p) == 0 <==> p.terms == [] || exists k :: 0 <= k < |p.terms| && TermMatch(text, p.terms[k]).None?)
  {
    var p := ParsePattern(query);
    if MatchAll(text, p.terms).Some? {
      MatchAllBounds(text, p.terms);
    }
  }

  // ----------------------------------------------------------------- methods

  /** Folds the text and the term, then scores the term with the alignment tables. */
  method MatchTerm(text: seq<char>, term: seq<char>) returns (r: Option<TermResult>)
    ensures r == TermMatch(text, term)
  {
    if term == [] {
      return Some(TermResult(0, []));
    }
    var t, q := Fold(text), Fold(term);
    var score, positions := AlignTerm(t, q);
    if score.None? {
      r := None;
    } else {
      r := Some(TermResult(score.value, positions));
    }
  }

  /** One more term extends the combination of the earlier ones. */
  lemma MatchAllStep(text: seq<char>, terms: seq<seq<char>>, k: nat)
    requires k < |terms|
    ensures MatchAll(text, terms[..k + 1]) ==
      if MatchAll(text, terms[..k]).Some? && TermMatch(text, terms[k]).Some?
      then Some(Combine(MatchAll(text, terms[..k]).value, TermMatch(text, terms[k]).value))
      else None
  {
    assert terms[..k + 1][..k] == terms[..k];
  }

  /** Matching the shorter term list already failed, so the whole list fails. */
  lemma MatchAllFailsOnward(text: seq<char>, terms: seq<seq<char>>, k: nat)
    requires k <= |terms| && MatchAll(text, terms[..k]).None?
    ensures MatchAll(text, terms).None?
  {
    var init := terms[..k];
    var i :| 0 <= i < |init| && TermMatch(text, init[i]).None?;
    assert terms[i] == init[i];
  }

  /** Scores the terms in order, stopping at the first that fails. */
  method Match(text: seq<char>, pattern: Pattern) returns (r: Option<TermResult>)
    ensures r == MatchAll(text, pattern.terms)
  {
    var terms := pattern.terms;
    r := Some(TermResult(0, []));
    var k := 0;
    while k < |terms| && r.Some?
      invariant 0 <= k <= |terms|
      invariant r == MatchAll(text, terms[..k])
    {
      var m := MatchTerm(text, terms[k]);
      MatchAllStep(text, terms, k);
      if m.None? {
        r := None;
      } else {
        r := Some(Combine(r.value, m.value));
      }
      k := k + 1;
    }
    if r.None? {
      MatchAllFailsOnward(text, terms, k);
    } else {
      assert terms[..k] == terms;
    }
  }

  /** The pattern's score against the text; 0 when some term fails. */
  method GetScore(text: seq<char>, pattern: Pattern) returns (score: int)
    ensures score == Score(text, pattern)
  {
    var r := Match(text, pattern);
    score := if r.None? then 0 else r.value.score;
  }

  /** The pattern's positions in the text; empty when some term fails. */
  method GetPositions(text: seq<char>, pattern: Pattern) returns (positions: seq<nat>)
    ensures positions == Positions(text, pattern)
  {
    var r := Match(text, pattern);
    positions := if r.None? then [] else r.value.positions;
  }
}
