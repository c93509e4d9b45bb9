/**
 * General facts that settle the matcher's scenarios: a placement needs as many
 * copies of each character as the term holds, a failing term fails the pattern,
 * a pinned placement is the only one, a placement that reaches TopScore is a best
 * one, and a pattern of one or two terms scores what its terms score.
 */
module FzfScenarioFacts {
  import opened Wrappers
  import opened FzfScoring
  import opened FzfAlign
  import opened FzfPattern
  import opened FzfMatcher

  /** Folding works piece by piece: the fold of a concatenation is the concatenation of the folds. */
  lemma FoldAppend(a: seq<char>, b: seq<char>)
    ensures Fold(a + b) == Fold(a) + Fold(b)
  {
    assert forall k :: 0 <= k < |a| + |b| ==> Fold(a + b)[k] == (Fold(a) + Fold(b))[k];
  }

  /** A placement inside a prefix of the text uses each character no more often than the prefix holds it. */
  lemma {:induction false} PrefixPlacementNeedsCopies(t: seq<char>, q: seq<char>, p: seq<nat>, n: nat)
    requires IsPlacement(t, q, p) && n <= |t|
    requires forall k :: 0 <= k < |p| ==> p[k] < n
    ensures multiset(q) <= multiset(t[..n])
    decreases |p|
  {
    if p != [] {
      var m := |p| - 1;
      var j := p[m];
      var q', p' := q[..m], p[..m];
      IncreasingOrdered(p);
      assert IsPlacement(t, q', p');
      PrefixPlacementNeedsCopies(t, q', p', j);
      assert q == q' + [q[m]];
      assert t[..n] == t[..j] + [t[j]] + t[j + 1..n];
    }
  }

  /** A term can only be placed in a text that holds at least as many copies of each of its characters. */
  lemma PlacementNeedsCopies(t: seq<char>, q: seq<char>, p: seq<nat>)
    requires IsPlacement(t, q, p)
    ensures multiset(q) <= multiset(t)
  {
    PrefixPlacementNeedsCopies(t, q, p, |t|);
    assert t[..|t|] == t;
  }

  /** A term holding a character more often than the text, up to case, does not match. */
  lemma NoMatchWhenTooFew(text: seq<char>, term: seq<char>, c: char)
    requires |term| > 0 && multiset(Fold(term))[c] > multiset(Fold(text))[c]
    ensures TermMatch(text, term).None?
  {
    var t, q := Fold(text), Fold(term);
    AlignOptimal(t, q);
    if Align(t, q).Some? {
      var p :| IsPlacement(t, q, p);
      PlacementNeedsCopies(t, q, p);
    }
  }

  /**
   * A term that holds a character twice does not match a text in which that
   * character, up to case, occurs at one position only.
   */
  lemma NoMatchWhenOnlyOnce(text: seq<char>, term: seq<char>, c: char, i: nat, k1: nat, k2: nat)
    requires k1 < k2 < |term| && Fold(term)[k1] == c && Fold(term)[k2] == c
    requires forall j :: 0 <= j < |Fold(text)| && Fold(text)[j] == c ==> j == i
    ensures TermMatch(text, term).None?
  {
    var t, q := Fold(text), Fold(term);
    AlignOptimal(t, q);
    if Align(t, q).Some? {
      var p :| IsPlacement(t, q, p);
      IncreasingOrdered(p);
    }
  }

  /** One failing term makes the whole pattern score 0 with no positions. */
  lemma FailingTerm(text: seq<char>, pattern: Pattern, k: nat)
    requires k < |pattern.terms| && TermMatch(text, pattern.terms[k]).None?
    ensures Score(text, pattern) == 0 && Positions(text, pattern) == []
  {
  }

  /** A one-term pattern scores what its term scores and reports its term's positions. */
  lemma SingleTerm(text: seq<char>, term: seq<char>, r: TermResult)
    requires TermMatch(text, term) == Some(r)
    ensures Score(text, Pattern([term])) == r.score && Positions(text, Pattern([term])) == r.positions
  {
    assert Results(text, [term]) == [Some(r)];
    AggregateSingle(Some(r));
  }

  /** A one-term pattern scores at least as high as any placement of its folded term in the folded text. */
  lemma SingleTermAtLeast(text: seq<char>, term: seq<char>, p: seq<nat>)
    requires |term| > 0 && IsPlacement(Fold(text), Fold(term), p)
    ensures Score(text, Pattern([term])) >= PlacementScore(Fold(text), p)
  {
    var t, q := Fold(text), Fold(term);
    AlignOptimal(t, q);
    SingleTerm(text, term, Align(t, q).value);
  }

  /** A two-term pattern scores at least the sum of the scores of a placement of each term. */
  lemma TwoTermsAtLeast(text: seq<char>, a: seq<char>, b: seq<char>, pa: seq<nat>, pb: seq<nat>)
    requires |a| > 0 && IsPlacement(Fold(text), Fold(a), pa)
    requires |b| > 0 && IsPlacement(Fold(text), Fold(b), pb)
    ensures Score(text, Pattern([a, b])) >= PlacementScore(Fold(text), pa) + PlacementScore(Fold(text), pb)
  {
    var t := Fold(text);
    AlignOptimal(t, Fold(a));
    AlignOptimal(t, Fold(b));
    var ra, rb := TermMatch(text, a).value, TermMatch(text, b).value;
    assert Results(text, [a, b]) == [Some(ra), Some(rb)];
    assert Results(text, [a, b])[..1] == [Some(ra)];
    AggregateSingle(Some(ra));
  }

  /** Appending a later position to an increasing placement keeps it increasing. */
  lemma ExtendIncreasing(p: seq<nat>, j: nat)
    requires |p| > 0 && Increasing(p) && p[|p| - 1] < j
    ensures Increasing(p + [j])
  {
    assert (p + [j])[..|p|] == p;
  }

  /**
   * Extending an increasing placement by a later position grows its score by the
   * cost of the gap, ScoreMatch and the new character's bonus; the run either
   * continues from the same start or starts afresh at the new position.
   */
  lemma ExtendPlacement(t: seq<char>, p: seq<nat>, j: nat)
    requires |p| > 0 && Increasing(p) && p[|p| - 1] < j
    ensures Increasing(p + [j])
    ensures var continues := j == p[|p| - 1] + 1 && !BreaksRun(t, j);
            RunStart(t, p + [j]) == (if continues then RunStart(t, p) else j) &&
            PlacementScore(t, p + [j]) ==
              AfterGap(PlacementScore(t, p), j - p[|p| - 1] - 1) + ScoreMatch +
              (if continues then Max(Max(Bonus(t, j), BonusConsecutive), Bonus(t, RunStart(t, p))) else Bonus(t, j))
  {
    assert (p + [j])[..|p|] == p;
  }

  /**
   * p is pinned in t: every occurrence in t of a term character, other than the one
   * p puts it on, lies at or before the position of the character before it or at or
   * after the position of the character after it.
   */
  predicate Pinned(t: seq<char>, q: seq<char>, p: seq<nat>)
    requires |p| == |q|
  {
    forall k, j {:trigger t[j], q[k]} :: 0 <= k < |q| && 0 <= j < |t| && t[j] == q[k] ==>
      j == p[k] || (0 < k && j <= p[k - 1]) || (k + 1 < |q| && p[k + 1] <= j)
  }

  /** No placement puts a character earlier than a pinned placement does. */
  lemma {:induction false} PinnedFromLeft(t: seq<char>, q: seq<char>, p: seq<nat>, p': seq<nat>, k: nat)
    requires IsPlacement(t, q, p) && IsPlacement(t, q, p') && Pinned(t, q, p) && k < |q|
    ensures p[k] <= p'[k]
    decreases k
  {
    IncreasingOrdered(p);
    IncreasingOrdered(p');
    if k > 0 {
      PinnedFromLeft(t, q, p, p', k - 1);
    }
    var j := p'[k];
    assert t[j] == q[k];
  }

  /** No placement puts a character later than a pinned placement does. */
  lemma {:induction false} PinnedFromRight(t: seq<char>, q: seq<char>, p: seq<nat>, p': seq<nat>, k: nat)
    requires IsPlacement(t, q, p) && IsPlacement(t, q, p') && Pinned(t, q, p) && k < |q|
    ensures p'[k] <= p[k]
    decreases |q| - k
  {
    IncreasingOrdered(p);
    IncreasingOrdered(p');
    if k + 1 < |q| {
      PinnedFromRight(t, q, p, p', k + 1);
    }
    var j := p'[k];
    assert t[j] == q[k];
  }

  /** A pinned placement is the only placement of its term. */
  lemma PinnedIsOnly(t: seq<char>, q: seq<char>, p: seq<nat>, p': seq<nat>)
    requires IsPlacement(t, q, p) && IsPlacement(t, q, p') && Pinned(t, q, p)
    ensures p' == p
  {
    forall k | 0 <= k < |q|
      ensures p'[k] == p[k]
    {
      PinnedFromLeft(t, q, p, p', k);
      PinnedFromRight(t, q, p, p', k);
    }
  }

  /** A term with a pinned placement matches with that placement's score and positions, last first. */
  lemma PinnedTerm(text: seq<char>, term: seq<char>, p: seq<nat>)
    requires |term| > 0 && IsPlacement(Fold(text), Fold(term), p) && Pinned(Fold(text), Fold(term), p)
    ensures TermMatch(text, term) == Some(TermResult(PlacementScore(Fold(text), p), Reverse(p)))
  {
    var t, q := Fold(text), Fold(term);
    TermOptimal(t, q);
    PinnedIsOnly(t, q, p, Best(t, q));
  }

  /** A placement that ends before n is a placement in the first n characters of the text. */
  lemma PlacementInPrefix(t: seq<char>, q: seq<char>, p: seq<nat>, n: nat)
    requires IsPlacement(t, q, p) && |p| > 0 && p[|p| - 1] < n <= |t|
    ensures IsPlacement(t[..n], q, p)
  {
    IncreasingOrdered(p);
  }

  /** A term with a placement that reaches TopScore matches with exactly that score, ending no later than it. */
  lemma TopScoreTerm(text: seq<char>, term: seq<char>, p: seq<nat>)
    requires |term| > 0 && IsPlacement(Fold(text), Fold(term), p)
    requires PlacementScore(Fold(text), p) == TopScore(|p|)
    ensures TermMatch(text, term).Some?
    ensures TermMatch(text, term).value.score == TopScore(|p|)
    ensures TermMatch(text, term).value.positions[0] <= p[|p| - 1]
  {
    var t, q := Fold(text), Fold(term);
    AlignOptimal(t, q);
    AlignSound(t, q);
    var r := Align(t, q).value;
    PlacementScoreAtMost(t, Reverse(r.positions));
  }

  /**
   * A term whose placement reaches TopScore and is pinned in the text up to its last
   * position matches with that placement: on equal scores the earliest end wins.
   */
  lemma TopScorePinnedTerm(text: seq<char>, term: seq<char>, p: seq<nat>, n: nat)
    requires |term| > 0 && IsPlacement(Fold(text), Fold(term), p)
    requires PlacementScore(Fold(text), p) == TopScore(|p|)
    requires n == p[|p| - 1] + 1 && Pinned(Fold(text)[..n], Fold(term), p)
    ensures TermMatch(text, term) == Some(TermResult(TopScore(|p|), Reverse(p)))
  {
    var t, q := Fold(text), Fold(term);
    TopScoreTerm(text, term, p);
    AlignSound(t, q);
    var r := Align(t, q).value;
    var b := Reverse(r.positions);
    assert IsPlacement(t, q, b);
    PlacementInPrefix(t, q, b, n);
    PlacementInPrefix(t, q, p, n);
    PinnedIsOnly(t[..n], q, p, b);
    ReverseTwice(r.positions);
  }

  /** A two-term pattern scores the sum of its terms' scores and reports the first term's positions first. */
  lemma TwoTerms(text: seq<char>, a: seq<char>, b: seq<char>, ra: TermResult, rb: TermResult)
    requires TermMatch(text, a) == Some(ra) && TermMatch(text, b) == Some(rb)
    ensures Score(text, Pattern([a, b])) == ra.score + rb.score
    ensures Positions(text, Pattern([a, b])) == ra.positions + rb.positions
  {
    MatchAllSplit(text, [a], [b]);
    assert [a] + [b] == [a, b];
    assert Results(text, [a]) == [Some(ra)] && Results(text, [b]) == [Some(rb)];
    AggregateSingle(Some(ra));
    AggregateSingle(Some(rb));
  }

  /** A query typed as terms joined by single spaces parses into those terms. */
  lemma ParseTerms(query: seq<char>, ws: seq<seq<char>>)
    requires forall k :: 0 <= k < |ws| ==> IsTerm(ws[k])
    requires query == Unwords(ws)
    ensures ParsePattern(query) == Pattern(ws)
  {
    ParseUnwords(ws);
  }
}
