/**
 * The matcher's unit scenarios, stated against the model, one lemma per scenario;
 * each takes its text and query as parameters fixed by its precondition.
 * Where the expected placement is the only one, or reaches the best score its
 * length allows and is the only placement up to its end, score and positions are
 * settled exactly; where it only reaches the best score, the score is; otherwise
 * the expected placement shows that the pattern scores at least as expected.
 * Scenarios that expect no match are shown to fail.
 */
module FzfScenarios {
  import opened Wrappers
  import opened FzfScoring
  import opened FzfAlign
  import opened FzfPattern
  import opened FzfMatcher
  import opened FzfScenarioFacts
  import opened FzfPlacements
  import opened FzfTexts

  /** The pieces of the long scenario text fold one by one, and their concatenation folds into the concatenated folds. */
  lemma SplitPanePiecesFolded(a: seq<char>, b: seq<char>, c: seq<char>, d: seq<char>, e: seq<char>, f: seq<char>)
    requires a == "Split Pane, " && b == "split: " && c == "horizontal, " && d == "profile: " && e == "SSH: " && f == "Antares"
    ensures Fold(a + b + c + d + e + f) == "split pane, " + "split: " + "horizontal, " + "profile: " + "ssh: " + "antares"
  {
    assert FoldChar('A') == 'a' && FoldChar('H') == 'h' && FoldChar('P') == 'p' && FoldChar('S') == 's';
    assert Fold(a) == "split pane, ";
    assert Fold(b) == "split: ";
    assert Fold(c) == "horizontal, ";
    assert Fold(d) == "profile: ";
    assert Fold(e) == "ssh: ";
    assert Fold(f) == "antares";
    FoldAppend(a, b);
    FoldAppend(a + b, c);
    FoldAppend(a + b + c, d);
    FoldAppend(a + b + c + d, e);
    FoldAppend(a + b + c + d + e, f);
  }

  /** The long scenario text folds to its lower-case form. */
  lemma SplitPaneFolded(text: seq<char>)
    requires text == "Split Pane, " + "split: " + "horizontal, " + "profile: " + "SSH: " + "Antares"
    ensures Fold(text) == "split pane, " + "split: " + "horizontal, " + "profile: " + "ssh: " + "antares"
  {
    SplitPanePiecesFolded("Split Pane, ", "split: ", "horizontal, ", "profile: ", "SSH: ", "Antares");
  }

  /** "oba" in "foobar" has a placement at [2, 3, 4] scoring 56, so the matcher scores it at least that. */
  lemma ObaInFoobarAtLeast(text: seq<char>, query: seq<char>)
    requires text == "foobar" && query == "oba"
    ensures Score(text, Pattern([query])) >= 56
  {
    assert Fold(text) == "foobar" && Fold(query) == "oba";
    ObaInFoobarPlacement(Fold(text), Fold(query));
    var p := ObaInFoobarScore(Fold(text));
    SingleTermAtLeast(text, query, p);
  }

  /** The matcher places "foo" in "foobar" at [2, 1, 0], last first, scoring 80: the only placement. */
  lemma FooInFoobarMatch(text: seq<char>, query: seq<char>)
    requires text == "foobar" && query == "foo"
    ensures TermMatch(text, query) == Some(TermResult(80, [2, 1, 0]))
  {
    assert Fold(text) == "foobar" && Fold(query) == "foo";
    FooInFoobarPlacement(Fold(text), Fold(query));
    var p := FooInFoobarScore(Fold(text));
    PinnedTerm(text, query, p);
  }

  /** The matcher places "zshc" in "/man1/zshcompctl.1" at [9, 8, 7, 6], last first, scoring 104: the only best placement within its first 10 characters. */
  lemma ZshcInMan1Zshcompctl1Match(text: seq<char>, query: seq<char>)
    requires text == "/man1/zshcompctl.1" && query == "zshc"
    ensures TermMatch(text, query) == Some(TermResult(104, [9, 8, 7, 6]))
  {
    assert Fold(text) == "/man1/zshcompctl.1" && Fold(query) == "zshc";
    ZshcInMan1Zshcompctl1Placement(Fold(text), Fold(query));
    var p := ZshcInMan1Zshcompctl1Score(Fold(text));
    assert TopScore(4) == 104;
    TopScorePinnedTerm(text, query, p, 10);
  }

  /** "foo-b" in "xFoo-Bar Baz" has a placement at [1, 2, 3, 4, 5] scoring 104, so the matcher scores it at least that. */
  lemma FooBInXfooBarBazAtLeast(text: seq<char>, query: seq<char>)
    requires text == "xFoo-Bar Baz" && query == "foo-b"
    ensures Score(text, Pattern([query])) >= 104
  {
    assert FoldChar('B') == 'b' && FoldChar('F') == 'f';
    assert Fold(text) == "xfoo-bar baz" && Fold(query) == "foo-b";
    FooBInXfooBarBazPlacement(Fold(text), Fold(query));
    var p := FooBInXfooBarBazScore(Fold(text));
    SingleTermAtLeast(text, query, p);
  }

  /** The matcher places "12356" in "abc123 456" at [9, 8, 5, 4, 3], last first, scoring 108: the only placement. */
  lemma Digits12356InAbc123456Match(text: seq<char>, query: seq<char>)
    requires text == "abc123 456" && query == "12356"
    ensures TermMatch(text, query) == Some(TermResult(108, [9, 8, 5, 4, 3]))
  {
    assert Fold(text) == "abc123 456" && Fold(query) == "12356";
    Digits12356InAbc123456Placement(Fold(text), Fold(query));
    var p := Digits12356InAbc123456Score(Fold(text));
    PinnedTerm(text, query, p);
  }

  /** The matcher places "fbb" in "foo bar baz" at [8, 4, 0], last first, scoring 70: the only placement. */
  lemma FbbInFooBarBazMatch(text: seq<char>, query: seq<char>)
    requires text == "foo bar baz" && query == "fbb"
    ensures TermMatch(text, query) == Some(TermResult(70, [8, 4, 0]))
  {
    assert Fold(text) == "foo bar baz" && Fold(query) == "fbb";
    FbbInFooBarBazPlacement(Fold(text), Fold(query));
    var p := FbbInFooBarBazScore(Fold(text));
    PinnedTerm(text, query, p);
  }

  /** The matcher places "FBB" in "foo bar baz" at [8, 4, 0], last first, scoring 70: the only placement. */
  lemma UpperFbbInFooBarBazMatch(text: seq<char>, query: seq<char>)
    requires text == "foo bar baz" && query == "FBB"
    ensures TermMatch(text, query) == Some(TermResult(70, [8, 4, 0]))
  {
    assert FoldChar('B') == 'b' && FoldChar('F') == 'f';
    assert Fold(text) == "foo bar baz" && Fold(query) == "fbb";
    FbbInFooBarBazPlacement(Fold(text), Fold(query));
    var p := FbbInFooBarBazScore(Fold(text));
    PinnedTerm(text, query, p);
  }

  /** The matcher places "fbb" in "Foo Bar Baz" at [8, 4, 0], last first, scoring 70: the only placement. */
  lemma FbbInCapitalisedFooBarBazMatch(text: seq<char>, query: seq<char>)
    requires text == "Foo Bar Baz" && query == "fbb"
    ensures TermMatch(text, query) == Some(TermResult(70, [8, 4, 0]))
  {
    assert FoldChar('B') == 'b' && FoldChar('F') == 'f';
    assert Fold(text) == "foo bar baz" && Fold(query) == "fbb";
    FbbInFooBarBazPlacement(Fold(text), Fold(query));
    var p := FbbInFooBarBazScore(Fold(text));
    PinnedTerm(text, query, p);
  }

  /** The matcher places "bar" in "Foo Bar Bar" at [6, 5, 4], last first, scoring 80: the only best placement within its first 7 characters. */
  lemma BarInFooBarBarMatch(text: seq<char>, query: seq<char>)
    requires text == "Foo Bar Bar" && query == "bar"
    ensures TermMatch(text, query) == Some(TermResult(80, [6, 5, 4]))
  {
    assert FoldChar('B') == 'b' && FoldChar('F') == 'f';
    assert Fold(text) == "foo bar bar" && Fold(query) == "bar";
    BarInFooBarBarPlacement(Fold(text), Fold(query));
    var p := BarInFooBarBarScore(Fold(text));
    assert TopScore(3) == 80;
    TopScorePinnedTerm(text, query, p, 7);
  }

  /** "bar" in "Foo aBar Bar" has a placement at [9, 10, 11] that reaches TopScore, so the matcher scores it 80. */
  lemma BarInFooAbarBarMatch(text: seq<char>, query: seq<char>)
    requires text == "Foo aBar Bar" && query == "bar"
    ensures TermMatch(text, query).Some? && TermMatch(text, query).value.score == 80
  {
    assert FoldChar('B') == 'b' && FoldChar('F') == 'f';
    assert Fold(text) == "foo abar bar" && Fold(query) == "bar";
    BarInFooAbarBarPlacement(Fold(text), Fold(query));
    var p := BarInFooAbarBarScore(Fold(text));
    assert TopScore(3) == 80;
    TopScoreTerm(text, query, p);
  }

  /** "bar" in "Boo Author Raz Bar" has a placement at [15, 16, 17] that reaches TopScore, so the matcher scores it 80. */
  lemma BarInBooAuthorRazBarMatch(text: seq<char>, query: seq<char>)
    requires text == "Boo Author Raz Bar" && query == "bar"
    ensures TermMatch(text, query).Some? && TermMatch(text, query).value.score == 80
  {
    assert FoldChar('A') == 'a' && FoldChar('B') == 'b' && FoldChar('R') == 'r';
    assert Fold(text) == "boo author raz bar" && Fold(query) == "bar";
    BarInBooAuthorRazBarPlacement(Fold(text), Fold(query));
    var p := BarInBooAuthorRazBarScore(Fold(text));
    assert TopScore(3) == 80;
    TopScoreTerm(text, query, p);
  }

  /** "clts" in "close all tabs after this" has a placement at [0, 1, 10, 13] scoring 82, so the matcher scores it at least that. */
  lemma CltsInCloseAllTabsAfterThisAtLeast(text: seq<char>, query: seq<char>)
    requires text == "close all tabs after this" && query == "clts"
    ensures Score(text, Pattern([query])) >= 82
  {
    assert Fold(text) == "close all tabs after this" && Fold(query) == "clts";
    CltsInCloseAllTabsAfterThisPlacement(Fold(text), Fold(query));
    var p := CltsInCloseAllTabsAfterThisScore(Fold(text));
    SingleTermAtLeast(text, query, p);
  }

  /** The matcher places "oob" in "aoobar" at [3, 2, 1], last first, scoring 56: the only placement. */
  lemma OobInAoobarMatch(text: seq<char>, query: seq<char>)
    requires text == "aoobar" && query == "oob"
    ensures TermMatch(text, query) == Some(TermResult(56, [3, 2, 1]))
  {
    assert Fold(text) == "aoobar" && Fold(query) == "oob";
    OobInAoobarPlacement(Fold(text), Fold(query));
    var p := OobInAoobarScore(Fold(text));
    PinnedTerm(text, query, p);
  }

  /** The matcher places "oob" in "aoaoabound" at [5, 3, 1], last first, scoring 42: the only placement. */
  lemma OobInAoaoaboundMatch(text: seq<char>, query: seq<char>)
    requires text == "aoaoabound" && query == "oob"
    ensures TermMatch(text, query) == Some(TermResult(42, [5, 3, 1]))
  {
    assert Fold(text) == "aoaoabound" && Fold(query) == "oob";
    OobInAoaoaboundPlacement(Fold(text), Fold(query));
    var p := OobInAoaoaboundScore(Fold(text));
    PinnedTerm(text, query, p);
  }

  /** The matcher places "oob" in "oobar" at [2, 1, 0], last first, scoring 80: the only placement. */
  lemma OobInOobarMatch(text: seq<char>, query: seq<char>)
    requires text == "oobar" && query == "oob"
    ensures TermMatch(text, query) == Some(TermResult(80, [2, 1, 0]))
  {
    assert Fold(text) == "oobar" && Fold(query) == "oob";
    OobInOobarPlacement(Fold(text), Fold(query));
    var p := OobInOobarScore(Fold(text));
    PinnedTerm(text, query, p);
  }

  /** The matcher places "oob" in "oaoabound" at [4, 2, 0], last first, scoring 58: the only placement. */
  lemma OobInOaoaboundMatch(text: seq<char>, query: seq<char>)
    requires text == "oaoabound" && query == "oob"
    ensures TermMatch(text, query) == Some(TermResult(58, [4, 2, 0]))
  {
    assert Fold(text) == "oaoabound" && Fold(query) == "oob";
    OobInOaoaboundPlacement(Fold(text), Fold(query));
    var p := OobInOaoaboundScore(Fold(text));
    PinnedTerm(text, query, p);
  }

  /** The matcher places "oob" in "foobar" at [3, 2, 1], last first, scoring 56: the only placement. */
  lemma OobInFoobarMatch(text: seq<char>, query: seq<char>)
    requires text == "foobar" && query == "oob"
    ensures TermMatch(text, query) == Some(TermResult(56, [3, 2, 1]))
  {
    assert Fold(text) == "foobar" && Fold(query) == "oob";
    OobInFoobarPlacement(Fold(text), Fold(query));
    var p := OobInFoobarScore(Fold(text));
    PinnedTerm(text, query, p);
  }

  /** The matcher places "oob" in "out-of-bound" at [7, 4, 0], last first, scoring 71: the only placement. */
  lemma OobInOutOfBoundMatch(text: seq<char>, query: seq<char>)
    requires text == "out-of-bound" && query == "oob"
    ensures TermMatch(text, query) == Some(TermResult(71, [7, 4, 0]))
  {
    assert Fold(text) == "out-of-bound" && Fold(query) == "oob";
    OobInOutOfBoundPlacement(Fold(text), Fold(query));
    var p := OobInOutOfBoundScore(Fold(text));
    PinnedTerm(text, query, p);
  }

  /** The matcher places "ob" in "aobar" at [2, 1], last first, scoring 36: the only placement. */
  lemma ObInAobarMatch(text: seq<char>, query: seq<char>)
    requires text == "aobar" && query == "ob"
    ensures TermMatch(text, query) == Some(TermResult(36, [2, 1]))
  {
    assert Fold(text) == "aobar" && Fold(query) == "ob";
    ObInAobarPlacement(Fold(text), Fold(query));
    var p := ObInAobarScore(Fold(text));
    PinnedTerm(text, query, p);
  }

  /** The matcher places "ob" in "oabar" at [2, 0], last first, scoring 45: the only placement. */
  lemma ObInOabarMatch(text: seq<char>, query: seq<char>)
    requires text == "oabar" && query == "ob"
    ensures TermMatch(text, query) == Some(TermResult(45, [2, 0]))
  {
    assert Fold(text) == "oabar" && Fold(query) == "ob";
    ObInOabarPlacement(Fold(text), Fold(query));
    var p := ObInOabarScore(Fold(text));
    PinnedTerm(text, query, p);
  }

  /** The matcher places "ob" in "oaaaaaaaaaaabar" at [12, 0], last first, scoring 35: the only placement. */
  lemma ObInOaaaaaaaaaaabarMatch(text: seq<char>, query: seq<char>)
    requires text == "oaaaaaaaaaaabar" && query == "ob"
    ensures TermMatch(text, query) == Some(TermResult(35, [12, 0]))
  {
    assert Fold(text) == "oaaaaaaaaaaabar" && Fold(query) == "ob";
    ObInOaaaaaaaaaaabarPlacement(Fold(text), Fold(query));
    var p := ObInOaaaaaaaaaaabarScore(Fold(text));
    PinnedTerm(text, query, p);
  }

  /** The matcher places "oba" in "aobar" at [3, 2, 1], last first, scoring 56: the only placement. */
  lemma ObaInAobarMatch(text: seq<char>, query: seq<char>)
    requires text == "aobar" && query == "oba"
    ensures TermMatch(text, query) == Some(TermResult(56, [3, 2, 1]))
  {
    assert Fold(text) == "aobar" && Fold(query) == "oba";
    ObaInAobarPlacement(Fold(text), Fold(query));
    var p := ObaInAobarScore(Fold(text));
    PinnedTerm(text, query, p);
  }

  /** The matcher places "oba" in "oaaaaaaaaaaabar" at [13, 12, 0], last first, scoring 55: the only placement. */
  lemma ObaInOaaaaaaaaaaabarMatch(text: seq<char>, query: seq<char>)
    requires text == "oaaaaaaaaaaabar" && query == "oba"
    ensures TermMatch(text, query) == Some(TermResult(55, [13, 12, 0]))
  {
    assert Fold(text) == "oaaaaaaaaaaabar" && Fold(query) == "oba";
    ObaInOaaaaaaaaaaabarPlacement(Fold(text), Fold(query));
    var p := ObaInOaaaaaaaaaaabarScore(Fold(text));
    PinnedTerm(text, query, p);
  }

  /** The matcher places "oba" in "oaaabzzar" at [7, 4, 0], last first, scoring 55: the only placement. */
  lemma ObaInOaaabzzarMatch(text: seq<char>, query: seq<char>)
    requires text == "oaaabzzar" && query == "oba"
    ensures TermMatch(text, query) == Some(TermResult(55, [7, 4, 0]))
  {
    assert Fold(text) == "oaaabzzar" && Fold(query) == "oba";
    ObaInOaaabzzarPlacement(Fold(text), Fold(query));
    var p := ObaInOaaabzzarScore(Fold(text));
    PinnedTerm(text, query, p);
  }

  /** The matcher places "obar" in "aobar" at [4, 3, 2, 1], last first, scoring 76: the only placement. */
  lemma ObarInAobarMatch(text: seq<char>, query: seq<char>)
    requires text == "aobar" && query == "obar"
    ensures TermMatch(text, query) == Some(TermResult(76, [4, 3, 2, 1]))
  {
    assert Fold(text) == "aobar" && Fold(query) == "obar";
    ObarInAobarPlacement(Fold(text), Fold(query));
    var p := ObarInAobarScore(Fold(text));
    PinnedTerm(text, query, p);
  }

  /** The matcher places "obar" in "oabzazr" at [6, 4, 2, 0], last first, scoring 71: the only placement. */
  lemma ObarInOabzazrMatch(text: seq<char>, query: seq<char>)
    requires text == "oabzazr" && query == "obar"
    ensures TermMatch(text, query) == Some(TermResult(71, [6, 4, 2, 0]))
  {
    assert Fold(text) == "oabzazr" && Fold(query) == "obar";
    ObarInOabzazrPlacement(Fold(text), Fold(query));
    var p := ObarInOabzazrScore(Fold(text));
    PinnedTerm(text, query, p);
  }

  /** The matcher places "sp" in "Split Pane, split: horizontal, profile: SSH: Antares" at [1, 0], last first, scoring 56: the only best placement within its first 2 characters. */
  lemma SpInSplitPaneMatch(text: seq<char>, query: seq<char>)
    requires text == "Split Pane, " + "split: " + "horizontal, " + "profile: " + "SSH: " + "Antares" && query == "sp"
    ensures TermMatch(text, query) == Some(TermResult(56, [1, 0]))
  {
    SplitPaneFolded(text);
    assert Fold(query) == "sp";
    SpInSplitPanePlacement(Fold(text), Fold(query));
    var p := SpInSplitPaneScore(Fold(text));
    assert TopScore(2) == 56;
    TopScorePinnedTerm(text, query, p, 2);
  }

  /** "anta" in "Split Pane, split: horizontal, profile: SSH: Antares" has a placement at [45, 46, 47, 48] that reaches TopScore, so the matcher scores it 104. */
  lemma AntaInSplitPaneMatch(text: seq<char>, query: seq<char>)
    requires text == "Split Pane, " + "split: " + "horizontal, " + "profile: " + "SSH: " + "Antares" && query == "anta"
    ensures TermMatch(text, query).Some? && TermMatch(text, query).value.score == 104
  {
    SplitPaneFolded(text);
    assert Fold(query) == "anta";
    AntaInSplitPanePlacement(Fold(text), Fold(query));
    var p := AntaInSplitPaneScore(Fold(text));
    assert TopScore(4) == 104;
    TopScoreTerm(text, query, p);
  }

  /** The matcher places "foo" in "foo bar" at [2, 1, 0], last first, scoring 80: the only placement. */
  lemma FooInFooBarMatch(text: seq<char>, query: seq<char>)
    requires text == "foo bar" && query == "foo"
    ensures TermMatch(text, query) == Some(TermResult(80, [2, 1, 0]))
  {
    assert Fold(text) == "foo bar" && Fold(query) == "foo";
    FooInFooBarPlacement(Fold(text), Fold(query));
    var p := FooInFooBarScore(Fold(text));
    PinnedTerm(text, query, p);
  }

  /** The matcher places "bar" in "foo bar" at [6, 5, 4], last first, scoring 80: the only placement. */
  lemma BarInFooBarMatch(text: seq<char>, query: seq<char>)
    requires text == "foo bar" && query == "bar"
    ensures TermMatch(text, query) == Some(TermResult(80, [6, 5, 4]))
  {
    assert Fold(text) == "foo bar" && Fold(query) == "bar";
    BarInFooBarPlacement(Fold(text), Fold(query));
    var p := BarInFooBarScore(Fold(text));
    PinnedTerm(text, query, p);
  }

  /** "fbb" needs two b's and "foo bar" holds one, so the term does not match. */
  lemma FbbInFooBarFails(text: seq<char>, query: seq<char>)
    requires text == "foo bar" && query == "fbb"
    ensures TermMatch(text, query).None?
  {
    assert Fold(text) == "foo bar" && Fold(query) == "fbb";
    assert multiset(Fold(query))['b'] == 2;
    assert multiset(Fold(text))['b'] == 1;
    NoMatchWhenTooFew(text, query, 'b');
  }

  /** "zz" needs two z's and the text holds one, at position 23, so the term does not match. */
  lemma ZzInSplitPaneFails(text: seq<char>, query: seq<char>)
    requires text == "Split Pane, " + "split: " + "horizontal, " + "profile: " + "SSH: " + "Antares" && query == "zz"
    ensures TermMatch(text, query).None?
  {
    SplitPaneFolded(text);
    SplitPaneZOnlyAt("split pane, ", "split: ", "horizontal, ", "profile: ", "ssh: ", "antares");
    assert Fold(query) == "zz";
    NoMatchWhenOnlyOnce(text, query, 'z', 23, 0, 1);
  }

  /** No placement of "fbb" exists in "foo bar", so the pattern scores 0 with no positions. */
  lemma AllPatternCharsDoNotMatch(text: seq<char>, query: seq<char>)
    requires text == "foo bar" && query == "fbb"
    ensures Score(text, ParsePattern(query)) == 0
    ensures Positions(text, ParsePattern(query)) == []
  {
    ParseTerms(query, [query]);
    FbbInFooBarFails(text, query);
    FailingTerm(text, Pattern([query]), 0);
  }

  /**
   * Both terms of "sp anta" reach the best score their length allows, so the pattern
   * scores their sum; the first term's positions come first.
   */
  lemma MultipleTerms(text: seq<char>, sp: seq<char>, anta: seq<char>)
    requires text == "Split Pane, " + "split: " + "horizontal, " + "profile: " + "SSH: " + "Antares" && sp == "sp" && anta == "anta"
    ensures Score(text, ParsePattern(sp + " " + anta)) == (ScoreMatch * 2 + BonusBoundary * BonusFirstCharMultiplier + BonusFirstCharMultiplier * BonusConsecutive) + (ScoreMatch * 4 + BonusBoundary * BonusFirstCharMultiplier + BonusFirstCharMultiplier * BonusConsecutive * 3)
    ensures |Positions(text, ParsePattern(sp + " " + anta))| == 6
    ensures Positions(text, ParsePattern(sp + " " + anta))[..2] == [1, 0]
  {
    assert ScoreMatch == 16 && ScoreGapStart == -3 && ScoreGapExtension == -1 && BonusBoundary == 8 && BonusNonWord == 8 && BonusCamel123 == 7 && BonusConsecutive == 4 && BonusFirstCharMultiplier == 2;
    ParseTerms(sp + " " + anta, [sp, anta]);
    SpInSplitPaneMatch(text, sp);
    AntaInSplitPaneMatch(text, anta);
    TermScorePositive(text, anta);
    var ra := TermMatch(text, anta).value;
    TwoTerms(text, sp, anta, TermResult(56, [1, 0]), ra);
    assert ([1, 0] + ra.positions)[..2] == [1, 0];
  }

  /** "foo bar" against itself: each term takes its own word, and the positions come term by term. */
  lemma MultipleTermsAllCharsMatch(text: seq<char>, foo: seq<char>, bar: seq<char>)
    requires text == "foo bar" && foo == "foo" && bar == "bar"
    ensures Score(text, ParsePattern(foo + " " + bar)) == (ScoreMatch * 3 + BonusBoundary * BonusFirstCharMultiplier + BonusFirstCharMultiplier * BonusConsecutive * 2) + (ScoreMatch * 3 + BonusBoundary * BonusFirstCharMultiplier + BonusFirstCharMultiplier * BonusConsecutive * 2)
    ensures Positions(text, ParsePattern(foo + " " + bar)) == [2, 1, 0, 6, 5, 4]
  {
    assert [2, 1, 0] + [6, 5, 4] == [2, 1, 0, 6, 5, 4];
    assert ScoreMatch == 16 && ScoreGapStart == -3 && ScoreGapExtension == -1 && BonusBoundary == 8 && BonusNonWord == 8 && BonusCamel123 == 7 && BonusConsecutive == 4 && BonusFirstCharMultiplier == 2;
    ParseTerms(foo + " " + bar, [foo, bar]);
    FooInFooBarMatch(text, foo);
    BarInFooBarMatch(text, bar);
    TwoTerms(text, foo, bar, TermResult(80, [2, 1, 0]), TermResult(80, [6, 5, 4]));
  }

  /** The third term "zz" needs two z's and the text has one, so the whole pattern fails. */
  lemma MultipleTermsNotAllTermsMatch(text: seq<char>, query: seq<char>)
    requires text == "Split Pane, " + "split: " + "horizontal, " + "profile: " + "SSH: " + "Antares" && query == "sp anta zz"
    ensures Score(text, ParsePattern(query)) == 0
    ensures Positions(text, ParsePattern(query)) == []
  {
    ParseTerms(query, ["sp", "anta", "zz"]);
    ZzInSplitPaneFails(text, "zz");
    FailingTerm(text, Pattern(["sp", "anta", "zz"]), 2);
  }

  /** "oba" runs through the middle of "foobar": two consecutive bonuses and no boundary bonus. */
  lemma ConsecutiveChars(text: seq<char>, query: seq<char>)
    requires text == "foobar" && query == "oba"
    ensures Score(text, ParsePattern(query)) >= ScoreMatch * 3 + BonusConsecutive * 2
  {
    assert ScoreMatch == 16 && ScoreGapStart == -3 && ScoreGapExtension == -1 && BonusBoundary == 8 && BonusNonWord == 8 && BonusCamel123 == 7 && BonusConsecutive == 4 && BonusFirstCharMultiplier == 2;
    ParseTerms(query, [query]);
    ObaInFoobarAtLeast(text, query);
  }

  /** "foo" at the start of "foobar": the doubled boundary bonus of the first character carries along the run. */
  lemma ConsecutiveCharsFirstCharBonus(text: seq<char>, query: seq<char>)
    requires text == "foobar" && query == "foo"
    ensures Score(text, ParsePattern(query)) == ScoreMatch * 3 + BonusBoundary * BonusFirstCharMultiplier + BonusConsecutive * BonusFirstCharMultiplier * 2
    ensures Positions(text, ParsePattern(query)) == [2, 1, 0]
  {
    assert ScoreMatch == 16 && ScoreGapStart == -3 && ScoreGapExtension == -1 && BonusBoundary == 8 && BonusNonWord == 8 && BonusCamel123 == 7 && BonusConsecutive == 4 && BonusFirstCharMultiplier == 2;
    ParseTerms(query, [query]);
    FooInFoobarMatch(text, query);
    SingleTerm(text, query, TermResult(80, [2, 1, 0]));
  }

  /** "zshc" right after a slash: the slash makes a boundary, and the run keeps its bonus. */
  lemma NonWordBonusBoundaryConsecutiveChars(text: seq<char>, query: seq<char>)
    requires text == "/man1/zshcompctl.1" && query == "zshc"
    ensures Score(text, ParsePattern(query)) == ScoreMatch * 4 + BonusBoundary * BonusFirstCharMultiplier + BonusFirstCharMultiplier * BonusConsecutive * 3
    ensures Positions(text, ParsePattern(query)) == [9, 8, 7, 6]
  {
    assert ScoreMatch == 16 && ScoreGapStart == -3 && ScoreGapExtension == -1 && BonusBoundary == 8 && BonusNonWord == 8 && BonusCamel123 == 7 && BonusConsecutive == 4 && BonusFirstCharMultiplier == 2;
    ParseTerms(query, [query]);
    ZshcInMan1Zshcompctl1Match(text, query);
    SingleTerm(text, query, TermResult(104, [9, 8, 7, 6]));
  }

  /** "foo-b" matches across the hyphen of "xFoo-Bar Baz", whatever the case. */
  lemma MatchOnNonWordCharsCaseInsensitive(text: seq<char>, query: seq<char>)
    requires text == "xFoo-Bar Baz" && query == "foo-b"
    ensures Score(text, ParsePattern(query)) >= ScoreMatch * 5 + BonusConsecutive * 4 + BonusBoundary
  {
    assert ScoreMatch == 16 && ScoreGapStart == -3 && ScoreGapExtension == -1 && BonusBoundary == 8 && BonusNonWord == 8 && BonusCamel123 == 7 && BonusConsecutive == 4 && BonusFirstCharMultiplier == 2;
    ParseTerms(query, [query]);
    FooBInXfooBarBazAtLeast(text, query);
  }

  /** "12356" matches across the space of "abc123 456", with a letter-to-digit bonus on its first character. */
  lemma MatchOnNonWordCharsWithGap(text: seq<char>, query: seq<char>)
    requires text == "abc123 456" && query == "12356"
    ensures Score(text, ParsePattern(query)) == ScoreMatch * 5 + BonusCamel123 * BonusFirstCharMultiplier + BonusCamel123 * 2 + BonusConsecutive + ScoreGapStart + ScoreGapExtension
    ensures Positions(text, ParsePattern(query)) == [9, 8, 5, 4, 3]
  {
    assert ScoreMatch == 16 && ScoreGapStart == -3 && ScoreGapExtension == -1 && BonusBoundary == 8 && BonusNonWord == 8 && BonusCamel123 == 7 && BonusConsecutive == 4 && BonusFirstCharMultiplier == 2;
    ParseTerms(query, [query]);
    Digits12356InAbc123456Match(text, query);
    SingleTerm(text, query, TermResult(108, [9, 8, 5, 4, 3]));
  }

  /** "fbb" takes the three word starts of "foo bar baz". */
  lemma BonusBoundaryAndFirstCharMultiplier(text: seq<char>, query: seq<char>)
    requires text == "foo bar baz" && query == "fbb"
    ensures Score(text, ParsePattern(query)) == ScoreMatch * 3 + BonusBoundary * BonusFirstCharMultiplier + BonusBoundary * 2 + 2 * ScoreGapStart + 4 * ScoreGapExtension
    ensures Positions(text, ParsePattern(query)) == [8, 4, 0]
  {
    assert ScoreMatch == 16 && ScoreGapStart == -3 && ScoreGapExtension == -1 && BonusBoundary == 8 && BonusNonWord == 8 && BonusCamel123 == 7 && BonusConsecutive == 4 && BonusFirstCharMultiplier == 2;
    ParseTerms(query, [query]);
    FbbInFooBarBazMatch(text, query);
    SingleTerm(text, query, TermResult(70, [8, 4, 0]));
  }

  /** "FBB" scores and places as "fbb" does. */
  lemma MatchesAreCaseInsensitive(text: seq<char>, query: seq<char>)
    requires text == "foo bar baz" && query == "FBB"
    ensures Score(text, ParsePattern(query)) == ScoreMatch * 3 + BonusBoundary * BonusFirstCharMultiplier + BonusBoundary * 2 + 2 * ScoreGapStart + 4 * ScoreGapExtension
    ensures Positions(text, ParsePattern(query)) == [8, 4, 0]
  {
    assert ScoreMatch == 16 && ScoreGapStart == -3 && ScoreGapExtension == -1 && BonusBoundary == 8 && BonusNonWord == 8 && BonusCamel123 == 7 && BonusConsecutive == 4 && BonusFirstCharMultiplier == 2;
    ParseTerms(query, [query]);
    UpperFbbInFooBarBazMatch(text, query);
    SingleTerm(text, query, TermResult(70, [8, 4, 0]));
  }

  /** "fbb" takes the three capitalised word starts of "Foo Bar Baz". */
  lemma MatchesAreCaseInsensitiveBonusBoundary(text: seq<char>, query: seq<char>)
    requires text == "Foo Bar Baz" && query == "fbb"
    ensures Score(text, ParsePattern(query)) == ScoreMatch * 3 + BonusBoundary * BonusFirstCharMultiplier + BonusBoundary * 2 + 2 * ScoreGapStart + 4 * ScoreGapExtension
    ensures Positions(text, ParsePattern(query)) == [8, 4, 0]
  {
    assert ScoreMatch == 16 && ScoreGapStart == -3 && ScoreGapExtension == -1 && BonusBoundary == 8 && BonusNonWord == 8 && BonusCamel123 == 7 && BonusConsecutive == 4 && BonusFirstCharMultiplier == 2;
    ParseTerms(query, [query]);
    FbbInCapitalisedFooBarBazMatch(text, query);
    SingleTerm(text, query, TermResult(70, [8, 4, 0]));
  }

  /** Of two equally good "bar" words the matcher reports the first. */
  lemma TraceBackPicksFirstOfEqualScores(text: seq<char>, query: seq<char>)
    requires text == "Foo Bar Bar" && query == "bar"
    ensures Score(text, ParsePattern(query)) == ScoreMatch * 3 + BonusBoundary * BonusFirstCharMultiplier * 2
    ensures Positions(text, ParsePattern(query)) == [6, 5, 4]
  {
    assert ScoreMatch == 16 && ScoreGapStart == -3 && ScoreGapExtension == -1 && BonusBoundary == 8 && BonusNonWord == 8 && BonusCamel123 == 7 && BonusConsecutive == 4 && BonusFirstCharMultiplier == 2;
    ParseTerms(query, [query]);
    BarInFooBarBarMatch(text, query);
    SingleTerm(text, query, TermResult(80, [6, 5, 4]));
  }

  /** "bar" reaches the best score a three-character term can, as the word that starts with it does. */
  lemma TraceBackPicksHighestScore(text: seq<char>, query: seq<char>)
    requires text == "Foo aBar Bar" && query == "bar"
    ensures Score(text, ParsePattern(query)) == ScoreMatch * 3 + BonusBoundary * BonusFirstCharMultiplier * 2
  {
    assert ScoreMatch == 16 && ScoreGapStart == -3 && ScoreGapExtension == -1 && BonusBoundary == 8 && BonusNonWord == 8 && BonusCamel123 == 7 && BonusConsecutive == 4 && BonusFirstCharMultiplier == 2;
    ParseTerms(query, [query]);
    BarInFooAbarBarMatch(text, query);
    SingleTerm(text, query, TermMatch(text, query).value);
  }

  /** "bar" reaches the best score a three-character term can, as the last word does. */
  lemma TraceBackPicksHighestScoreGaps(text: seq<char>, query: seq<char>)
    requires text == "Boo Author Raz Bar" && query == "bar"
    ensures Score(text, ParsePattern(query)) == ScoreMatch * 3 + BonusBoundary * BonusFirstCharMultiplier + BonusConsecutive * BonusFirstCharMultiplier * 2
  {
    assert ScoreMatch == 16 && ScoreGapStart == -3 && ScoreGapExtension == -1 && BonusBoundary == 8 && BonusNonWord == 8 && BonusCamel123 == 7 && BonusConsecutive == 4 && BonusFirstCharMultiplier == 2;
    ParseTerms(query, [query]);
    BarInBooAuthorRazBarMatch(text, query);
    SingleTerm(text, query, TermMatch(text, query).value);
  }

  /** "clts" in "close all tabs after this": a placement with two gaps reaches the expected score. */
  lemma TraceBackPicksEarlierCharsWhenNoBonus(text: seq<char>, query: seq<char>)
    requires text == "close all tabs after this" && query == "clts"
    ensures Score(text, ParsePattern(query)) >= ScoreMatch * 4 + BonusBoundary * BonusFirstCharMultiplier + BonusFirstCharMultiplier * BonusConsecutive + ScoreGapStart + ScoreGapExtension * 7 + BonusBoundary + ScoreGapStart + ScoreGapExtension
  {
    assert ScoreMatch == 16 && ScoreGapStart == -3 && ScoreGapExtension == -1 && BonusBoundary == 8 && BonusNonWord == 8 && BonusCamel123 == 7 && BonusConsecutive == 4 && BonusFirstCharMultiplier == 2;
    ParseTerms(query, [query]);
    CltsInCloseAllTabsAfterThisAtLeast(text, query);
  }

  /** "oob" in "aoobar": the score and the positions, last first, that the scenarios below expect. */
  lemma OobInAoobarExact(text: seq<char>, query: seq<char>)
    requires text == "aoobar" && query == "oob"
    ensures Score(text, ParsePattern(query)) == ScoreMatch * 3 + BonusConsecutive * 2
    ensures Positions(text, ParsePattern(query)) == [3, 2, 1]
  {
    assert ScoreMatch == 16 && ScoreGapStart == -3 && ScoreGapExtension == -1 && BonusBoundary == 8 && BonusNonWord == 8 && BonusCamel123 == 7 && BonusConsecutive == 4 && BonusFirstCharMultiplier == 2;
    ParseTerms(query, [query]);
    OobInAoobarMatch(text, query);
    SingleTerm(text, query, TermResult(56, [3, 2, 1]));
  }

  /** "oob" in "aoaoabound": the score and the positions, last first, that the scenarios below expect. */
  lemma OobInAoaoaboundExact(text: seq<char>, query: seq<char>)
    requires text == "aoaoabound" && query == "oob"
    ensures Score(text, ParsePattern(query)) == ScoreMatch * 3 + ScoreGapStart + ScoreGapStart
    ensures Positions(text, ParsePattern(query)) == [5, 3, 1]
  {
    assert ScoreMatch == 16 && ScoreGapStart == -3 && ScoreGapExtension == -1 && BonusBoundary == 8 && BonusNonWord == 8 && BonusCamel123 == 7 && BonusConsecutive == 4 && BonusFirstCharMultiplier == 2;
    ParseTerms(query, [query]);
    OobInAoaoaboundMatch(text, query);
    SingleTerm(text, query, TermResult(42, [5, 3, 1]));
  }

  /** Without bonuses, a run of "oob" beats one spread over gaps. */
  lemma ConsecutiveBeatsGapWithoutBonus(first: seq<char>, second: seq<char>, query: seq<char>)
    requires first == "aoobar" && second == "aoaoabound" && query == "oob"
    ensures Score(first, ParsePattern(query)) == ScoreMatch * 3 + BonusConsecutive * 2
    ensures Positions(first, ParsePattern(query)) == [3, 2, 1]
    ensures Score(second, ParsePattern(query)) == ScoreMatch * 3 + ScoreGapStart + ScoreGapStart
    ensures Positions(second, ParsePattern(query)) == [5, 3, 1]
    ensures Score(first, ParsePattern(query)) > Score(second, ParsePattern(query))
  {
    assert ScoreMatch == 16 && ScoreGapStart == -3 && ScoreGapExtension == -1 && BonusBoundary == 8 && BonusNonWord == 8 && BonusCamel123 == 7 && BonusConsecutive == 4 && BonusFirstCharMultiplier == 2;
    OobInAoobarExact(first, query);
    OobInAoaoaboundExact(second, query);
  }

  /** "oob" in "oobar": the score and the positions, last first, that the scenarios below expect. */
  lemma OobInOobarExact(text: seq<char>, query: seq<char>)
    requires text == "oobar" && query == "oob"
    ensures Score(text, ParsePattern(query)) == ScoreMatch * 3 + BonusFirstCharMultiplier * BonusBoundary + BonusFirstCharMultiplier * BonusConsecutive * 2
    ensures Positions(text, ParsePattern(query)) == [2, 1, 0]
  {
    assert ScoreMatch == 16 && ScoreGapStart == -3 && ScoreGapExtension == -1 && BonusBoundary == 8 && BonusNonWord == 8 && BonusCamel123 == 7 && BonusConsecutive == 4 && BonusFirstCharMultiplier == 2;
    ParseTerms(query, [query]);
    OobInOobarMatch(text, query);
    SingleTerm(text, query, TermResult(80, [2, 1, 0]));
  }

  /** "oob" in "oaoabound": the score and the positions, last first, that the scenarios below expect. */
  lemma OobInOaoaboundExact(text: seq<char>, query: seq<char>)
    requires text == "oaoabound" && query == "oob"
    ensures Score(text, ParsePattern(query)) == ScoreMatch * 3 + BonusBoundary * BonusFirstCharMultiplier + ScoreGapStart + ScoreGapStart
    ensures Positions(text, ParsePattern(query)) == [4, 2, 0]
  {
    assert ScoreMatch == 16 && ScoreGapStart == -3 && ScoreGapExtension == -1 && BonusBoundary == 8 && BonusNonWord == 8 && BonusCamel123 == 7 && BonusConsecutive == 4 && BonusFirstCharMultiplier == 2;
    ParseTerms(query, [query]);
    OobInOaoaboundMatch(text, query);
    SingleTerm(text, query, TermResult(58, [4, 2, 0]));
  }

  /** With the first-character bonus on both sides, the run of "oob" still beats the spread one. */
  lemma ConsecutiveBeatsGapWithFirstCharBonus(first: seq<char>, second: seq<char>, query: seq<char>)
    requires first == "oobar" && second == "oaoabound" && query == "oob"
    ensures Score(first, ParsePattern(query)) == ScoreMatch * 3 + BonusFirstCharMultiplier * BonusBoundary + BonusFirstCharMultiplier * BonusConsecutive * 2
    ensures Positions(first, ParsePattern(query)) == [2, 1, 0]
    ensures Score(second, ParsePattern(query)) == ScoreMatch * 3 + BonusBoundary * BonusFirstCharMultiplier + ScoreGapStart + ScoreGapStart
    ensures Positions(second, ParsePattern(query)) == [4, 2, 0]
    ensures Score(first, ParsePattern(query)) > Score(second, ParsePattern(query))
  {
    assert ScoreMatch == 16 && ScoreGapStart == -3 && ScoreGapExtension == -1 && BonusBoundary == 8 && BonusNonWord == 8 && BonusCamel123 == 7 && BonusConsecutive == 4 && BonusFirstCharMultiplier == 2;
    OobInOobarExact(first, query);
    OobInOaoaboundExact(second, query);
  }

  /** "oob" in "foobar": the score and the positions, last first, that the scenarios below expect. */
  lemma OobInFoobarExact(text: seq<char>, query: seq<char>)
    requires text == "foobar" && query == "oob"
    ensures Score(text, ParsePattern(query)) == ScoreMatch * 3 + BonusConsecutive * 2
    ensures Positions(text, ParsePattern(query)) == [3, 2, 1]
  {
    assert ScoreMatch == 16 && ScoreGapStart == -3 && ScoreGapExtension == -1 && BonusBoundary == 8 && BonusNonWord == 8 && BonusCamel123 == 7 && BonusConsecutive == 4 && BonusFirstCharMultiplier == 2;
    ParseTerms(query, [query]);
    OobInFoobarMatch(text, query);
    SingleTerm(text, query, TermResult(56, [3, 2, 1]));
  }

  /** "oob" in "out-of-bound": the score and the positions, last first, that the scenarios below expect. */
  lemma OobInOutOfBoundExact(text: seq<char>, query: seq<char>)
    requires text == "out-of-bound" && query == "oob"
    ensures Score(text, ParsePattern(query)) == ScoreMatch * 3 + BonusBoundary * BonusFirstCharMultiplier + BonusBoundary * 2 + ScoreGapStart + ScoreGapExtension * 2 + ScoreGapStart + ScoreGapExtension
    ensures Positions(text, ParsePattern(query)) == [7, 4, 0]
  {
    assert ScoreMatch == 16 && ScoreGapStart == -3 && ScoreGapExtension == -1 && BonusBoundary == 8 && BonusNonWord == 8 && BonusCamel123 == 7 && BonusConsecutive == 4 && BonusFirstCharMultiplier == 2;
    ParseTerms(query, [query]);
    OobInOutOfBoundMatch(text, query);
    SingleTerm(text, query, TermResult(71, [7, 4, 0]));
  }

  /** Boundary bonuses on every character let "oob" spread over "out-of-bound" beat a run inside "foobar". */
  lemma GapWithBoundaryBonusBeatsConsecutive(first: seq<char>, second: seq<char>, query: seq<char>)
    requires first == "foobar" && second == "out-of-bound" && query == "oob"
    ensures Score(first, ParsePattern(query)) == ScoreMatch * 3 + BonusConsecutive * 2
    ensures Positions(first, ParsePattern(query)) == [3, 2, 1]
    ensures Score(second, ParsePattern(query)) == ScoreMatch * 3 + BonusBoundary * BonusFirstCharMultiplier + BonusBoundary * 2 + ScoreGapStart + ScoreGapExtension * 2 + ScoreGapStart + ScoreGapExtension
    ensures Positions(second, ParsePattern(query)) == [7, 4, 0]
    ensures Score(first, ParsePattern(query)) < Score(second, ParsePattern(query))
  {
    assert ScoreMatch == 16 && ScoreGapStart == -3 && ScoreGapExtension == -1 && BonusBoundary == 8 && BonusNonWord == 8 && BonusCamel123 == 7 && BonusConsecutive == 4 && BonusFirstCharMultiplier == 2;
    OobInFoobarExact(first, query);
    OobInOutOfBoundExact(second, query);
  }

  /** "ob" in "aobar": the score and the positions, last first, that the scenarios below expect. */
  lemma ObInAobarExact(text: seq<char>, query: seq<char>)
    requires text == "aobar" && query == "ob"
    ensures Score(text, ParsePattern(query)) == ScoreMatch * 2 + BonusConsecutive
    ensures Positions(text, ParsePattern(query)) == [2, 1]
  {
    assert ScoreMatch == 16 && ScoreGapStart == -3 && ScoreGapExtension == -1 && BonusBoundary == 8 && BonusNonWord == 8 && BonusCamel123 == 7 && BonusConsecutive == 4 && BonusFirstCharMultiplier == 2;
    ParseTerms(query, [query]);
    ObInAobarMatch(text, query);
    SingleTerm(text, query, TermResult(36, [2, 1]));
  }

  /** "ob" in "oabar": the score and the positions, last first, that the scenarios below expect. */
  lemma ObInOabarExact(text: seq<char>, query: seq<char>)
    requires text == "oabar" && query == "ob"
    ensures Score(text, ParsePattern(query)) == ScoreMatch * 2 + BonusBoundary * BonusFirstCharMultiplier + ScoreGapStart
    ensures Positions(text, ParsePattern(query)) == [2, 0]
  {
    assert ScoreMatch == 16 && ScoreGapStart == -3 && ScoreGapExtension == -1 && BonusBoundary == 8 && BonusNonWord == 8 && BonusCamel123 == 7 && BonusConsecutive == 4 && BonusFirstCharMultiplier == 2;
    ParseTerms(query, [query]);
    ObInOabarMatch(text, query);
    SingleTerm(text, query, TermResult(45, [2, 0]));
  }

  /** The doubled bonus of a first character at the start of the text outweighs a gap of one for "ob". */
  lemma GapWithFirstCharBonusBeatsConsecutive(first: seq<char>, second: seq<char>, query: seq<char>)
    requires first == "aobar" && second == "oabar" && query == "ob"
    ensures Score(first, ParsePattern(query)) == ScoreMatch * 2 + BonusConsecutive
    ensures Positions(first, ParsePattern(query)) == [2, 1]
    ensures Score(second, ParsePattern(query)) == ScoreMatch * 2 + BonusBoundary * BonusFirstCharMultiplier + ScoreGapStart
    ensures Positions(second, ParsePattern(query)) == [2, 0]
    ensures Score(first, ParsePattern(query)) < Score(second, ParsePattern(query))
  {
    assert ScoreMatch == 16 && ScoreGapStart == -3 && ScoreGapExtension == -1 && BonusBoundary == 8 && BonusNonWord == 8 && BonusCamel123 == 7 && BonusConsecutive == 4 && BonusFirstCharMultiplier == 2;
    ObInAobarExact(first, query);
    ObInOabarExact(second, query);
  }

  /** "ob" in "oaaaaaaaaaaabar": the score and the positions, last first, that the scenarios below expect. */
  lemma ObInOaaaaaaaaaaabarExact(text: seq<char>, query: seq<char>)
    requires text == "oaaaaaaaaaaabar" && query == "ob"
    ensures Score(text, ParsePattern(query)) == ScoreMatch * 2 + BonusBoundary * BonusFirstCharMultiplier + ScoreGapStart + ScoreGapExtension * 10
    ensures Positions(text, ParsePattern(query)) == [12, 0]
  {
    assert ScoreMatch == 16 && ScoreGapStart == -3 && ScoreGapExtension == -1 && BonusBoundary == 8 && BonusNonWord == 8 && BonusCamel123 == 7 && BonusConsecutive == 4 && BonusFirstCharMultiplier == 2;
    ParseTerms(query, [query]);
    ObInOaaaaaaaaaaabarMatch(text, query);
    SingleTerm(text, query, TermResult(35, [12, 0]));
  }

  /** A gap of eleven costs "ob" more than the first-character bonus gains. */
  lemma GapOfElevenLosesTwoChars(first: seq<char>, second: seq<char>, query: seq<char>)
    requires first == "aobar" && second == "oaaaaaaaaaaabar" && query == "ob"
    ensures Score(first, ParsePattern(query)) == ScoreMatch * 2 + BonusConsecutive
    ensures Positions(first, ParsePattern(query)) == [2, 1]
    ensures Score(second, ParsePattern(query)) == ScoreMatch * 2 + BonusBoundary * BonusFirstCharMultiplier + ScoreGapStart + ScoreGapExtension * 10
    ensures Positions(second, ParsePattern(query)) == [12, 0]
    ensures Score(first, ParsePattern(query)) > Score(second, ParsePattern(query))
  {
    assert ScoreMatch == 16 && ScoreGapStart == -3 && ScoreGapExtension == -1 && BonusBoundary == 8 && BonusNonWord == 8 && BonusCamel123 == 7 && BonusConsecutive == 4 && BonusFirstCharMultiplier == 2;
    ObInAobarExact(first, query);
    ObInOaaaaaaaaaaabarExact(second, query);
  }

  /** "oba" in "aobar": the score and the positions, last first, that the scenarios below expect. */
  lemma ObaInAobarExact(text: seq<char>, query: seq<char>)
    requires text == "aobar" && query == "oba"
    ensures Score(text, ParsePattern(query)) == ScoreMatch * 3 + BonusConsecutive * 2
    ensures Positions(text, ParsePattern(query)) == [3, 2, 1]
  {
    assert ScoreMatch == 16 && ScoreGapStart == -3 && ScoreGapExtension == -1 && BonusBoundary == 8 && BonusNonWord == 8 && BonusCamel123 == 7 && BonusConsecutive == 4 && BonusFirstCharMultiplier == 2;
    ParseTerms(query, [query]);
    ObaInAobarMatch(text, query);
    SingleTerm(text, query, TermResult(56, [3, 2, 1]));
  }

  /** "oba" in "oaaaaaaaaaaabar": the score and the positions, last first, that the scenarios below expect. */
  lemma ObaInOaaaaaaaaaaabarExact(text: seq<char>, query: seq<char>)
    requires text == "oaaaaaaaaaaabar" && query == "oba"
    ensures Score(text, ParsePattern(query)) == ScoreMatch * 3 + BonusBoundary * BonusFirstCharMultiplier + BonusConsecutive + ScoreGapStart + ScoreGapExtension * 10
    ensures Positions(text, ParsePattern(query)) == [13, 12, 0]
  {
    assert ScoreMatch == 16 && ScoreGapStart == -3 && ScoreGapExtension == -1 && BonusBoundary == 8 && BonusNonWord == 8 && BonusCamel123 == 7 && BonusConsecutive == 4 && BonusFirstCharMultiplier == 2;
    ParseTerms(query, [query]);
    ObaInOaaaaaaaaaaabarMatch(text, query);
    SingleTerm(text, query, TermResult(55, [13, 12, 0]));
  }

  /** A gap of eleven costs "oba" more than the first-character bonus and one consecutive bonus gain. */
  lemma GapOfElevenLosesThreeChars(first: seq<char>, second: seq<char>, query: seq<char>)
    requires first == "aobar" && second == "oaaaaaaaaaaabar" && query == "oba"
    ensures Score(first, ParsePattern(query)) == ScoreMatch * 3 + BonusConsecutive * 2
    ensures Positions(first, ParsePattern(query)) == [3, 2, 1]
    ensures Score(second, ParsePattern(query)) == ScoreMatch * 3 + BonusBoundary * BonusFirstCharMultiplier + BonusConsecutive + ScoreGapStart + ScoreGapExtension * 10
    ensures Positions(second, ParsePattern(query)) == [13, 12, 0]
    ensures Score(first, ParsePattern(query)) > Score(second, ParsePattern(query))
  {
    assert ScoreMatch == 16 && ScoreGapStart == -3 && ScoreGapExtension == -1 && BonusBoundary == 8 && BonusNonWord == 8 && BonusCamel123 == 7 && BonusConsecutive == 4 && BonusFirstCharMultiplier == 2;
    ObaInAobarExact(first, query);
    ObaInOaaaaaaaaaaabarExact(second, query);
  }

  /** "oba" in "oaaabzzar": the score and the positions, last first, that the scenarios below expect. */
  lemma ObaInOaaabzzarExact(text: seq<char>, query: seq<char>)
    requires text == "oaaabzzar" && query == "oba"
    ensures Score(text, ParsePattern(query)) == ScoreMatch * 3 + BonusBoundary * BonusFirstCharMultiplier + ScoreGapStart + ScoreGapExtension + ScoreGapExtension + ScoreGapStart + ScoreGapExtension
    ensures Positions(text, ParsePattern(query)) == [7, 4, 0]
  {
    assert ScoreMatch == 16 && ScoreGapStart == -3 && ScoreGapExtension == -1 && BonusBoundary == 8 && BonusNonWord == 8 && BonusCamel123 == 7 && BonusConsecutive == 4 && BonusFirstCharMultiplier == 2;
    ParseTerms(query, [query]);
    ObaInOaaabzzarMatch(text, query);
    SingleTerm(text, query, TermResult(55, [7, 4, 0]));
  }

  /** Two gaps and no run cost "oba" more than the first-character bonus gains. */
  lemma GapsWithoutRunLoseThreeChars(first: seq<char>, second: seq<char>, query: seq<char>)
    requires first == "aobar" && second == "oaaabzzar" && query == "oba"
    ensures Score(first, ParsePattern(query)) == ScoreMatch * 3 + BonusConsecutive * 2
    ensures Positions(first, ParsePattern(query)) == [3, 2, 1]
    ensures Score(second, ParsePattern(query)) == ScoreMatch * 3 + BonusBoundary * BonusFirstCharMultiplier + ScoreGapStart + ScoreGapExtension + ScoreGapExtension + ScoreGapStart + ScoreGapExtension
    ensures Positions(second, ParsePattern(query)) == [7, 4, 0]
    ensures Score(first, ParsePattern(query)) > Score(second, ParsePattern(query))
  {
    assert ScoreMatch == 16 && ScoreGapStart == -3 && ScoreGapExtension == -1 && BonusBoundary == 8 && BonusNonWord == 8 && BonusCamel123 == 7 && BonusConsecutive == 4 && BonusFirstCharMultiplier == 2;
    ObaInAobarExact(first, query);
    ObaInOaaabzzarExact(second, query);
  }

  /** "obar" in "aobar": the score and the positions, last first, that the scenarios below expect. */
  lemma ObarInAobarExact(text: seq<char>, query: seq<char>)
    requires text == "aobar" && query == "obar"
    ensures Score(text, ParsePattern(query)) == ScoreMatch * 4 + BonusConsecutive * 3
    ensures Positions(text, ParsePattern(query)) == [4, 3, 2, 1]
  {
    assert ScoreMatch == 16 && ScoreGapStart == -3 && ScoreGapExtension == -1 && BonusBoundary == 8 && BonusNonWord == 8 && BonusCamel123 == 7 && BonusConsecutive == 4 && BonusFirstCharMultiplier == 2;
    ParseTerms(query, [query]);
    ObarInAobarMatch(text, query);
    SingleTerm(text, query, TermResult(76, [4, 3, 2, 1]));
  }

  /** "obar" in "oabzazr": the score and the positions, last first, that the scenarios below expect. */
  lemma ObarInOabzazrExact(text: seq<char>, query: seq<char>)
    requires text == "oabzazr" && query == "obar"
    ensures Score(text, ParsePattern(query)) == ScoreMatch * 4 + BonusBoundary * BonusFirstCharMultiplier + ScoreGapStart * 3
    ensures Positions(text, ParsePattern(query)) == [6, 4, 2, 0]
  {
    assert ScoreMatch == 16 && ScoreGapStart == -3 && ScoreGapExtension == -1 && BonusBoundary == 8 && BonusNonWord == 8 && BonusCamel123 == 7 && BonusConsecutive == 4 && BonusFirstCharMultiplier == 2;
    ParseTerms(query, [query]);
    ObarInOabzazrMatch(text, query);
    SingleTerm(text, query, TermResult(71, [6, 4, 2, 0]));
  }

  /** Three gaps of one cost "obar" more than the first-character bonus gains. */
  lemma GapsOfOneLoseFourChars(first: seq<char>, second: seq<char>, query: seq<char>)
    requires first == "aobar" && second == "oabzazr" && query == "obar"
    ensures Score(first, ParsePattern(query)) == ScoreMatch * 4 + BonusConsecutive * 3
    ensures Positions(first, ParsePattern(query)) == [4, 3, 2, 1]
    ensures Score(second, ParsePattern(query)) == ScoreMatch * 4 + BonusBoundary * BonusFirstCharMultiplier + ScoreGapStart * 3
    ensures Positions(second, ParsePattern(query)) == [6, 4, 2, 0]
    ensures Score(first, ParsePattern(query)) > Score(second, ParsePattern(query))
  {
    assert ScoreMatch == 16 && ScoreGapStart == -3 && ScoreGapExtension == -1 && BonusBoundary == 8 && BonusNonWord == 8 && BonusCamel123 == 7 && BonusConsecutive == 4 && BonusFirstCharMultiplier == 2;
    ObarInAobarExact(first, query);
    ObarInOabzazrExact(second, query);
  }
}
