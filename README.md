# Settings-editor lists and the fuzzy matcher of Windows Terminal, in Dafny

This project models three pieces of Windows Terminal and proves properties of them.

**The fuzzy matcher behind the command palette** (`fzf_*.dfy`). The model covers:

- parsing a query into whitespace-separated terms;
- ASCII case folding;
- the bonus classes of text characters (boundary, camel-case/digit, non-word);
- the score of one placement of a term in a text;
- the matcher: it reports the best-scoring placement of each term, ties broken towards the earliest end, with positions last character first;
- combining the terms of a pattern: scores are summed and positions concatenated, and one failing term makes the whole pattern score 0 with no positions.

The alignment is written twice:

- as recursive functions over the dynamic-programming cells (`FzfAlign`);
- as an imperative table-filling method over 3-D and 2-D arrays with a traceback (`FzfTable`), proved equal to the functions.

The optimum is proved to be the optimum over all placements (`FzfAlign.TermOptimal`). Every scenario of the matcher's unit tests is restated as a lemma about the model (`FzfScenarios`).

**The new-tab-menu page** (`new_tab_menu.dfy`). The model covers:

- converting the settings model's menu entries into view-model entries, folders recursively, skipping invalid entries and profile entries without a profile;
- reading the model entry back out of a view model;
- the recursive search for a "remaining profiles" entry;
- the label of a match-profiles entry;
- the page's entry list: reorder, delete, and the five add buttons. The page is a class whose list field the methods reassign.

**The actions page** (`actions.dfy`). Key-binding, key-chord and command view models are classes with mutable fields. The model covers:

- their edit-mode toggles, the requests they raise when changes are accepted, and cancelling;
- building a command view model: one key-chord view model per chord, the offered shortcut actions and the argument editor;
- the page's handlers:
  - the edit-mode handler, which walks the binding list from the back, drops every other newly added binding and takes the rest out of edit mode;
  - deleting a binding and choosing the index to focus;
  - adding a new binding;
  - modifying a binding: the no-conflict path, the conflict check, and the failure when a request that is not a new action lacks its keys. A binding accepted without keys reaches that failure on its next edit (`KeylessBindingScenario`);
  - announcing a screen reader;
  - reselecting the current command after a settings reload;
  - looking up a binding by key chord.

`vectors.dfy` holds the observable-vector operations these pages use (`IndexOf`, `RemoveAt`, `InsertAt`) as functions on sequences. `wrappers.dfy` holds `Option`.

The matcher's own implementation (src/cascadia/TerminalApp/fzf) is not part of this model. The matcher is modelled from its unit tests in src/cascadia/ut_app/FzfTests.cpp: the scoring constants at lines 14-24, the interface that `AssertScoreAndPositions` uses at lines 57-68, and the expected scores and positions of each scenario. The lemmas prove each scenario's expected score and positions exactly, except where "Left out" says otherwise. The model takes two readings that the tests imply but do not state:

- bonuses are classified on the case-folded text, since the test at lines 106-113 gives no camel-case bonus to the `F` after `x`;
- an empty pattern scores 0 with no positions.

## Model

| member | source | states |
|---|---|---|
| FzfScoring.FoldChar | src/cascadia/ut_app/FzfTests.cpp:133-140 | Case folding maps each upper-case ASCII letter to the same letter in lower case and leaves every other character alone. |
| FzfScoring.Fold | src/cascadia/ut_app/FzfTests.cpp:133-140 | Folding a string keeps its length and folds it character by character. |
| FzfScoring.BonusFor | src/cascadia/ut_app/FzfTests.cpp:14-24 | The bonus kind after a previous character: boundary exactly when a word character follows a non-word one; camel/digit exactly for lower-to-upper or a digit after a non-digit word character; non-word exactly on a non-word character. |
| FzfScoring.Bonus | src/cascadia/ut_app/FzfTests.cpp:14-24 | A position's bonus lies between 0 and BonusBoundary. |
| FzfScoring.RunStart | src/cascadia/ut_app/FzfTests.cpp:79-95 | The consecutive run holding the last placed character starts no later than that character, and no further back than the placement is long. |
| FzfScoring.AfterGap | src/cascadia/ut_app/FzfTests.cpp:300-338 | A gap leaves the running score unchanged when empty; otherwise it costs at most the gap-start and extension penalties, never lowers the score below zero and never raises it. |
| FzfScoring.AfterGapMonotone | src/cascadia/ut_app/FzfTests.cpp:300-338 | A gap preserves the order of running scores. |
| FzfScoring.GapCost | src/cascadia/ut_app/FzfTests.cpp:14-24 | The affine gap penalty: 0 for no gap, otherwise -3 plus -1 per further character. AfterGap and AfterGapMonotone state what a gap does to the running score. |
| FzfScoring.LastBonus | src/cascadia/ut_app/FzfTests.cpp:14-24 | The bonus of a placement's last character: doubled on the first character, the best of its own, the consecutive bonus and the run start's bonus inside a run. Bonus and RunStart bound its parts. |
| FzfScoring.PlacementScore | src/cascadia/ut_app/FzfTests.cpp:79-95 | The score of one placement. PlacementScoreAtLeastMatch and PlacementScoreAtMost bound it, and TermOptimal and AlignOptimal make it the quantity the matcher maximises. |
| FzfPattern.LeadingWord | src/cascadia/ut_app/FzfTests.cpp:57-68 | The first word is the longest whitespace-free prefix of the query: it is followed by whitespace or the end. |
| FzfPattern.Words | src/cascadia/ut_app/FzfTests.cpp:142-173 | Every word that splitting yields is non-empty and holds no whitespace. |
| FzfPattern.ParsePattern | src/cascadia/ut_app/FzfTests.cpp:57-68 | A parsed pattern only holds well-formed terms. |
| FzfPattern.ParseUnwords | src/cascadia/ut_app/FzfTests.cpp:142-164 | Parsing terms joined by single spaces gives back exactly those terms (round trip). |
| FzfPattern.WordsKeepContent | src/cascadia/ut_app/FzfTests.cpp:142-173 | The terms of a query, concatenated, are exactly its non-whitespace characters in order. |
| FzfPattern.WordsUpcase | src/cascadia/ut_app/FzfTests.cpp:133-140 | Upper-casing a query upper-cases each of its terms and changes nothing else. |
| FzfAlign.MaxOpt | src/cascadia/ut_app/FzfTests.cpp:184-209 | The larger of two optional scores is one of them, present when either is, and at least each present one. |
| FzfAlign.FirstBest | src/cascadia/ut_app/FzfTests.cpp:184-191 | The chosen end position reaches the best final score. |
| FzfAlign.Trace | src/cascadia/ut_app/FzfTests.cpp:184-218 | The traceback of a reachable cell has one position per placed character and ends at the cell's column. |
| FzfAlign.TraceRealises | src/cascadia/ut_app/FzfTests.cpp:184-218 | The traceback of a reachable cell places the prefix of the term in the text, ends in that cell's run, and scores exactly the cell's value. |
| FzfAlign.EndBound | src/cascadia/ut_app/FzfTests.cpp:193-209 | Every placement of a prefix of the term that ends at a given position scores at most the table's end value there. |
| FzfAlign.FirstBestIsEarliest | src/cascadia/ut_app/FzfTests.cpp:184-191 | No end position earlier than the chosen one reaches the best score: of equal placements the earliest-ending wins. |
| FzfAlign.Best | src/cascadia/ut_app/FzfTests.cpp:184-218 | The reported placement has one position per term character. |
| FzfAlign.TermOptimal | src/cascadia/ut_app/FzfTests.cpp:184-218 | A term has a best score exactly when it can be placed; the reported placement is a placement scoring that value; no placement scores more; and every placement scoring as much ends no earlier. |
| FzfAlign.Reverse | src/cascadia/ut_app/FzfTests.cpp:57-68 | Reversal keeps the length and reads the positions from last to first. |
| FzfTable.CellAt | src/cascadia/ut_app/FzfTests.cpp:57-68 | One table cell computed from the row above equals the cell function. |
| FzfTable.EndAt | src/cascadia/ut_app/FzfTests.cpp:57-68 | The per-column scan of run lengths yields the end value and its run length. |
| FzfTable.GappedAt | src/cascadia/ut_app/FzfTests.cpp:300-338 | The scan over earlier end positions yields the best gapped predecessor and the nearest one on ties. |
| FzfTable.BeforeAt | src/cascadia/ut_app/FzfTests.cpp:57-68 | The predecessor value and its position are the ones the alignment functions define. |
| FzfTable.FillTables | src/cascadia/ut_app/FzfTests.cpp:57-68 | After filling, every end entry holds the value the alignment functions define, and every recorded argument the position they choose. |
| FzfTable.TraceBack | src/cascadia/ut_app/FzfTests.cpp:184-218 | Walking the recorded predecessors back from a cell produces the traceback of that cell, last position first. |
| FzfTable.BestEnd | src/cascadia/ut_app/FzfTests.cpp:184-191 | Scanning the last row yields the best final score and its earliest end position. |
| FzfTable.AlignTerm | src/cascadia/ut_app/FzfTests.cpp:57-68 | The table-filling aligner returns the best score and the positions of the best placement, last first, or no score and no positions. |
| FzfMatcher.Aggregate | src/cascadia/ut_app/FzfTests.cpp:166-173 | Combined term results exist exactly when every term matched. |
| FzfMatcher.Results | src/cascadia/ut_app/FzfTests.cpp:142-173 | There is one result per term, each the term's own match. |
| FzfMatcher.MatchAll | src/cascadia/ut_app/FzfTests.cpp:166-173 | A pattern matches exactly when every one of its terms matches. |
| FzfMatcher.AlignSound | src/cascadia/ut_app/FzfTests.cpp:57-68 | The aligner's positions are one per term character, strictly decreasing, each on an equal text character, and the score is the score of that placement. |
| FzfMatcher.TermMatchSound | src/cascadia/ut_app/FzfTests.cpp:133-140 | A matched term's positions are one per character, strictly decreasing, each on a character equal up to case, and its score is that placement's score. |
| FzfMatcher.AlignOptimal | src/cascadia/ut_app/FzfTests.cpp:184-218 | The aligner answers exactly when a placement exists, and its score is the best of all placements, the earliest-ending on ties. |
| FzfMatcher.PlacementScoreAtLeastMatch | src/cascadia/ut_app/FzfTests.cpp:14-24 | Every placement scores at least ScoreMatch: gaps never push the running score below zero. |
| FzfMatcher.PlacementScoreAtMost | src/cascadia/ut_app/FzfTests.cpp:14-24 | No placement scores more than the score of all boundary bonuses with the first doubled. |
| FzfMatcher.TermScorePositive | src/cascadia/ut_app/FzfTests.cpp:70-77 | A matched term scores at least ScoreMatch and reports one position per character, so a score of 0 always means a failed match. |
| FzfMatcher.TermMatchUpcase | src/cascadia/ut_app/FzfTests.cpp:133-140 | Upper-casing the text and the term leaves a term's result unchanged. |
| FzfMatcher.CaseInsensitive | src/cascadia/ut_app/FzfTests.cpp:133-140 | Upper-casing the text and the query leaves the pattern's score and positions unchanged. |
| FzfMatcher.AggregateSplit | src/cascadia/ut_app/FzfTests.cpp:142-164 | Combining the results of two lists of terms is combining each list and then the two. |
| FzfMatcher.MatchAllSplit | src/cascadia/ut_app/FzfTests.cpp:142-164 | Matching a concatenation of term lists sums the two parts' scores and concatenates their positions, in order. |
| FzfMatcher.MatchAllBounds | src/cascadia/ut_app/FzfTests.cpp:142-164 | A matched pattern of non-empty terms scores at least ScoreMatch per term and reports at least one position per term. |
| FzfMatcher.ZeroScoreIffNoPositions | src/cascadia/ut_app/FzfTests.cpp:70-77 | For a parsed query, score 0 and empty positions go together, and both hold exactly when the query has no term or some term fails. |
| FzfMatcher.MatchTerm | src/cascadia/ut_app/FzfTests.cpp:57-68 | The folding-and-table method returns the term's match. |
| FzfMatcher.MatchAllStep | src/cascadia/ut_app/FzfTests.cpp:142-164 | Matching one more term extends the combined result of the earlier terms by that term's result. |
| FzfMatcher.Match | src/cascadia/ut_app/FzfTests.cpp:166-173 | The loop over terms, stopping at the first failure, returns the match of the whole pattern. |
| FzfMatcher.GetScore | src/cascadia/ut_app/FzfTests.cpp:57-68 | The interface's score is the pattern's score: the sum over terms, or 0 on failure. |
| FzfMatcher.GetPositions | src/cascadia/ut_app/FzfTests.cpp:57-68 | The interface's positions are the pattern's positions: the terms' positions in order, or none on failure. |
| FzfMatcher.Align | src/cascadia/ut_app/FzfTests.cpp:57-68 | Aligns a non-empty folded term in the folded text. AlignSound states that the result is a genuine placement with its score; AlignOptimal states that it is the best, earliest end on ties. |
| FzfMatcher.TermMatch | src/cascadia/ut_app/FzfTests.cpp:57-68 | One term's match, folding both sides. TermMatchSound, TermScorePositive and TermMatchUpcase state its properties. |
| FzfMatcher.Score | src/cascadia/ut_app/FzfTests.cpp:57-68 | The pattern's score, 0 when a term fails. MatchAll, ZeroScoreIffNoPositions and MatchAllSplit state its properties. |
| FzfMatcher.Positions | src/cascadia/ut_app/FzfTests.cpp:57-68 | The pattern's positions, empty when a term fails. MatchAll, ZeroScoreIffNoPositions and MatchAllSplit state its properties. |
| FzfScenarioFacts.PlacementNeedsCopies | src/cascadia/ut_app/FzfTests.cpp:70-77 | A placement uses no character more often than the text holds it. |
| FzfScenarioFacts.NoMatchWhenTooFew | src/cascadia/ut_app/FzfTests.cpp:70-77 | A term that needs a character more often than the text holds it, up to case, does not match. |
| FzfScenarioFacts.FailingTerm | src/cascadia/ut_app/FzfTests.cpp:166-173 | One failing term makes the whole pattern score 0 with no positions. |
| FzfScenarioFacts.SingleTermAtLeast | src/cascadia/ut_app/FzfTests.cpp:79-86 | A one-term pattern scores at least any placement of the term. |
| FzfScenarioFacts.PinnedIsOnly | src/cascadia/ut_app/FzfTests.cpp:88-95 | A pinned placement is the only placement of its term. |
| FzfScenarioFacts.PinnedTerm | src/cascadia/ut_app/FzfTests.cpp:88-95 | A term with a pinned placement matches with exactly that placement's score and positions. |
| FzfScenarioFacts.TopScoreTerm | src/cascadia/ut_app/FzfTests.cpp:193-209 | A placement that reaches the highest possible score fixes the term's score, and the reported match ends no later than it. |
| FzfScenarioFacts.TwoTerms | src/cascadia/ut_app/FzfTests.cpp:142-164 | A two-term pattern scores the sum of its terms' scores and reports the first term's positions first. |
| FzfScenarioFacts.ParseTerms | src/cascadia/ut_app/FzfTests.cpp:142-164 | A query typed as terms joined by single spaces parses into exactly those terms. |
| FzfScenarios.SplitPaneFolded | src/cascadia/ut_app/FzfTests.cpp:142-152 | The long scenario text folds to its lower-case form. |
| FzfScenarios.FooInFoobarMatch | src/cascadia/ut_app/FzfTests.cpp:88-95 | "foo" in "foobar" matches at [2, 1, 0] with score 80. |
| FzfScenarios.ZshcInMan1Zshcompctl1Match | src/cascadia/ut_app/FzfTests.cpp:97-104 | "zshc" in "/man1/zshcompctl.1" matches at [9, 8, 7, 6] with score 104. |
| FzfScenarios.Digits12356InAbc123456Match | src/cascadia/ut_app/FzfTests.cpp:115-122 | "12356" in "abc123 456" matches at [9, 8, 5, 4, 3] with score 108. |
| FzfScenarios.FbbInFooBarBazMatch | src/cascadia/ut_app/FzfTests.cpp:124-131 | "fbb" in "foo bar baz" matches at [8, 4, 0] with score 70. |
| FzfScenarios.UpperFbbInFooBarBazMatch | src/cascadia/ut_app/FzfTests.cpp:133-140 | "FBB" in "foo bar baz" matches at [8, 4, 0] with score 70. |
| FzfScenarios.FbbInCapitalisedFooBarBazMatch | src/cascadia/ut_app/FzfTests.cpp:175-182 | "fbb" in "Foo Bar Baz" matches at [8, 4, 0] with score 70. |
| FzfScenarios.BarInFooBarBarMatch | src/cascadia/ut_app/FzfTests.cpp:184-191 | "bar" in "Foo Bar Bar" matches the first word, at [6, 5, 4], with score 80. |
| FzfScenarios.BarInFooAbarBarMatch | src/cascadia/ut_app/FzfTests.cpp:193-200 | "bar" in "Foo aBar Bar" matches with score 80. |
| FzfScenarios.BarInBooAuthorRazBarMatch | src/cascadia/ut_app/FzfTests.cpp:202-209 | "bar" in "Boo Author Raz Bar" matches with score 80. |
| FzfScenarios.ObaInFoobarAtLeast | src/cascadia/ut_app/FzfTests.cpp:79-86 | "oba" in "foobar" scores at least 56. |
| FzfScenarios.FooBInXfooBarBazAtLeast | src/cascadia/ut_app/FzfTests.cpp:106-113 | "foo-b" in "xFoo-Bar Baz" scores at least 104. |
| FzfScenarios.CltsInCloseAllTabsAfterThisAtLeast | src/cascadia/ut_app/FzfTests.cpp:211-218 | "clts" in "close all tabs after this" scores at least 82. |
| FzfScenarios.OobInAoobarMatch | src/cascadia/ut_app/FzfTests.cpp:220-238 | "oob" in "aoobar" matches at [3, 2, 1] with score 56. |
| FzfScenarios.OobInAoaoaboundMatch | src/cascadia/ut_app/FzfTests.cpp:220-238 | "oob" in "aoaoabound" matches at [5, 3, 1] with score 42. |
| FzfScenarios.OobInOobarMatch | src/cascadia/ut_app/FzfTests.cpp:240-258 | "oob" in "oobar" matches at [2, 1, 0] with score 80. |
| FzfScenarios.OobInOaoaboundMatch | src/cascadia/ut_app/FzfTests.cpp:240-258 | "oob" in "oaoabound" matches at [4, 2, 0] with score 58. |
| FzfScenarios.OobInFoobarMatch | src/cascadia/ut_app/FzfTests.cpp:260-278 | "oob" in "foobar" matches at [3, 2, 1] with score 56. |
| FzfScenarios.OobInOutOfBoundMatch | src/cascadia/ut_app/FzfTests.cpp:260-278 | "oob" in "out-of-bound" matches at [7, 4, 0] with score 71. |
| FzfScenarios.ObInAobarMatch | src/cascadia/ut_app/FzfTests.cpp:280-298 | "ob" in "aobar" matches at [2, 1] with score 36. |
| FzfScenarios.ObInOabarMatch | src/cascadia/ut_app/FzfTests.cpp:280-298 | "ob" in "oabar" matches at [2, 0] with score 45. |
| FzfScenarios.ObInOaaaaaaaaaaabarMatch | src/cascadia/ut_app/FzfTests.cpp:300-318 | "ob" in "oaaaaaaaaaaabar" matches at [12, 0] with score 35. |
| FzfScenarios.ObaInAobarMatch | src/cascadia/ut_app/FzfTests.cpp:320-338 | "oba" in "aobar" matches at [3, 2, 1] with score 56. |
| FzfScenarios.ObaInOaaaaaaaaaaabarMatch | src/cascadia/ut_app/FzfTests.cpp:320-338 | "oba" in "oaaaaaaaaaaabar" matches at [13, 12, 0] with score 55. |
| FzfScenarios.ObaInOaaabzzarMatch | src/cascadia/ut_app/FzfTests.cpp:340-358 | "oba" in "oaaabzzar" matches at [7, 4, 0] with score 55. |
| FzfScenarios.ObarInAobarMatch | src/cascadia/ut_app/FzfTests.cpp:360-378 | "obar" in "aobar" matches at [4, 3, 2, 1] with score 76. |
| FzfScenarios.ObarInOabzazrMatch | src/cascadia/ut_app/FzfTests.cpp:360-378 | "obar" in "oabzazr" matches at [6, 4, 2, 0] with score 71. |
| FzfScenarios.SpInSplitPaneMatch | src/cascadia/ut_app/FzfTests.cpp:142-152 | "sp" in the split-pane text matches at [1, 0] with score 56. |
| FzfScenarios.AntaInSplitPaneMatch | src/cascadia/ut_app/FzfTests.cpp:142-152 | "anta" in the split-pane text matches with score 104. |
| FzfScenarios.FooInFooBarMatch | src/cascadia/ut_app/FzfTests.cpp:154-164 | "foo" in "foo bar" matches at [2, 1, 0] with score 80. |
| FzfScenarios.BarInFooBarMatch | src/cascadia/ut_app/FzfTests.cpp:154-164 | "bar" in "foo bar" matches at [6, 5, 4] with score 80. |
| FzfScenarios.FbbInFooBarFails | src/cascadia/ut_app/FzfTests.cpp:70-77 | "fbb" does not match "foo bar", which holds one b. |
| FzfScenarios.ZzInSplitPaneFails | src/cascadia/ut_app/FzfTests.cpp:166-173 | "zz" does not match the split-pane text, which holds one z. |
| FzfScenarios.AllPatternCharsDoNotMatch | src/cascadia/ut_app/FzfTests.cpp:70-77 | Pattern "fbb" against "foo bar" gives score 0 and no positions. |
| FzfScenarios.MultipleTerms | src/cascadia/ut_app/FzfTests.cpp:142-152 | "sp anta" against the split-pane text scores the sum of the two expected term scores and reports 6 positions, starting [1, 0]. |
| FzfScenarios.MultipleTermsAllCharsMatch | src/cascadia/ut_app/FzfTests.cpp:154-164 | "foo bar" against itself scores the sum of the two expected term scores, with positions [2, 1, 0, 6, 5, 4]. |
| FzfScenarios.MultipleTermsNotAllTermsMatch | src/cascadia/ut_app/FzfTests.cpp:166-173 | "sp anta zz" against the split-pane text gives score 0 and no positions, because "zz" fails. |
| FzfScenarios.ConsecutiveChars | src/cascadia/ut_app/FzfTests.cpp:79-86 | "oba" in "foobar" scores at least the expected ScoreMatch * 3 + BonusConsecutive * 2. |
| FzfScenarios.ConsecutiveCharsFirstCharBonus | src/cascadia/ut_app/FzfTests.cpp:88-95 | "foo" in "foobar" has exactly the expected score and positions [2, 1, 0]. |
| FzfScenarios.NonWordBonusBoundaryConsecutiveChars | src/cascadia/ut_app/FzfTests.cpp:97-104 | "zshc" in "/man1/zshcompctl.1" has exactly the expected score and positions [9, 8, 7, 6]. |
| FzfScenarios.MatchOnNonWordCharsCaseInsensitive | src/cascadia/ut_app/FzfTests.cpp:106-113 | "foo-b" in "xFoo-Bar Baz" scores at least the expected score. |
| FzfScenarios.MatchOnNonWordCharsWithGap | src/cascadia/ut_app/FzfTests.cpp:115-122 | "12356" in "abc123 456" has exactly the expected score and positions [9, 8, 5, 4, 3]. |
| FzfScenarios.BonusBoundaryAndFirstCharMultiplier | src/cascadia/ut_app/FzfTests.cpp:124-131 | "fbb" in "foo bar baz" has exactly the expected score and positions [8, 4, 0]. |
| FzfScenarios.MatchesAreCaseInsensitive | src/cascadia/ut_app/FzfTests.cpp:133-140 | "FBB" in "foo bar baz" has exactly the expected score and positions [8, 4, 0]. |
| FzfScenarios.MatchesAreCaseInsensitiveBonusBoundary | src/cascadia/ut_app/FzfTests.cpp:175-182 | "fbb" in "Foo Bar Baz" has exactly the expected score and positions [8, 4, 0]. |
| FzfScenarios.TraceBackPicksFirstOfEqualScores | src/cascadia/ut_app/FzfTests.cpp:184-191 | "bar" in "Foo Bar Bar" has the expected score, and of the two equal words the first is reported, at [6, 5, 4]. |
| FzfScenarios.TraceBackPicksHighestScore | src/cascadia/ut_app/FzfTests.cpp:193-200 | "bar" in "Foo aBar Bar" has exactly the expected score. |
| FzfScenarios.TraceBackPicksHighestScoreGaps | src/cascadia/ut_app/FzfTests.cpp:202-209 | "bar" in "Boo Author Raz Bar" has exactly the expected score. |
| FzfScenarios.TraceBackPicksEarlierCharsWhenNoBonus | src/cascadia/ut_app/FzfTests.cpp:211-218 | "clts" in "close all tabs after this" scores at least the expected score. |
| FzfScenarios.OobInAoobarExact | src/cascadia/ut_app/FzfTests.cpp:220-238 | "oob" in "aoobar" has exactly the expected score and positions [3, 2, 1]. |
| FzfScenarios.OobInAoaoaboundExact | src/cascadia/ut_app/FzfTests.cpp:220-238 | "oob" in "aoaoabound" has exactly the expected score and positions [5, 3, 1]. |
| FzfScenarios.ConsecutiveBeatsGapWithoutBonus | src/cascadia/ut_app/FzfTests.cpp:220-238 | Both expected scores and positions hold, and the consecutive match scores strictly higher than the gapped one. |
| FzfScenarios.OobInOobarExact | src/cascadia/ut_app/FzfTests.cpp:240-258 | "oob" in "oobar" has exactly the expected score and positions [2, 1, 0]. |
| FzfScenarios.OobInOaoaboundExact | src/cascadia/ut_app/FzfTests.cpp:240-258 | "oob" in "oaoabound" has exactly the expected score and positions [4, 2, 0]. |
| FzfScenarios.ConsecutiveBeatsGapWithFirstCharBonus | src/cascadia/ut_app/FzfTests.cpp:240-258 | Both expected scores and positions hold, and the consecutive match scores strictly higher. |
| FzfScenarios.OobInFoobarExact | src/cascadia/ut_app/FzfTests.cpp:260-278 | "oob" in "foobar" has exactly the expected score and positions [3, 2, 1]. |
| FzfScenarios.OobInOutOfBoundExact | src/cascadia/ut_app/FzfTests.cpp:260-278 | "oob" in "out-of-bound" has exactly the expected score and positions [7, 4, 0]. |
| FzfScenarios.GapWithBoundaryBonusBeatsConsecutive | src/cascadia/ut_app/FzfTests.cpp:260-278 | Both expected scores and positions hold, and the gapped match with boundary bonuses scores strictly higher. |
| FzfScenarios.ObInAobarExact | src/cascadia/ut_app/FzfTests.cpp:280-298 | "ob" in "aobar" has exactly the expected score and positions [2, 1]. |
| FzfScenarios.ObInOabarExact | src/cascadia/ut_app/FzfTests.cpp:280-298 | "ob" in "oabar" has exactly the expected score and positions [2, 0]. |
| FzfScenarios.GapWithFirstCharBonusBeatsConsecutive | src/cascadia/ut_app/FzfTests.cpp:280-298 | Both expected scores and positions hold, and the gapped match with the first-character bonus scores strictly higher. |
| FzfScenarios.ObInOaaaaaaaaaaabarExact | src/cascadia/ut_app/FzfTests.cpp:300-318 | "ob" in "oaaaaaaaaaaabar" has exactly the expected score and positions [12, 0]. |
| FzfScenarios.GapOfElevenLosesTwoChars | src/cascadia/ut_app/FzfTests.cpp:300-318 | Both expected scores and positions hold, and the consecutive match scores strictly higher than the match with a gap of eleven. |
| FzfScenarios.ObaInAobarExact | src/cascadia/ut_app/FzfTests.cpp:320-338 | "oba" in "aobar" has exactly the expected score and positions [3, 2, 1]. |
| FzfScenarios.ObaInOaaaaaaaaaaabarExact | src/cascadia/ut_app/FzfTests.cpp:320-338 | "oba" in "oaaaaaaaaaaabar" has exactly the expected score and positions [13, 12, 0]. |
| FzfScenarios.GapOfElevenLosesThreeChars | src/cascadia/ut_app/FzfTests.cpp:320-338 | Both expected scores and positions hold, and the consecutive match scores strictly higher. |
| FzfScenarios.ObaInOaaabzzarExact | src/cascadia/ut_app/FzfTests.cpp:340-358 | "oba" in "oaaabzzar" has exactly the expected score and positions [7, 4, 0]. |
| FzfScenarios.GapsWithoutRunLoseThreeChars | src/cascadia/ut_app/FzfTests.cpp:340-358 | Both expected scores and positions hold, and the consecutive match scores strictly higher than the one with two gaps. |
| FzfScenarios.ObarInAobarExact | src/cascadia/ut_app/FzfTests.cpp:360-378 | "obar" in "aobar" has exactly the expected score and positions [4, 3, 2, 1]. |
| FzfScenarios.ObarInOabzazrExact | src/cascadia/ut_app/FzfTests.cpp:360-378 | "obar" in "oabzazr" has exactly the expected score and positions [6, 4, 2, 0]. |
| FzfScenarios.GapsOfOneLoseFourChars | src/cascadia/ut_app/FzfTests.cpp:360-378 | Both expected scores and positions hold, and the consecutive match scores strictly higher than the one with three gaps of one. |
| NewTabMenu.GetModel | src/cascadia/TerminalSettingsEditor/NewTabMenuViewModel.cpp:432-465 | A view model wraps a model entry exactly when its kind is not Invalid. |
| NewTabMenu.Kept | src/cascadia/TerminalSettingsEditor/NewTabMenuViewModel.cpp:24-84 | The kept entries are no more than the input and are all valid entries. |
| NewTabMenu.ConvertEntriesKeepsModels | src/cascadia/TerminalSettingsEditor/NewTabMenuViewModel.cpp:24-84 | Conversion yields one view model per kept entry, in order: each wraps that entry with its kind, and a folder's children are the conversion of its own entries. |
| NewTabMenu.ConvertToViewModelEntries | src/cascadia/TerminalSettingsEditor/NewTabMenuViewModel.cpp:24-84 | The loop of appends returns the conversion of the entries. |
| NewTabMenu.RemainingAtTail | src/cascadia/TerminalSettingsEditor/NewTabMenuViewModel.cpp:86-108 | A path to a remaining-profiles entry in the tail of a list shifts to a path in the list. |
| NewTabMenu.RemainingAtFolder | src/cascadia/TerminalSettingsEditor/NewTabMenuViewModel.cpp:86-108 | A path into the first folder's children extends to a path into the list. |
| NewTabMenu.FoundHasPath | src/cascadia/TerminalSettingsEditor/NewTabMenuViewModel.cpp:86-108 | When the search reports the entry present, a path of folder indices leads to a remaining-profiles entry. |
| NewTabMenu.MissingHasNoPath | src/cascadia/TerminalSettingsEditor/NewTabMenuViewModel.cpp:86-108 | When the search reports the entry missing, no path leads to one. |
| NewTabMenu.MissingIffNoPath | src/cascadia/TerminalSettingsEditor/NewTabMenuViewModel.cpp:86-108 | The search reports the entry missing exactly when no path through folders leads to a remaining-profiles entry. |
| NewTabMenu.Substr | src/cascadia/TerminalSettingsEditor/NewTabMenuViewModel.cpp:509-510 | substr(0, n) is the prefix of length n, or the whole string when n passes its end. |
| NewTabMenu.TerminatedIsJoin | src/cascadia/TerminalSettingsEditor/NewTabMenuViewModel.cpp:508-510 | A non-empty list of labels each followed by ", " is their join plus one trailing ", ". |
| NewTabMenu.TerminatedAppend | src/cascadia/TerminalSettingsEditor/NewTabMenuViewModel.cpp:494-506 | Terminating a concatenation of label lists concatenates their terminations. |
| NewTabMenu.PieceIsTerminated | src/cascadia/TerminalSettingsEditor/NewTabMenuViewModel.cpp:495-506 | The text written for one field is its label followed by ", ", or nothing for an empty field. |
| NewTabMenu.DisplayTextIsJoin | src/cascadia/TerminalSettingsEditor/NewTabMenuViewModel.cpp:492-511 | A match-profiles label is "profile: <field>" for each non-empty field in the order name, command line, source, joined by ", " with no trailing separator; with every field empty it is empty. |
| NewTabMenu.ReorderedSwaps | src/cascadia/TerminalSettingsEditor/NewTabMenuViewModel.cpp:235-251 | Moving an entry up swaps it with its predecessor, moving it down swaps it with its successor, and every other position keeps its entry; an absent entry, a first entry going up and a last entry going down leave the list unchanged. |
| NewTabMenu.ReorderedPermutes | src/cascadia/TerminalSettingsEditor/NewTabMenuViewModel.cpp:235-251 | Reordering keeps the length and the multiset of entries. |
| NewTabMenu.NewTabMenuViewModel.constructor | src/cascadia/TerminalSettingsEditor/NewTabMenuViewModel.cpp:115-145 | The page starts with the conversion of the settings' menu, the first available profile selected and empty input fields. |
| NewTabMenu.NewTabMenuViewModel.RequestReorderEntry | src/cascadia/TerminalSettingsEditor/NewTabMenuViewModel.cpp:235-251 | The new list is the reordered old list: a swap with the neighbour, or no change. |
| NewTabMenu.NewTabMenuViewModel.RequestDeleteEntry | src/cascadia/TerminalSettingsEditor/NewTabMenuViewModel.cpp:253-260 | The new list is the old list with the first occurrence of the entry removed, or unchanged when it is absent. |
| NewTabMenu.NewTabMenuViewModel.RequestAddSelectedProfileEntry | src/cascadia/TerminalSettingsEditor/NewTabMenuViewModel.cpp:262-272 | A profile entry for the selected profile is appended; with no selected profile nothing changes. |
| NewTabMenu.NewTabMenuViewModel.RequestAddSeparatorEntry | src/cascadia/TerminalSettingsEditor/NewTabMenuViewModel.cpp:274-281 | A separator entry is appended. |
| NewTabMenu.NewTabMenuViewModel.RequestAddFolderEntry | src/cascadia/TerminalSettingsEditor/NewTabMenuViewModel.cpp:283-294 | An empty folder named after the folder-name field is appended and the field is cleared. |
| NewTabMenu.NewTabMenuViewModel.RequestAddProfileMatcherEntry | src/cascadia/TerminalSettingsEditor/NewTabMenuViewModel.cpp:296-311 | A match-profiles entry built from the three matcher fields is appended and the fields are cleared. |
| NewTabMenu.NewTabMenuViewModel.RequestAddRemainingProfilesEntry | src/cascadia/TerminalSettingsEditor/NewTabMenuViewModel.cpp:313-319 | A remaining-profiles entry is appended. |
| NewTabMenu.AddedRemainingIsFound | src/cascadia/TerminalSettingsEditor/NewTabMenuViewModel.cpp:86-108 | After a remaining-profiles entry is appended, the search no longer reports one missing. |
| NewTabMenu.ConvertEntries | src/cascadia/TerminalSettingsEditor/NewTabMenuViewModel.cpp:24-84 | Converts the settings' entries, folders recursively. ConvertEntriesKeepsModels states that exactly the kept entries survive, in order. |
| NewTabMenu.IsRemainingProfilesEntryMissing | src/cascadia/TerminalSettingsEditor/NewTabMenuViewModel.cpp:86-108 | Whether no remaining-profiles entry is reachable. MissingIffNoPath states it in both directions. |
| NewTabMenu.DisplayText | src/cascadia/TerminalSettingsEditor/NewTabMenuViewModel.cpp:492-511 | A match-profiles entry's label with the last two characters chopped. DisplayTextIsJoin states that it is the non-empty fields joined by ", ". |
| NewTabMenu.Reordered | src/cascadia/TerminalSettingsEditor/NewTabMenuViewModel.cpp:235-251 | An entry moved one place up or down. ReorderedSwaps and ReorderedPermutes state that it swaps with its neighbour and keeps the multiset. |
| Vectors.IndexOf | src/cascadia/TerminalSettingsEditor/NewTabMenuViewModel.cpp:235-260 | The index found holds the element and none before it does; there is none exactly when the element is absent. |
| Vectors.RemoveAt | src/cascadia/TerminalSettingsEditor/NewTabMenuViewModel.cpp:253-260 | Removing at i keeps the elements before i and shifts the later ones down by one. |
| Vectors.InsertAt | src/cascadia/TerminalSettingsEditor/NewTabMenuViewModel.cpp:240-249 | Inserting at i puts the element at i, keeps the earlier elements and shifts the later ones up by one. |
| Vectors.InsertAtRemoveAt | src/cascadia/TerminalSettingsEditor/NewTabMenuViewModel.cpp:240-249 | Putting the removed element back where it was restores the list. |
| Vectors.MoveUpSwaps | src/cascadia/TerminalSettingsEditor/NewTabMenuViewModel.cpp:240-244 | Removing at i and inserting at i - 1 swaps positions i - 1 and i. |
| Vectors.MoveDownSwaps | src/cascadia/TerminalSettingsEditor/NewTabMenuViewModel.cpp:245-249 | Removing at i and inserting at i + 1 swaps positions i and i + 1. |
| Vectors.RemoveAtMultiset | src/cascadia/TerminalSettingsEditor/NewTabMenuViewModel.cpp:253-260 | Removing at i takes exactly one copy of that element out of the multiset. |
| Vectors.InsertAtMultiset | src/cascadia/TerminalSettingsEditor/NewTabMenuViewModel.cpp:240-249 | Inserting adds exactly one copy of the element to the multiset. |
| Vectors.RemoveFirstSpec | enc_temp_folder/9d6c6113c398a77779bdf7ded9e0eacb/ActionsViewModel.cpp:717-728 | Removing the first occurrence leaves an absent element's list unchanged; otherwise it cuts out the first position holding the element and takes one copy out of the multiset. |
| Vectors.RemoveFirst | enc_temp_folder/9d6c6113c398a77779bdf7ded9e0eacb/ActionsViewModel.cpp:717-728 | Removes the first occurrence of an element. RemoveFirstSpec states its effect. |
| Actions.KeyBindingViewModel.constructor | enc_temp_folder/9d6c6113c398a77779bdf7ded9e0eacb/ActionsViewModel.cpp:29-35 | A binding starts with the given keys and action, the proposed action equal to the current one, and every flag cleared. |
| Actions.KeyBindingViewModel.FromAvailableActions | enc_temp_folder/9d6c6113c398a77779bdf7ded9e0eacb/ActionsViewModel.cpp:26-27 | A keyless binding starts on the first available action with every flag cleared. |
| Actions.KeyBindingViewModel.ToggleEditMode | enc_temp_folder/9d6c6113c398a77779bdf7ded9e0eacb/ActionsViewModel.cpp:71-83 | Edit mode flips; entering it resets the proposed keys and action to the current ones, and leaving it changes nothing else. |
| Actions.KeyBindingViewModel.AttemptAcceptChangesWith | enc_temp_folder/9d6c6113c398a77779bdf7ded9e0eacb/ActionsViewModel.cpp:90-97 | The request carries the current keys, the new keys and the proposed action; its old action is empty exactly for a newly added binding. |
| Actions.KeyBindingViewModel.AttemptAcceptChanges | enc_temp_folder/9d6c6113c398a77779bdf7ded9e0eacb/ActionsViewModel.cpp:85-88 | Accepting sends the request for the proposed keys. |
| Actions.KeyBindingViewModel.CancelChanges | enc_temp_folder/9d6c6113c398a77779bdf7ded9e0eacb/ActionsViewModel.cpp:99-109 | A newly added binding asks to be deleted and changes nothing; any other binding toggles edit mode. |
| Actions.EditButtonWithScreenReader | enc_temp_folder/9d6c6113c398a77779bdf7ded9e0eacb/ActionsViewModel.cpp:66-69 | With a screen reader attached, the edit button shows exactly when the binding is not being edited. |
| Actions.NoEditButtonWhileEditing | enc_temp_folder/9d6c6113c398a77779bdf7ded9e0eacb/ActionsViewModel.cpp:66-69 | A binding in edit mode never shows its edit button. |
| Actions.NewActionIffNewlyAdded | enc_temp_folder/9d6c6113c398a77779bdf7ded9e0eacb/ActionsViewModel.cpp:90-97 | A bound binding's request is never a new action; a keyless binding's request is a new action exactly when it is newly added or its action name is empty. |
| Actions.KeyChordViewModel.constructor | enc_temp_folder/9d6c6113c398a77779bdf7ded9e0eacb/ActionsViewModel.cpp:262-265 | A chord starts with the given keys, no proposed keys and not in edit mode. |
| Actions.KeyChordViewModel.ToggleEditMode | enc_temp_folder/9d6c6113c398a77779bdf7ded9e0eacb/ActionsViewModel.cpp:278-288 | Edit mode flips; entering it resets the proposed keys to the current ones. |
| Actions.KeyChordViewModel.CancelChanges | enc_temp_folder/9d6c6113c398a77779bdf7ded9e0eacb/ActionsViewModel.cpp:304-307 | Cancelling toggles edit mode. |
| Actions.KeyChordViewModel.AttemptAcceptChanges | enc_temp_folder/9d6c6113c398a77779bdf7ded9e0eacb/ActionsViewModel.cpp:290-302 | A keyless chord asks to add its proposed keys. A bound chord without proposed keys fails on reading their modifiers. Otherwise a bound chord asks to modify exactly when the modifiers or virtual key differ, and asks nothing when they agree. |
| Actions.AcceptUnchangedChord | enc_temp_folder/9d6c6113c398a77779bdf7ded9e0eacb/ActionsViewModel.cpp:290-302 | Accepting a bound chord whose proposed keys are its current keys asks nothing. |
| Actions.CommandViewModel.constructor | enc_temp_folder/9d6c6113c398a77779bdf7ded9e0eacb/ActionsViewModel.cpp:111-144 | A command holds its command and the command's name as its current action. It has one fresh key-chord view model per chord, in order, each outside edit mode. It offers "Send Input" and "Close Tab", and selects the command's own action when it is one of them. Its argument editor is the one for the command. |
| Actions.MakeKeyChordViewModels | enc_temp_folder/9d6c6113c398a77779bdf7ded9e0eacb/ActionsViewModel.cpp:116-123 | The loop makes one fresh key-chord view model per chord, in order, each bound to its chord with nothing proposed and outside edit mode. |
| Actions.ShownShortcutActionOffered | enc_temp_folder/9d6c6113c398a77779bdf7ded9e0eacb/ActionsViewModel.cpp:126-144 | The shortcut action a command view model shows is one of the offered ones exactly when the command sends input or closes a tab. |
| Actions.CommandViewModel.AddKeybindingClick | enc_temp_folder/9d6c6113c398a77779bdf7ded9e0eacb/ActionsViewModel.cpp:211-217 | A fresh chord with no keys and nothing proposed, in edit mode, is appended to the command's chord list. |
| Actions.SurvivorsMembers | enc_temp_folder/9d6c6113c398a77779bdf7ded9e0eacb/ActionsViewModel.cpp:546-566 | The entries that survive the edit-mode handler are exactly the sender and the entries that are not newly added. |
| Actions.SurvivorsAppend | enc_temp_folder/9d6c6113c398a77779bdf7ded9e0eacb/ActionsViewModel.cpp:546-566 | The survivors of a concatenation are the survivors of each part, in order. |
| Actions.SurvivorsWithoutSender | enc_temp_folder/9d6c6113c398a77779bdf7ded9e0eacb/ActionsViewModel.cpp:413-431 | When the sender is not in the list, the survivors are exactly the entries that are not newly added. |
| Actions.Survivors | enc_temp_folder/9d6c6113c398a77779bdf7ded9e0eacb/ActionsViewModel.cpp:546-566 | The bindings the edit-mode walk keeps. SurvivorsMembers, SurvivorsAppend and SurvivorsWithoutSender state its properties, and PurgeOthers is proved against it. |
| Actions.ActionsViewModel.constructor | enc_temp_folder/9d6c6113c398a77779bdf7ded9e0eacb/ActionsViewModel.cpp:314-318 | The page starts with the given bindings, commands and actions, no current command, the base sub-page and no screen reader. |
| Actions.ActionsViewModel.GetContainerIndexByKeyChord | enc_temp_folder/9d6c6113c398a77779bdf7ded9e0eacb/ActionsViewModel.cpp:750-766 | The index returned is the first binding bound to the keys, by modifiers and virtual key; none exactly when no binding is. |
| Actions.ActionsViewModel.KeyBindingEditModeChanged | enc_temp_folder/9d6c6113c398a77779bdf7ded9e0eacb/ActionsViewModel.cpp:534-578 | When the sender enters edit mode, the other newly added bindings leave the list, the survivors keep their order, and every other binding leaves edit mode; otherwise the list is unchanged; no field but edit mode changes. |
| Actions.ActionsViewModel.PurgeOthers | enc_temp_folder/9d6c6113c398a77779bdf7ded9e0eacb/ActionsViewModel.cpp:546-566 | The backward walk leaves the survivors in order, takes every other non-newly-added binding out of edit mode, and leaves the sender's and removed bindings' edit mode unchanged. |
| Actions.ActionsViewModel.PurgeAt | enc_temp_folder/9d6c6113c398a77779bdf7ded9e0eacb/ActionsViewModel.cpp:548-565 | One step of the walk: the sender stays, a newly added binding is removed, and any other binding stays and leaves edit mode. |
| Actions.ActionsViewModel.DeleteKeyBinding | enc_temp_folder/9d6c6113c398a77779bdf7ded9e0eacb/ActionsViewModel.cpp:590-611 | The first occurrence of the sender is removed; when the list is not empty afterwards, the focus goes to the removed index clamped to the last index. |
| Actions.ActionsViewModel.DeleteNewlyAddedKeyBinding | enc_temp_folder/9d6c6113c398a77779bdf7ded9e0eacb/ActionsViewModel.cpp:717-728 | The front-to-back scan removes the first occurrence of the sender, or nothing when it is absent. |
| Actions.ActionsViewModel.AddNewKeybinding | enc_temp_folder/9d6c6113c398a77779bdf7ded9e0eacb/ActionsViewModel.cpp:413-431 | With no available action the first one cannot be read: the result is null and nothing changes. Otherwise a fresh, keyless, newly added binding in edit mode goes to the front; the other newly added bindings are dropped, the rest keep their order and leave edit mode, and nothing else changes. |
| Actions.ActionsViewModel.NewKeyBindingInEditMode | enc_temp_folder/9d6c6113c398a77779bdf7ded9e0eacb/ActionsViewModel.cpp:416-422 | A fresh keyless binding for the first available action, in edit mode and told about the screen reader. |
| Actions.ActionsViewModel.ModifyKeyBinding | enc_temp_folder/9d6c6113c398a77779bdf7ded9e0eacb/ActionsViewModel.cpp:613-715 | A request that is not a new action and lacks its old or new keys fails on reading their modifiers, and nothing changes. Otherwise a conflict happens exactly when the keys change and the new keys are bound, and then nothing changes. Otherwise changed keys and a changed action are applied, a changed action clears the newly added flag, and edit mode toggles. |
| Actions.ActionsViewModel.KeylessBindingScenario | enc_temp_folder/9d6c6113c398a77779bdf7ded9e0eacb/ActionsViewModel.cpp:613-663 | A new binding accepted without keys is applied. Accepting that binding's changes a second time fails on reading its absent keys. |
| Actions.ActionsViewModel.OnAutomationPeerAttached | enc_temp_folder/9d6c6113c398a77779bdf7ded9e0eacb/ActionsViewModel.cpp:401-411 | Every binding learns that a screen reader is attached and then shows its edit button exactly when it is not being edited; nothing else changes. |
| Actions.ActionsViewModel.UpdateSettings | enc_temp_folder/9d6c6113c398a77779bdf7ded9e0eacb/ActionsViewModel.cpp:320-359 | The available actions, the binding list and the command list are replaced by the rebuilt ones, so bindings still being added are gone. The current command becomes the first rebuilt command with the old current command's name, or none when there was none, its name was empty or no rebuilt command has it. |
| Actions.ActionsViewModel.CommandEditRequested | enc_temp_folder/9d6c6113c398a77779bdf7ded9e0eacb/ActionsViewModel.cpp:730-734 | Editing a command makes it current and opens the edit sub-page. |
| Actions.ActionsViewModel.CommandDeleteRequested | enc_temp_folder/9d6c6113c398a77779bdf7ded9e0eacb/ActionsViewModel.cpp:736-742 | Deleting a command clears the current command and returns to the base sub-page. |
| Actions.KeyBindingViewModel.ShowEditButton | enc_temp_folder/9d6c6113c398a77779bdf7ded9e0eacb/ActionsViewModel.cpp:66-69 | Whether the edit button shows. EditButtonWithScreenReader and NoEditButtonWhileEditing state its properties. |

## Left out

- The matcher's implementation (src/cascadia/TerminalApp/fzf) is not part of this model. The matcher is specified by its unit tests, and where the tests leave a choice (tie-breaking between equal placements, the empty pattern) the model takes the reading under which the expected results hold.
- Case folding and the character classes are ASCII only. The matcher's Unicode folding and classification are not modelled.
- FzfScenarios.ConsecutiveChars: proves only a lower bound on the score. The expected positions [4, 3, 2] are not proved: "foobar" has several placements of "oba", and settling the best one needs a search the proofs do not carry out.
- FzfScenarios.MatchOnNonWordCharsCaseInsensitive: proves only a lower bound on the score, for the same reason. The expected positions are not proved.
- FzfScenarios.TraceBackPicksEarlierCharsWhenNoBonus: proves only a lower bound on the score, for the same reason. The expected positions [13, 10, 1, 0] are not proved.
- FzfScenarios.TraceBackPicksHighestScore: proves the exact score but not the expected positions [11, 10, 9].
- FzfScenarios.TraceBackPicksHighestScoreGaps: proves the exact score but not the expected positions [17, 16, 15].
- FzfScenarios.MultipleTerms: proves the exact score, the number of positions and the first term's positions [1, 0]. The second term's positions [48, 47, 46, 45] are not proved.
- FzfScenarios.ObaInFoobarAtLeast, FzfScenarios.FooBInXfooBarBazAtLeast and FzfScenarios.CltsInCloseAllTabsAfterThisAtLeast: these term lemmas behind the three lower-bound scenarios above are lower bounds too.
- FzfScenarios.BarInFooAbarBarMatch, FzfScenarios.BarInBooAuthorRazBarMatch and FzfScenarios.AntaInSplitPaneMatch: these settle the score only, not the positions.
- NewTabMenu.DisplayTextIsJoin: assumes the label's length fits in size_t. Beyond that the subtraction in `s.size() - 2` would wrap differently. `DisplayText` itself models the size_t wrap-around that occurs when every field is empty.
- Actions.KeyBindingViewModel.constructor: the key-chord text (KeyChordSerialization::ToString) and the property-changed notifications are not modelled. KeyChordSerialization is not part of this model.
- Actions.ActionsViewModel.ModifyKeyBinding: models only the view-model side. Whether the new keys are already bound is a parameter, because it comes from the settings model. The conflict flyout, and its accept button's removal of the conflicting binding, are not modelled.
- Actions.ActionsViewModel.DeleteKeyBinding: the settings model's DeleteKeyBinding call is not modelled.
- Actions.KeyBindingViewModel.FromAvailableActions: requires a non-empty list of available actions. On an empty list the source throws when it reads the first action; a constructor cannot model that outcome, so the model forbids the call. AddNewKeybinding, its only caller, models the throw as a null result.
- Actions.ActionsViewModel.NewKeyBindingInEditMode: requires a non-empty list of available actions, for the same reason. AddNewKeybinding checks the list before calling it.
- Actions.CommandViewModel.constructor: the event registration for each chord view model (_RegisterEvents) and the property-changed handler that rebuilds the argument editor when the proposed shortcut action changes are not modelled.
- Actions.ActionsViewModel.constructor: takes the bindings, commands and available actions as already built. Building them from the settings' action map, and the std::sort calls with their comparators (_MakeCommandVMsHelper), are not modelled, because the settings model is not part of this model.
- Actions.ActionsViewModel.UpdateSettings: the rebuilt action names, binding list and command list are parameters, for the same reason.
- Calls into the settings model are not modelled, because the settings model is not part of this model. These are RebindKeys, RegisterKeyBinding, DeleteKeyBinding, AddKeyBinding, DeleteUserCommand, GetActionByKeyChord and the attempts to add, modify or delete a key chord.
- The UI is not modelled: events raised to the page (focus, background updates, flyouts), XAML controls and resource strings. Of the ActionArgsViewModel argument editors only the initial state is modelled.
- The new-tab-menu page's synchronisation of its list back into the settings model (the VectorChanged handler and folder navigation) is not modelled. It needs the settings model's menu objects, which are not part of this model.
- The new-tab-menu page's debug printing (_PrintAll, _PrintModel, _PrintVM) is not modelled; it only writes to the debugger.
- NewTabMenu.NewTabMenuViewModel.constructor: requires at least one available profile. On an empty list the source throws when it reads the first profile; a constructor cannot model that outcome, so the model forbids the call.
- Identity of view models is Dafny reference equality, but entries of the new-tab menu are compared as values. This changes which entry a delete or reorder acts on when two entries are equal. For the list [Sep, X, Sep], the source deletes the second separator by identity and leaves [Sep, X]; the model deletes the first equal value and leaves [X, Sep]. Reordering likewise moves the first equal entry. The 32-bit index types of the observable vectors are unbounded naturals here, since no list approaches that size.
