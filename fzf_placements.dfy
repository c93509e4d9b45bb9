/**
 * Concrete placements of the terms of the matcher's scenarios in their folded
 * texts: that each is a placement (and, where it is, the only one), and the score
 * it earns, worked out one position at a time. Texts and terms are parameters
 * pinned to their values, which keeps the verifier from evaluating the matcher's
 * functions on the literals wholesale.
 */
module FzfPlacements {
  import opened FzfScoring
  import opened FzfAlign
  import opened FzfScenarioFacts

  /** The positions [2, 3, 4] place "oba" in "foobar". */
  lemma ObaInFoobarPlacement(t: seq<char>, q: seq<char>)
    requires t == "foobar" && q == "oba"
    ensures IsPlacement(t, q, [2, 3, 4])
  {
    var p1: seq<nat> := [2];
    ExtendIncreasing(p1, 3);
    var p2 := p1 + [3];
    ExtendIncreasing(p2, 4);
    var p3 := p2 + [4];
    assert p3 == [2, 3, 4];
  }

  /** The positions [2, 3, 4] score 56 in "foobar". */
  lemma ObaInFoobarScore(t: seq<char>) returns (p: seq<nat>)
    requires t == "foobar"
    ensures p == [2, 3, 4] && Increasing(p) && PlacementScore(t, p) == 56 && Reverse(p) == [4, 3, 2]
  {
    assert Bonus(t, 2) == 0;
    var p1: seq<nat> := [2];
    assert PlacementScore(t, p1) == 16;
    assert Bonus(t, 3) == 0;
    ExtendPlacement(t, p1, 3);
    var p2 := p1 + [3];
    assert RunStart(t, p2) == 2 && PlacementScore(t, p2) == 36;
    assert Bonus(t, 4) == 0;
    ExtendPlacement(t, p2, 4);
    p := p2 + [4];
    assert RunStart(t, p) == 2 && PlacementScore(t, p) == 56;
  }

  /** The positions [0, 1, 2] place "foo" in "foobar", and no other placement does. */
  lemma FooInFoobarPlacement(t: seq<char>, q: seq<char>)
    requires t == "foobar" && q == "foo"
    ensures IsPlacement(t, q, [0, 1, 2])
    ensures Pinned(t, q, [0, 1, 2])
  {
    var p1: seq<nat> := [0];
    ExtendIncreasing(p1, 1);
    var p2 := p1 + [1];
    ExtendIncreasing(p2, 2);
    var p3 := p2 + [2];
    assert p3 == [0, 1, 2];
  }

  /** The positions [0, 1, 2] score 80 in "foobar". */
  lemma FooInFoobarScore(t: seq<char>) returns (p: seq<nat>)
    requires t == "foobar"
    ensures p == [0, 1, 2] && Increasing(p) && PlacementScore(t, p) == 80 && Reverse(p) == [2, 1, 0]
  {
    assert Bonus(t, 0) == 8;
    var p1: seq<nat> := [0];
    assert PlacementScore(t, p1) == 32;
    assert Bonus(t, 1) == 0;
    ExtendPlacement(t, p1, 1);
    var p2 := p1 + [1];
    assert RunStart(t, p2) == 0 && PlacementScore(t, p2) == 56;
    assert Bonus(t, 2) == 0;
    ExtendPlacement(t, p2, 2);
    p := p2 + [2];
    assert RunStart(t, p) == 0 && PlacementScore(t, p) == 80;
  }

  /** The positions [6, 7, 8, 9] place "zshc" in "/man1/zshcompctl.1", and no other placement does in the first 10 characters. */
  lemma ZshcInMan1Zshcompctl1Placement(t: seq<char>, q: seq<char>)
    requires t == "/man1/zshcompctl.1" && q == "zshc"
    ensures IsPlacement(t, q, [6, 7, 8, 9])
    ensures Pinned(t[..10], q, [6, 7, 8, 9])
  {
    var p1: seq<nat> := [6];
    ExtendIncreasing(p1, 7);
    var p2 := p1 + [7];
    ExtendIncreasing(p2, 8);
    var p3 := p2 + [8];
    ExtendIncreasing(p3, 9);
    var p4 := p3 + [9];
    assert p4 == [6, 7, 8, 9];
    assert t[..10] == "/man1/zshc";
  }

  /** The first 2 positions of [6, 7, 8, 9] score 56 in "/man1/zshcompctl.1". */
  lemma ZshcInMan1Zshcompctl1ScoreStart(t: seq<char>) returns (p: seq<nat>)
    requires t == "/man1/zshcompctl.1"
    ensures p == [6, 7] && Increasing(p) && RunStart(t, p) == 6 && PlacementScore(t, p) == 56
  {
    assert Bonus(t, 6) == 8;
    var p1: seq<nat> := [6];
    assert PlacementScore(t, p1) == 32;
    assert Bonus(t, 7) == 0;
    ExtendPlacement(t, p1, 7);
    p := p1 + [7];
    assert RunStart(t, p) == 6 && PlacementScore(t, p) == 56;
  }

  /** The positions [6, 7, 8, 9] score 104 in "/man1/zshcompctl.1". */
  lemma ZshcInMan1Zshcompctl1Score(t: seq<char>) returns (p: seq<nat>)
    requires t == "/man1/zshcompctl.1"
    ensures p == [6, 7, 8, 9] && Increasing(p) && PlacementScore(t, p) == 104 && Reverse(p) == [9, 8, 7, 6]
  {
    var q := ZshcInMan1Zshcompctl1ScoreStart(t);
    assert Bonus(t, 8) == 0;
    ExtendPlacement(t, q, 8);
    var p3 := q + [8];
    assert RunStart(t, p3) == 6 && PlacementScore(t, p3) == 80;
    assert Bonus(t, 9) == 0;
    ExtendPlacement(t, p3, 9);
    p := p3 + [9];
    assert RunStart(t, p) == 6 && PlacementScore(t, p) == 104;
  }

  /** The positions [1, 2, 3, 4, 5] place "foo-b" in "xfoo-bar baz". */
  lemma FooBInXfooBarBazPlacement(t: seq<char>, q: seq<char>)
    requires t == "xfoo-bar baz" && q == "foo-b"
    ensures IsPlacement(t, q, [1, 2, 3, 4, 5])
  {
    var p1: seq<nat> := [1];
    ExtendIncreasing(p1, 2);
    var p2 := p1 + [2];
    ExtendIncreasing(p2, 3);
    var p3 := p2 + [3];
    ExtendIncreasing(p3, 4);
    var p4 := p3 + [4];
    ExtendIncreasing(p4, 5);
    var p5 := p4 + [5];
    assert p5 == [1, 2, 3, 4, 5];
  }

  /** The first 3 positions of [1, 2, 3, 4, 5] score 56 in "xfoo-bar baz". */
  lemma FooBInXfooBarBazScoreStart(t: seq<char>) returns (p: seq<nat>)
    requires t == "xfoo-bar baz"
    ensures p == [1, 2, 3] && Increasing(p) && RunStart(t, p) == 1 && PlacementScore(t, p) == 56
  {
    assert Bonus(t, 1) == 0;
    var p1: seq<nat> := [1];
    assert PlacementScore(t, p1) == 16;
    assert Bonus(t, 2) == 0;
    ExtendPlacement(t, p1, 2);
    var p2 := p1 + [2];
    assert RunStart(t, p2) == 1 && PlacementScore(t, p2) == 36;
    assert Bonus(t, 3) == 0;
    ExtendPlacement(t, p2, 3);
    p := p2 + [3];
    assert RunStart(t, p) == 1 && PlacementScore(t, p) == 56;
  }

  /** The positions [1, 2, 3, 4, 5] score 104 in "xfoo-bar baz". */
  lemma FooBInXfooBarBazScore(t: seq<char>) returns (p: seq<nat>)
    requires t == "xfoo-bar baz"
    ensures p == [1, 2, 3, 4, 5] && Increasing(p) && PlacementScore(t, p) == 104 && Reverse(p) == [5, 4, 3, 2, 1]
  {
    var q := FooBInXfooBarBazScoreStart(t);
    assert Bonus(t, 4) == 8;
    ExtendPlacement(t, q, 4);
    var p4 := q + [4];
    assert RunStart(t, p4) == 4 && PlacementScore(t, p4) == 80;
    assert Bonus(t, 5) == 8;
    ExtendPlacement(t, p4, 5);
    p := p4 + [5];
    assert RunStart(t, p) == 5 && PlacementScore(t, p) == 104;
  }

  /** The positions [3, 4, 5, 8, 9] place "12356" in "abc123 456", and no other placement does. */
  lemma Digits12356InAbc123456Placement(t: seq<char>, q: seq<char>)
    requires t == "abc123 456" && q == "12356"
    ensures IsPlacement(t, q, [3, 4, 5, 8, 9])
    ensures Pinned(t, q, [3, 4, 5, 8, 9])
  {
    var p1: seq<nat> := [3];
    ExtendIncreasing(p1, 4);
    var p2 := p1 + [4];
    ExtendIncreasing(p2, 5);
    var p3 := p2 + [5];
    ExtendIncreasing(p3, 8);
    var p4 := p3 + [8];
    ExtendIncreasing(p4, 9);
    var p5 := p4 + [9];
    assert p5 == [3, 4, 5, 8, 9];
  }

  /** The first 3 positions of [3, 4, 5, 8, 9] score 76 in "abc123 456". */
  lemma Digits12356InAbc123456ScoreStart(t: seq<char>) returns (p: seq<nat>)
    requires t == "abc123 456"
    ensures p == [3, 4, 5] && Increasing(p) && RunStart(t, p) == 3 && PlacementScore(t, p) == 76
  {
    assert Bonus(t, 3) == 7;
    var p1: seq<nat> := [3];
    assert PlacementScore(t, p1) == 30;
    assert Bonus(t, 4) == 0;
    ExtendPlacement(t, p1, 4);
    var p2 := p1 + [4];
    assert RunStart(t, p2) == 3 && PlacementScore(t, p2) == 53;
    assert Bonus(t, 5) == 0;
    ExtendPlacement(t, p2, 5);
    p := p2 + [5];
    assert RunStart(t, p) == 3 && PlacementScore(t, p) == 76;
  }

  /** The positions [3, 4, 5, 8, 9] score 108 in "abc123 456". */
  lemma Digits12356InAbc123456Score(t: seq<char>) returns (p: seq<nat>)
    requires t == "abc123 456"
    ensures p == [3, 4, 5, 8, 9] && Increasing(p) && PlacementScore(t, p) == 108 && Reverse(p) == [9, 8, 5, 4, 3]
  {
    var q := Digits12356InAbc123456ScoreStart(t);
    assert Bonus(t, 8) == 0;
    ExtendPlacement(t, q, 8);
    var p4 := q + [8];
    assert RunStart(t, p4) == 8 && PlacementScore(t, p4) == 88;
    assert Bonus(t, 9) == 0;
    ExtendPlacement(t, p4, 9);
    p := p4 + [9];
    assert RunStart(t, p) == 8 && PlacementScore(t, p) == 108;
  }

  /** The positions [0, 4, 8] place "fbb" in "foo bar baz", and no other placement does. */
  lemma FbbInFooBarBazPlacement(t: seq<char>, q: seq<char>)
    requires t == "foo bar baz" && q == "fbb"
    ensures IsPlacement(t, q, [0, 4, 8])
    ensures Pinned(t, q, [0, 4, 8])
  {
    var p1: seq<nat> := [0];
    ExtendIncreasing(p1, 4);
    var p2 := p1 + [4];
    ExtendIncreasing(p2, 8);
    var p3 := p2 + [8];
    assert p3 == [0, 4, 8];
  }

  /** The positions [0, 4, 8] score 70 in "foo bar baz". */
  lemma FbbInFooBarBazScore(t: seq<char>) returns (p: seq<nat>)
    requires t == "foo bar baz"
    ensures p == [0, 4, 8] && Increasing(p) && PlacementScore(t, p) == 70 && Reverse(p) == [8, 4, 0]
  {
    assert Bonus(t, 0) == 8;
    var p1: seq<nat> := [0];
    assert PlacementScore(t, p1) == 32;
    assert Bonus(t, 4) == 8;
    ExtendPlacement(t, p1, 4);
    var p2 := p1 + [4];
    assert RunStart(t, p2) == 4 && PlacementScore(t, p2) == 51;
    assert Bonus(t, 8) == 8;
    ExtendPlacement(t, p2, 8);
    p := p2 + [8];
    assert RunStart(t, p) == 8 && PlacementScore(t, p) == 70;
  }

  /** The positions [4, 5, 6] place "bar" in "foo bar bar", and no other placement does in the first 7 characters. */
  lemma BarInFooBarBarPlacement(t: seq<char>, q: seq<char>)
    requires t == "foo bar bar" && q == "bar"
    ensures IsPlacement(t, q, [4, 5, 6])
    ensures Pinned(t[..7], q, [4, 5, 6])
  {
    var p1: seq<nat> := [4];
    ExtendIncreasing(p1, 5);
    var p2 := p1 + [5];
    ExtendIncreasing(p2, 6);
    var p3 := p2 + [6];
    assert p3 == [4, 5, 6];
    assert t[..7] == "foo bar";
  }

  /** The positions [4, 5, 6] score 80 in "foo bar bar". */
  lemma BarInFooBarBarScore(t: seq<char>) returns (p: seq<nat>)
    requires t == "foo bar bar"
    ensures p == [4, 5, 6] && Increasing(p) && PlacementScore(t, p) == 80 && Reverse(p) == [6, 5, 4]
  {
    assert Bonus(t, 4) == 8;
    var p1: seq<nat> := [4];
    assert PlacementScore(t, p1) == 32;
    assert Bonus(t, 5) == 0;
    ExtendPlacement(t, p1, 5);
    var p2 := p1 + [5];
    assert RunStart(t, p2) == 4 && PlacementScore(t, p2) == 56;
    assert Bonus(t, 6) == 0;
    ExtendPlacement(t, p2, 6);
    p := p2 + [6];
    assert RunStart(t, p) == 4 && PlacementScore(t, p) == 80;
  }

  /** The positions [9, 10, 11] place "bar" in "foo abar bar". */
  lemma BarInFooAbarBarPlacement(t: seq<char>, q: seq<char>)
    requires t == "foo abar bar" && q == "bar"
    ensures IsPlacement(t, q, [9, 10, 11])
  {
    var p1: seq<nat> := [9];
    ExtendIncreasing(p1, 10);
    var p2 := p1 + [10];
    ExtendIncreasing(p2, 11);
    var p3 := p2 + [11];
    assert p3 == [9, 10, 11];
  }

  /** The positions [9, 10, 11] score 80 in "foo abar bar". */
  lemma BarInFooAbarBarScore(t: seq<char>) returns (p: seq<nat>)
    requires t == "foo abar bar"
    ensures p == [9, 10, 11] && Increasing(p) && PlacementScore(t, p) == 80 && Reverse(p) == [11, 10, 9]
  {
    assert Bonus(t, 9) == 8;
    var p1: seq<nat> := [9];
    assert PlacementScore(t, p1) == 32;
    assert Bonus(t, 10) == 0;
    ExtendPlacement(t, p1, 10);
    var p2 := p1 + [10];
    assert RunStart(t, p2) == 9 && PlacementScore(t, p2) == 56;
    assert Bonus(t, 11) == 0;
    ExtendPlacement(t, p2, 11);
    p := p2 + [11];
    assert RunStart(t, p) == 9 && PlacementScore(t, p) == 80;
  }

  /** The positions [15, 16, 17] place "bar" in "boo author raz bar". */
  lemma BarInBooAuthorRazBarPlacement(t: seq<char>, q: seq<char>)
    requires t == "boo author raz bar" && q == "bar"
    ensures IsPlacement(t, q, [15, 16, 17])
  {
    var p1: seq<nat> := [15];
    ExtendIncreasing(p1, 16);
    var p2 := p1 + [16];
    ExtendIncreasing(p2, 17);
    var p3 := p2 + [17];
    assert p3 == [15, 16, 17];
  }

  /** The positions [15, 16, 17] score 80 in "boo author raz bar". */
  lemma BarInBooAuthorRazBarScore(t: seq<char>) returns (p: seq<nat>)
    requires t == "boo author raz bar"
    ensures p == [15, 16, 17] && Increasing(p) && PlacementScore(t, p) == 80 && Reverse(p) == [17, 16, 15]
  {
    assert Bonus(t, 15) == 8;
    var p1: seq<nat> := [15];
    assert PlacementScore(t, p1) == 32;
    assert Bonus(t, 16) == 0;
    ExtendPlacement(t, p1, 16);
    var p2 := p1 + [16];
    assert RunStart(t, p2) == 15 && PlacementScore(t, p2) == 56;
    assert Bonus(t, 17) == 0;
    ExtendPlacement(t, p2, 17);
    p := p2 + [17];
    assert RunStart(t, p) == 15 && PlacementScore(t, p) == 80;
  }

  /** The positions [0, 1, 10, 13] place "clts" in "close all tabs after this". */
  lemma CltsInCloseAllTabsAfterThisPlacement(t: seq<char>, q: seq<char>)
    requires t == "close all tabs after this" && q == "clts"
    ensures IsPlacement(t, q, [0, 1, 10, 13])
  {
    var p1: seq<nat> := [0];
    ExtendIncreasing(p1, 1);
    var p2 := p1 + [1];
    ExtendIncreasing(p2, 10);
    var p3 := p2 + [10];
    ExtendIncreasing(p3, 13);
    var p4 := p3 + [13];
    assert p4 == [0, 1, 10, 13];
  }

  /** The first 2 positions of [0, 1, 10, 13] score 56 in "close all tabs after this". */
  lemma CltsInCloseAllTabsAfterThisScoreStart(t: seq<char>) returns (p: seq<nat>)
    requires t == "close all tabs after this"
    ensures p == [0, 1] && Increasing(p) && RunStart(t, p) == 0 && PlacementScore(t, p) == 56
  {
    assert Bonus(t, 0) == 8;
    var p1: seq<nat> := [0];
    assert PlacementScore(t, p1) == 32;
    assert Bonus(t, 1) == 0;
    ExtendPlacement(t, p1, 1);
    p := p1 + [1];
    assert RunStart(t, p) == 0 && PlacementScore(t, p) == 56;
  }

  /** The positions [0, 1, 10, 13] score 82 in "close all tabs after this". */
  lemma CltsInCloseAllTabsAfterThisScore(t: seq<char>) returns (p: seq<nat>)
    requires t == "close all tabs after this"
    ensures p == [0, 1, 10, 13] && Increasing(p) && PlacementScore(t, p) == 82 && Reverse(p) == [13, 10, 1, 0]
  {
    var q := CltsInCloseAllTabsAfterThisScoreStart(t);
    assert Bonus(t, 10) == 8;
    ExtendPlacement(t, q, 10);
    var p3 := q + [10];
    assert RunStart(t, p3) == 10 && PlacementScore(t, p3) == 70;
    assert Bonus(t, 13) == 0;
    ExtendPlacement(t, p3, 13);
    p := p3 + [13];
    assert RunStart(t, p) == 13 && PlacementScore(t, p) == 82;
  }

  /** The positions [1, 2, 3] place "oob" in "aoobar", and no other placement does. */
  lemma OobInAoobarPlacement(t: seq<char>, q: seq<char>)
    requires t == "aoobar" && q == "oob"
    ensures IsPlacement(t, q, [1, 2, 3])
    ensures Pinned(t, q, [1, 2, 3])
  {
    var p1: seq<nat> := [1];
    ExtendIncreasing(p1, 2);
    var p2 := p1 + [2];
    ExtendIncreasing(p2, 3);
    var p3 := p2 + [3];
    assert p3 == [1, 2, 3];
  }

  /** The positions [1, 2, 3] score 56 in "aoobar". */
  lemma OobInAoobarScore(t: seq<char>) returns (p: seq<nat>)
    requires t == "aoobar"
    ensures p == [1, 2, 3] && Increasing(p) && PlacementScore(t, p) == 56 && Reverse(p) == [3, 2, 1]
  {
    assert Bonus(t, 1) == 0;
    var p1: seq<nat> := [1];
    assert PlacementScore(t, p1) == 16;
    assert Bonus(t, 2) == 0;
    ExtendPlacement(t, p1, 2);
    var p2 := p1 + [2];
    assert RunStart(t, p2) == 1 && PlacementScore(t, p2) == 36;
    assert Bonus(t, 3) == 0;
    ExtendPlacement(t, p2, 3);
    p := p2 + [3];
    assert RunStart(t, p) == 1 && PlacementScore(t, p) == 56;
  }

  /** The positions [1, 3, 5] place "oob" in "aoaoabound", and no other placement does. */
  lemma OobInAoaoaboundPlacement(t: seq<char>, q: seq<char>)
    requires t == "aoaoabound" && q == "oob"
    ensures IsPlacement(t, q, [1, 3, 5])
    ensures Pinned(t, q, [1, 3, 5])
  {
    var p1: seq<nat> := [1];
    ExtendIncreasing(p1, 3);
    var p2 := p1 + [3];
    ExtendIncreasing(p2, 5);
    var p3 := p2 + [5];
    assert p3 == [1, 3, 5];
  }

  /** The positions [1, 3, 5] score 42 in "aoaoabound". */
  lemma OobInAoaoaboundScore(t: seq<char>) returns (p: seq<nat>)
    requires t == "aoaoabound"
    ensures p == [1, 3, 5] && Increasing(p) && PlacementScore(t, p) == 42 && Reverse(p) == [5, 3, 1]
  {
    assert Bonus(t, 1) == 0;
    var p1: seq<nat> := [1];
    assert PlacementScore(t, p1) == 16;
    assert Bonus(t, 3) == 0;
    ExtendPlacement(t, p1, 3);
    var p2 := p1 + [3];
    assert RunStart(t, p2) == 3 && PlacementScore(t, p2) == 29;
    assert Bonus(t, 5) == 0;
    ExtendPlacement(t, p2, 5);
    p := p2 + [5];
    assert RunStart(t, p) == 5 && PlacementScore(t, p) == 42;
  }

  /** The positions [0, 1, 2] place "oob" in "oobar", and no other placement does. */
  lemma OobInOobarPlacement(t: seq<char>, q: seq<char>)
    requires t == "oobar" && q == "oob"
    ensures IsPlacement(t, q, [0, 1, 2])
    ensures Pinned(t, q, [0, 1, 2])
  {
    var p1: seq<nat> := [0];
    ExtendIncreasing(p1, 1);
    var p2 := p1 + [1];
    ExtendIncreasing(p2, 2);
    var p3 := p2 + [2];
    assert p3 == [0, 1, 2];
  }

  /** The positions [0, 1, 2] score 80 in "oobar". */
  lemma OobInOobarScore(t: seq<char>) returns (p: seq<nat>)
    requires t == "oobar"
    ensures p == [0, 1, 2] && Increasing(p) && PlacementScore(t, p) == 80 && Reverse(p) == [2, 1, 0]
  {
    assert Bonus(t, 0) == 8;
    var p1: seq<nat> := [0];
    assert PlacementScore(t, p1) == 32;
    assert Bonus(t, 1) == 0;
    ExtendPlacement(t, p1, 1);
    var p2 := p1 + [1];
    assert RunStart(t, p2) == 0 && PlacementScore(t, p2) == 56;
    assert Bonus(t, 2) == 0;
    ExtendPlacement(t, p2, 2);
    p := p2 + [2];
    assert RunStart(t, p) == 0 && PlacementScore(t, p) == 80;
  }

  /** The positions [0, 2, 4] place "oob" in "oaoabound", and no other placement does. */
  lemma OobInOaoaboundPlacement(t: seq<char>, q: seq<char>)
    requires t == "oaoabound" && q == "oob"
    ensures IsPlacement(t, q, [0, 2, 4])
    ensures Pinned(t, q, [0, 2, 4])
  {
    var p1: seq<nat> := [0];
    ExtendIncreasing(p1, 2);
    var p2 := p1 + [2];
    ExtendIncreasing(p2, 4);
    var p3 := p2 + [4];
    assert p3 == [0, 2, 4];
  }

  /** The positions [0, 2, 4] score 58 in "oaoabound". */
  lemma OobInOaoaboundScore(t: seq<char>) returns (p: seq<nat>)
    requires t == "oaoabound"
    ensures p == [0, 2, 4] && Increasing(p) && PlacementScore(t, p) == 58 && Reverse(p) == [4, 2, 0]
  {
    assert Bonus(t, 0) == 8;
    var p1: seq<nat> := [0];
    assert PlacementScore(t, p1) == 32;
    assert Bonus(t, 2) == 0;
    ExtendPlacement(t, p1, 2);
    var p2 := p1 + [2];
    assert RunStart(t, p2) == 2 && PlacementScore(t, p2) == 45;
    assert Bonus(t, 4) == 0;
    ExtendPlacement(t, p2, 4);
    p := p2 + [4];
    assert RunStart(t, p) == 4 && PlacementScore(t, p) == 58;
  }

  /** The positions [1, 2, 3] place "oob" in "foobar", and no other placement does. */
  lemma OobInFoobarPlacement(t: seq<char>, q: seq<char>)
    requires t == "foobar" && q == "oob"
    ensures IsPlacement(t, q, [1, 2, 3])
    ensures Pinned(t, q, [1, 2, 3])
  {
    var p1: seq<nat> := [1];
    ExtendIncreasing(p1, 2);
    var p2 := p1 + [2];
    ExtendIncreasing(p2, 3);
    var p3 := p2 + [3];
    assert p3 == [1, 2, 3];
  }

  /** The positions [1, 2, 3] score 56 in "foobar". */
  lemma OobInFoobarScore(t: seq<char>) returns (p: seq<nat>)
    requires t == "foobar"
    ensures p == [1, 2, 3] && Increasing(p) && PlacementScore(t, p) == 56 && Reverse(p) == [3, 2, 1]
  {
    assert Bonus(t, 1) == 0;
    var p1: seq<nat> := [1];
    assert PlacementScore(t, p1) == 16;
    assert Bonus(t, 2) == 0;
    ExtendPlacement(t, p1, 2);
    var p2 := p1 + [2];
    assert RunStart(t, p2) == 1 && PlacementScore(t, p2) == 36;
    assert Bonus(t, 3) == 0;
    ExtendPlacement(t, p2, 3);
    p := p2 + [3];
    assert RunStart(t, p) == 1 && PlacementScore(t, p) == 56;
  }

  /** The positions [0, 4, 7] place "oob" in "out-of-bound", and no other placement does. */
  lemma OobInOutOfBoundPlacement(t: seq<char>, q: seq<char>)
    requires t == "out-of-bound" && q == "oob"
    ensures IsPlacement(t, q, [0, 4, 7])
    ensures Pinned(t, q, [0, 4, 7])
  {
    var p1: seq<nat> := [0];
    ExtendIncreasing(p1, 4);
    var p2 := p1 + [4];
    ExtendIncreasing(p2, 7);
    var p3 := p2 + [7];
    assert p3 == [0, 4, 7];
  }

  /** The positions [0, 4, 7] score 71 in "out-of-bound". */
  lemma OobInOutOfBoundScore(t: seq<char>) returns (p: seq<nat>)
    requires t == "out-of-bound"
    ensures p == [0, 4, 7] && Increasing(p) && PlacementScore(t, p) == 71 && Reverse(p) == [7, 4, 0]
  {
    assert Bonus(t, 0) == 8;
    var p1: seq<nat> := [0];
    assert PlacementScore(t, p1) == 32;
    assert Bonus(t, 4) == 8;
    ExtendPlacement(t, p1, 4);
    var p2 := p1 + [4];
    assert RunStart(t, p2) == 4 && PlacementScore(t, p2) == 51;
    assert Bonus(t, 7) == 8;
    ExtendPlacement(t, p2, 7);
    p := p2 + [7];
    assert RunStart(t, p) == 7 && PlacementScore(t, p) == 71;
  }

  /** The positions [1, 2] place "ob" in "aobar", and no other placement does. */
  lemma ObInAobarPlacement(t: seq<char>, q: seq<char>)
    requires t == "aobar" && q == "ob"
    ensures IsPlacement(t, q, [1, 2])
    ensures Pinned(t, q, [1, 2])
  {
    var p1: seq<nat> := [1];
    ExtendIncreasing(p1, 2);
    var p2 := p1 + [2];
    assert p2 == [1, 2];
  }

  /** The positions [1, 2] score 36 in "aobar". */
  lemma ObInAobarScore(t: seq<char>) returns (p: seq<nat>)
    requires t == "aobar"
    ensures p == [1, 2] && Increasing(p) && PlacementScore(t, p) == 36 && Reverse(p) == [2, 1]
  {
    assert Bonus(t, 1) == 0;
    var p1: seq<nat> := [1];
    assert PlacementScore(t, p1) == 16;
    assert Bonus(t, 2) == 0;
    ExtendPlacement(t, p1, 2);
    p := p1 + [2];
    assert RunStart(t, p) == 1 && PlacementScore(t, p) == 36;
  }

  /** The positions [0, 2] place "ob" in "oabar", and no other placement does. */
  lemma ObInOabarPlacement(t: seq<char>, q: seq<char>)
    requires t == "oabar" && q == "ob"
    ensures IsPlacement(t, q, [0, 2])
    ensures Pinned(t, q, [0, 2])
  {
    var p1: seq<nat> := [0];
    ExtendIncreasing(p1, 2);
    var p2 := p1 + [2];
    assert p2 == [0, 2];
  }

  /** The positions [0, 2] score 45 in "oabar". */
  lemma ObInOabarScore(t: seq<char>) returns (p: seq<nat>)
    requires t == "oabar"
    ensures p == [0, 2] && Increasing(p) && PlacementScore(t, p) == 45 && Reverse(p) == [2, 0]
  {
    assert Bonus(t, 0) == 8;
    var p1: seq<nat> := [0];
    assert PlacementScore(t, p1) == 32;
    assert Bonus(t, 2) == 0;
    ExtendPlacement(t, p1, 2);
    p := p1 + [2];
    assert RunStart(t, p) == 2 && PlacementScore(t, p) == 45;
  }

  /** The positions [0, 12] place "ob" in "oaaaaaaaaaaabar", and no other placement does. */
  lemma ObInOaaaaaaaaaaabarPlacement(t: seq<char>, q: seq<char>)
    requires t == "oaaaaaaaaaaabar" && q == "ob"
    ensures IsPlacement(t, q, [0, 12])
    ensures Pinned(t, q, [0, 12])
  {
    var p1: seq<nat> := [0];
    ExtendIncreasing(p1, 12);
    var p2 := p1 + [12];
    assert p2 == [0, 12];
  }

  /** The positions [0, 12] score 35 in "oaaaaaaaaaaabar". */
  lemma ObInOaaaaaaaaaaabarScore(t: seq<char>) returns (p: seq<nat>)
    requires t == "oaaaaaaaaaaabar"
    ensures p == [0, 12] && Increasing(p) && PlacementScore(t, p) == 35 && Reverse(p) == [12, 0]
  {
    assert Bonus(t, 0) == 8;
    var p1: seq<nat> := [0];
    assert PlacementScore(t, p1) == 32;
    assert Bonus(t, 12) == 0;
    ExtendPlacement(t, p1, 12);
    p := p1 + [12];
    assert RunStart(t, p) == 12 && PlacementScore(t, p) == 35;
  }

  /** The positions [1, 2, 3] place "oba" in "aobar", and no other placement does. */
  lemma ObaInAobarPlacement(t: seq<char>, q: seq<char>)
    requires t == "aobar" && q == "oba"
    ensures IsPlacement(t, q, [1, 2, 3])
    ensures Pinned(t, q, [1, 2, 3])
  {
    var p1: seq<nat> := [1];
    ExtendIncreasing(p1, 2);
    var p2 := p1 + [2];
    ExtendIncreasing(p2, 3);
    var p3 := p2 + [3];
    assert p3 == [1, 2, 3];
  }

  /** The positions [1, 2, 3] score 56 in "aobar". */
  lemma ObaInAobarScore(t: seq<char>) returns (p: seq<nat>)
    requires t == "aobar"
    ensures p == [1, 2, 3] && Increasing(p) && PlacementScore(t, p) == 56 && Reverse(p) == [3, 2, 1]
  {
    assert Bonus(t, 1) == 0;
    var p1: seq<nat> := [1];
    assert PlacementScore(t, p1) == 16;
    assert Bonus(t, 2) == 0;
    ExtendPlacement(t, p1, 2);
    var p2 := p1 + [2];
    assert RunStart(t, p2) == 1 && PlacementScore(t, p2) == 36;
    assert Bonus(t, 3) == 0;
    ExtendPlacement(t, p2, 3);
    p := p2 + [3];
    assert RunStart(t, p) == 1 && PlacementScore(t, p) == 56;
  }

  /** The positions [0, 12, 13] place "oba" in "oaaaaaaaaaaabar", and no other placement does. */
  lemma ObaInOaaaaaaaaaaabarPlacement(t: seq<char>, q: seq<char>)
    requires t == "oaaaaaaaaaaabar" && q == "oba"
    ensures IsPlacement(t, q, [0, 12, 13])
    ensures Pinned(t, q, [0, 12, 13])
  {
    var p1: seq<nat> := [0];
    ExtendIncreasing(p1, 12);
    var p2 := p1 + [12];
    ExtendIncreasing(p2, 13);
    var p3 := p2 + [13];
    assert p3 == [0, 12, 13];
  }

  /** The positions [0, 12, 13] score 55 in "oaaaaaaaaaaabar". */
  lemma ObaInOaaaaaaaaaaabarScore(t: seq<char>) returns (p: seq<nat>)
    requires t == "oaaaaaaaaaaabar"
    ensures p == [0, 12, 13] && Increasing(p) && PlacementScore(t, p) == 55 && Reverse(p) == [13, 12, 0]
  {
    assert Bonus(t, 0) == 8;
    var p1: seq<nat> := [0];
    assert PlacementScore(t, p1) == 32;
    assert Bonus(t, 12) == 0;
    ExtendPlacement(t, p1, 12);
    var p2 := p1 + [12];
    assert RunStart(t, p2) == 12 && PlacementScore(t, p2) == 35;
    assert Bonus(t, 13) == 0;
    ExtendPlacement(t, p2, 13);
    p := p2 + [13];
    assert RunStart(t, p) == 12 && PlacementScore(t, p) == 55;
  }

  /** The positions [0, 4, 7] place "oba" in "oaaabzzar", and no other placement does. */
  lemma ObaInOaaabzzarPlacement(t: seq<char>, q: seq<char>)
    requires t == "oaaabzzar" && q == "oba"
    ensures IsPlacement(t, q, [0, 4, 7])
    ensures Pinned(t, q, [0, 4, 7])
  {
    var p1: seq<nat> := [0];
    ExtendIncreasing(p1, 4);
    var p2 := p1 + [4];
    ExtendIncreasing(p2, 7);
    var p3 := p2 + [7];
    assert p3 == [0, 4, 7];
  }

  /** The positions [0, 4, 7] score 55 in "oaaabzzar". */
  lemma ObaInOaaabzzarScore(t: seq<char>) returns (p: seq<nat>)
    requires t == "oaaabzzar"
    ensures p == [0, 4, 7] && Increasing(p) && PlacementScore(t, p) == 55 && Reverse(p) == [7, 4, 0]
  {
    assert Bonus(t, 0) == 8;
    var p1: seq<nat> := [0];
    assert PlacementScore(t, p1) == 32;
    assert Bonus(t, 4) == 0;
    ExtendPlacement(t, p1, 4);
    var p2 := p1 + [4];
    assert RunStart(t, p2) == 4 && PlacementScore(t, p2) == 43;
    assert Bonus(t, 7) == 0;
    ExtendPlacement(t, p2, 7);
    p := p2 + [7];
    assert RunStart(t, p) == 7 && PlacementScore(t, p) == 55;
  }

  /** The positions [1, 2, 3, 4] place "obar" in "aobar", and no other placement does. */
  lemma ObarInAobarPlacement(t: seq<char>, q: seq<char>)
    requires t == "aobar" && q == "obar"
    ensures IsPlacement(t, q, [1, 2, 3, 4])
    ensures Pinned(t, q, [1, 2, 3, 4])
  {
    var p1: seq<nat> := [1];
    ExtendIncreasing(p1, 2);
    var p2 := p1 + [2];
    ExtendIncreasing(p2, 3);
    var p3 := p2 + [3];
    ExtendIncreasing(p3, 4);
    var p4 := p3 + [4];
    assert p4 == [1, 2, 3, 4];
  }

  /** The first 2 positions of [1, 2, 3, 4] score 36 in "aobar". */
  lemma ObarInAobarScoreStart(t: seq<char>) returns (p: seq<nat>)
    requires t == "aobar"
    ensures p == [1, 2] && Increasing(p) && RunStart(t, p) == 1 && PlacementScore(t, p) == 36
  {
    assert Bonus(t, 1) == 0;
    var p1: seq<nat> := [1];
    assert PlacementScore(t, p1) == 16;
    assert Bonus(t, 2) == 0;
    ExtendPlacement(t, p1, 2);
    p := p1 + [2];
    assert RunStart(t, p) == 1 && PlacementScore(t, p) == 36;
  }

  /** The positions [1, 2, 3, 4] score 76 in "aobar". */
  lemma ObarInAobarScore(t: seq<char>) returns (p: seq<nat>)
    requires t == "aobar"
    ensures p == [1, 2, 3, 4] && Increasing(p) && PlacementScore(t, p) == 76 && Reverse(p) == [4, 3, 2, 1]
  {
    var q := ObarInAobarScoreStart(t);
    assert Bonus(t, 3) == 0;
    ExtendPlacement(t, q, 3);
    var p3 := q + [3];
    assert RunStart(t, p3) == 1 && PlacementScore(t, p3) == 56;
    assert Bonus(t, 4) == 0;
    ExtendPlacement(t, p3, 4);
    p := p3 + [4];
    assert RunStart(t, p) == 1 && PlacementScore(t, p) == 76;
  }

  /** The positions [0, 2, 4, 6] place "obar" in "oabzazr", and no other placement does. */
  lemma ObarInOabzazrPlacement(t: seq<char>, q: seq<char>)
    requires t == "oabzazr" && q == "obar"
    ensures IsPlacement(t, q, [0, 2, 4, 6])
    ensures Pinned(t, q, [0, 2, 4, 6])
  {
    var p1: seq<nat> := [0];
    ExtendIncreasing(p1, 2);
    var p2 := p1 + [2];
    ExtendIncreasing(p2, 4);
    var p3 := p2 + [4];
    ExtendIncreasing(p3, 6);
    var p4 := p3 + [6];
    assert p4 == [0, 2, 4, 6];
  }

  /** The first 2 positions of [0, 2, 4, 6] score 45 in "oabzazr". */
  lemma ObarInOabzazrScoreStart(t: seq<char>) returns (p: seq<nat>)
    requires t == "oabzazr"
    ensures p == [0, 2] && Increasing(p) && RunStart(t, p) == 2 && PlacementScore(t, p) == 45
  {
    assert Bonus(t, 0) == 8;
    var p1: seq<nat> := [0];
    assert PlacementScore(t, p1) == 32;
    assert Bonus(t, 2) == 0;
    ExtendPlacement(t, p1, 2);
    p := p1 + [2];
    assert RunStart(t, p) == 2 && PlacementScore(t, p) == 45;
  }

  /** The positions [0, 2, 4, 6] score 71 in "oabzazr". */
  lemma ObarInOabzazrScore(t: seq<char>) returns (p: seq<nat>)
    requires t == "oabzazr"
    ensures p == [0, 2, 4, 6] && Increasing(p) && PlacementScore(t, p) == 71 && Reverse(p) == [6, 4, 2, 0]
  {
    var q := ObarInOabzazrScoreStart(t);
    assert Bonus(t, 4) == 0;
    ExtendPlacement(t, q, 4);
    var p3 := q + [4];
    assert RunStart(t, p3) == 4 && PlacementScore(t, p3) == 58;
    assert Bonus(t, 6) == 0;
    ExtendPlacement(t, p3, 6);
    p := p3 + [6];
    assert RunStart(t, p) == 6 && PlacementScore(t, p) == 71;
  }

  /** The positions [0, 1] place "sp" in "split pane, split: horizontal, profile: ssh: antares", and no other placement does in the first 2 characters. */
  lemma SpInSplitPanePlacement(t: seq<char>, q: seq<char>)
    requires t == "split pane, " + "split: " + "horizontal, " + "profile: " + "ssh: " + "antares" && q == "sp"
    ensures IsPlacement(t, q, [0, 1])
    ensures Pinned(t[..2], q, [0, 1])
  {
    var p1: seq<nat> := [0];
    ExtendIncreasing(p1, 1);
    var p2 := p1 + [1];
    assert p2 == [0, 1];
    assert t[..2] == "sp";
  }

  /** The positions [0, 1] score 56 in "split pane, split: horizontal, profile: ssh: antares". */
  lemma SpInSplitPaneScore(t: seq<char>) returns (p: seq<nat>)
    requires t == "split pane, " + "split: " + "horizontal, " + "profile: " + "ssh: " + "antares"
    ensures p == [0, 1] && Increasing(p) && PlacementScore(t, p) == 56 && Reverse(p) == [1, 0]
  {
    assert Bonus(t, 0) == 8;
    var p1: seq<nat> := [0];
    assert PlacementScore(t, p1) == 32;
    assert Bonus(t, 1) == 0;
    ExtendPlacement(t, p1, 1);
    p := p1 + [1];
    assert RunStart(t, p) == 0 && PlacementScore(t, p) == 56;
  }

  /** The positions [45, 46, 47, 48] place "anta" in "split pane, split: horizontal, profile: ssh: antares". */
  lemma AntaInSplitPanePlacement(t: seq<char>, q: seq<char>)
    requires t == "split pane, " + "split: " + "horizontal, " + "profile: " + "ssh: " + "antares" && q == "anta"
    ensures IsPlacement(t, q, [45, 46, 47, 48])
  {
    var p1: seq<nat> := [45];
    ExtendIncreasing(p1, 46);
    var p2 := p1 + [46];
    ExtendIncreasing(p2, 47);
    var p3 := p2 + [47];
    ExtendIncreasing(p3, 48);
    var p4 := p3 + [48];
    assert p4 == [45, 46, 47, 48];
  }

  /** The first 2 positions of [45, 46, 47, 48] score 56 in "split pane, split: horizontal, profile: ssh: antares". */
  lemma AntaInSplitPaneScoreStart(t: seq<char>) returns (p: seq<nat>)
    requires t == "split pane, " + "split: " + "horizontal, " + "profile: " + "ssh: " + "antares"
    ensures p == [45, 46] && Increasing(p) && RunStart(t, p) == 45 && PlacementScore(t, p) == 56
  {
    assert Bonus(t, 45) == 8;
    var p1: seq<nat> := [45];
    assert PlacementScore(t, p1) == 32;
    assert Bonus(t, 46) == 0;
    ExtendPlacement(t, p1, 46);
    p := p1 + [46];
    assert RunStart(t, p) == 45 && PlacementScore(t, p) == 56;
  }

  /** The positions [45, 46, 47, 48] score 104 in "split pane, split: horizontal, profile: ssh: antares". */
  lemma AntaInSplitPaneScore(t: seq<char>) returns (p: seq<nat>)
    requires t == "split pane, " + "split: " + "horizontal, " + "profile: " + "ssh: " + "antares"
    ensures p == [45, 46, 47, 48] && Increasing(p) && PlacementScore(t, p) == 104 && Reverse(p) == [48, 47, 46, 45]
  {
    var q := AntaInSplitPaneScoreStart(t);
    assert Bonus(t, 47) == 0;
    ExtendPlacement(t, q, 47);
    var p3 := q + [47];
    assert RunStart(t, p3) == 45 && PlacementScore(t, p3) == 80;
    assert Bonus(t, 48) == 0;
    ExtendPlacement(t, p3, 48);
    p := p3 + [48];
    assert RunStart(t, p) == 45 && PlacementScore(t, p) == 104;
  }

  /** The positions [0, 1, 2] place "foo" in "foo bar", and no other placement does. */
  lemma FooInFooBarPlacement(t: seq<char>, q: seq<char>)
    requires t == "foo bar" && q == "foo"
    ensures IsPlacement(t, q, [0, 1, 2])
    ensures Pinned(t, q, [0, 1, 2])
  {
    var p1: seq<nat> := [0];
    ExtendIncreasing(p1, 1);
    var p2 := p1 + [1];
    ExtendIncreasing(p2, 2);
    var p3 := p2 + [2];
    assert p3 == [0, 1, 2];
  }

  /** The positions [0, 1, 2] score 80 in "foo bar". */
  lemma FooInFooBarScore(t: seq<char>) returns (p: seq<nat>)
    requires t == "foo bar"
    ensures p == [0, 1, 2] && Increasing(p) && PlacementScore(t, p) == 80 && Reverse(p) == [2, 1, 0]
  {
    assert Bonus(t, 0) == 8;
    var p1: seq<nat> := [0];
    assert PlacementScore(t, p1) == 32;
    assert Bonus(t, 1) == 0;
    ExtendPlacement(t, p1, 1);
    var p2 := p1 + [1];
    assert RunStart(t, p2) == 0 && PlacementScore(t, p2) == 56;
    assert Bonus(t, 2) == 0;
    ExtendPlacement(t, p2, 2);
    p := p2 + [2];
    assert RunStart(t, p) == 0 && PlacementScore(t, p) == 80;
  }

  /** The positions [4, 5, 6] place "bar" in "foo bar", and no other placement does. */
  lemma BarInFooBarPlacement(t: seq<char>, q: seq<char>)
    requires t == "foo bar" && q == "bar"
    ensures IsPlacement(t, q, [4, 5, 6])
    ensures Pinned(t, q, [4, 5, 6])
  {
    var p1: seq<nat> := [4];
    ExtendIncreasing(p1, 5);
    var p2 := p1 + [5];
    ExtendIncreasing(p2, 6);
    var p3 := p2 + [6];
    assert p3 == [4, 5, 6];
  }

  /** The positions [4, 5, 6] score 80 in "foo bar". */
  lemma BarInFooBarScore(t: seq<char>) returns (p: seq<nat>)
    requires t == "foo bar"
    ensures p == [4, 5, 6] && Increasing(p) && PlacementScore(t, p) == 80 && Reverse(p) == [6, 5, 4]
  {
    assert Bonus(t, 4) == 8;
    var p1: seq<nat> := [4];
    assert PlacementScore(t, p1) == 32;
    assert Bonus(t, 5) == 0;
    ExtendPlacement(t, p1, 5);
    var p2 := p1 + [5];
    assert RunStart(t, p2) == 4 && PlacementScore(t, p2) == 56;
    assert Bonus(t, 6) == 0;
    ExtendPlacement(t, p2, 6);
    p := p2 + [6];
    assert RunStart(t, p) == 4 && PlacementScore(t, p) == 80;
  }
}
