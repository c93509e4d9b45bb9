/**
 * Facts about the characters of a scenario text, kept apart from the matcher so
 * that the verifier reasons about them on their own.
 */
module FzfTexts {
  /** A character that occurs in neither part occurs once in part + [x] + part, at the seam. */
  lemma OnlyAt(pre: seq<char>, x: char, post: seq<char>)
    requires x !in pre && x !in post
    ensures forall j :: 0 <= j < |pre + [x] + post| && (pre + [x] + post)[j] == x ==> j == |pre|
  {
  }

  /** The folded long scenario text holds a z at position 23 and nowhere else. */
  lemma SplitPaneZOnlyAt(a: seq<char>, b: seq<char>, c: seq<char>, d: seq<char>, e: seq<char>, f: seq<char>)
    requires a == "split pane, " && b == "split: " && c == "horizontal, " && d == "profile: " && e == "ssh: " && f == "antares"
    ensures forall j :: 0 <= j < |a + b + c + d + e + f| && (a + b + c + d + e + f)[j] == 'z' ==> j == 23
  {
    var c1, c2 := "hori", "ontal, ";
    assert c == c1 + ['z'] + c2;
    assert 'z' !in a && 'z' !in b && 'z' !in c1 && 'z' !in c2 && 'z' !in d && 'z' !in e && 'z' !in f;
    assert a + b + c + d + e + f == (a + b + c1) + ['z'] + (c2 + d + e + f);
    OnlyAt(a + b + c1, 'z', c2 + d + e + f);
  }
}
