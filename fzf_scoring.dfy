/**
 * Scoring rules of the fzf matcher: the score constants, the character
 * classes of the (case-folded) candidate text, the bonus of each text
 * position, and the score of one placement of a term in the text.
 */
module FzfScoring {

  // The score constants, derived from one another as the matcher's tests derive them.
  const ScoreMatch: int := 16
  const ScoreGapStart: int := -3
  const ScoreGapExtension: int := -1
  const BonusBoundary: int := ScoreMatch / 2
  const BonusNonWord: int := ScoreMatch / 2
  const BonusCamel123: int := BonusBoundary + ScoreGapExtension
  const BonusConsecutive: int := -(ScoreGapStart + ScoreGapExtension)
  const BonusFirstCharMultiplier: int := 2

  function Max(a: int, b: int): int { if a >= b then a else b }

  // ---------------------------------------------------------------- folding

  /** ASCII case folding: an upper-case letter maps to the same letter in lower case, everything else to itself. */
  function FoldChar(c: char): (r: char)
    ensures 'A' <= c <= 'Z' ==> 'a' <= r <= 'z' && r as int - 'a' as int == c as int - 'A' as int
    ensures !('A' <= c <= 'Z') ==> r == c
  {
    if 'A' <= c <= 'Z' then (c as int + 32) as char else c
  }

  function Fold(s: seq<char>): (r: seq<char>)
    ensures |r| == |s|
    ensures forall k :: 0 <= k < |s| ==> r[k] == FoldChar(s[k])
  {
    if s == [] then [] else Fold(s[..|s| - 1]) + [FoldChar(s[|s| - 1])]
  }

  // ------------------------------------------------------ classes and bonus

  datatype CharClass = NonWord | Lower | Upper | Digit

  /** The four kinds of bonus a text position can carry; exactly one applies. */
  datatype BonusKind = NoBonus | Boundary | NonWordChar | Camel123

  function ClassOf(c: char): CharClass
  {
    if 'a' <= c <= 'z' then Lower
    else if 'A' <= c <= 'Z' then Upper
    else if '0' <= c <= '9' then Digit
    else NonWord
  }

  /** The bonus of a position of class `cur` that follows a position of class `prev`. */
  function BonusFor(prev: CharClass, cur: CharClass): (k: BonusKind)
    ensures k == Boundary <==> prev == NonWord && cur != NonWord
    ensures k == Camel123 <==> prev != NonWord && ((prev == Lower && cur == Upper) || (prev != Digit && cur == Digit))
    ensures k == NonWordChar <==> cur == NonWord
  {
    if prev == NonWord && cur != NonWord then Boundary
    else if (prev == Lower && cur == Upper) || (prev != Digit && cur == Digit) then Camel123
    else if cur == NonWord then NonWordChar
    else NoBonus
  }

  function BonusValue(k: BonusKind): int
  {
    match k
    case NoBonus => 0
    case Boundary => BonusBoundary
    case NonWordChar => BonusNonWord
    case Camel123 => BonusCamel123
  }

  /** The bonus kind of position j of text t; the start of the text counts as following a non-word character. */
  function KindAt(t: seq<char>, j: nat): BonusKind
    requires j < |t|
  {
    BonusFor(if j == 0 then NonWord else ClassOf(t[j - 1]), ClassOf(t[j]))
  }

  /** The bonus of text position j; a position past the end, which no placement uses, carries none. */
  function Bonus(t: seq<char>, j: nat): (b: int)
    ensures 0 <= b <= BonusBoundary
  {
    if j < |t| then BonusValue(KindAt(t, j)) else 0
  }

  /** A position whose bonus reaches BonusBoundary starts a new consecutive run. */
  predicate BreaksRun(t: seq<char>, j: nat)
  {
    Bonus(t, j) >= BonusBoundary
  }

  // ------------------------------------------------------------- placements

  /** Each position lies strictly after the one before it. */
  predicate Increasing(p: seq<nat>)
  {
    |p| <= 1 || (p[|p| - 2] < p[|p| - 1] && Increasing(p[..|p| - 1]))
  }

  /** In an increasing placement every position lies after every earlier one. */
  lemma {:induction false} IncreasingOrdered(p: seq<nat>)
    requires Increasing(p)
    ensures forall a, b :: 0 <= a < b < |p| ==> p[a] < p[b]
    decreases |p|
  {
    if |p| > 1 {
      var prev := p[..|p| - 1];
      IncreasingOrdered(prev);
      assert forall a :: 0 <= a < |prev| ==> prev[a] == p[a];
    }
  }

  /** p places the first |p| characters of q in t, in order, each on an equal character. */
  predicate PlacesPrefix(t: seq<char>, q: seq<char>, p: seq<nat>)
  {
    |p| <= |q| && Increasing(p) &&
    forall k :: 0 <= k < |p| ==> p[k] < |t| && t[p[k]] == q[k]
  }

  /** p places all of q in t. */
  predicate IsPlacement(t: seq<char>, q: seq<char>, p: seq<nat>)
  {
    |p| == |q| && PlacesPrefix(t, q, p)
  }

  /** The last placed character directly follows the one before it and does not break the run. */
  predicate Continues(t: seq<char>, p: seq<nat>)
    requires |p| >= 2
  {
    p[|p| - 1] == p[|p| - 2] + 1 && !BreaksRun(t, p[|p| - 1])
  }

  /** The text position where the consecutive run containing the last placed character starts. */
  function RunStart(t: seq<char>, p: seq<nat>): (s: nat)
    requires |p| > 0
    ensures s <= p[|p| - 1] && p[|p| - 1] - s <= |p| - 1
  {
    if |p| == 1 then p[0]
    else if Continues(t, p) then RunStart(t, p[..|p| - 1])
    else p[|p| - 1]
  }

  /** The cost of skipping g text characters between two placed characters. */
  function GapCost(g: nat): int
  {
    if g == 0 then 0 else ScoreGapStart + ScoreGapExtension * (g - 1)
  }

  /** A running score after a gap of g skipped characters; it never drops below zero. */
  function AfterGap(x: int, g: nat): (r: int)
    ensures g == 0 ==> r == x
    ensures g > 0 ==> r >= 0 && r >= x + GapCost(g)
    ensures x >= 0 ==> r <= x
  {
    if g == 0 then x else Max(x + GapCost(g), 0)
  }

  /** A higher running score stays at least as high after the same gap. */
  lemma AfterGapMonotone(x: int, y: int, g: nat)
    requires x <= y
    ensures AfterGap(x, g) <= AfterGap(y, g)
  {
  }

  /** The bonus the last placed character earns. */
  function LastBonus(t: seq<char>, p: seq<nat>): int
    requires |p| > 0
  {
    if |p| == 1 then Bonus(t, p[0]) * BonusFirstCharMultiplier
    else if Continues(t, p) then Max(Max(Bonus(t, p[|p| - 1]), BonusConsecutive), Bonus(t, RunStart(t, p[..|p| - 1])))
    else Bonus(t, p[|p| - 1])
  }

  /**
   * The score of a placement: every placed character earns ScoreMatch plus its bonus,
   * and every gap between two placed characters costs its affine gap cost.
   */
  function PlacementScore(t: seq<char>, p: seq<nat>): int
    requires |p| > 0 && Increasing(p)
  {
    if |p| == 1 then ScoreMatch + LastBonus(t, p)
    else
      var prev := p[..|p| - 1];
      AfterGap(PlacementScore(t, prev), p[|p| - 1] - p[|p| - 2] - 1) + ScoreMatch + LastBonus(t, p)
  }
}
