/** Flood alert levels and the tables the alert system keys by level. */
module Levels {

  /** An alert level. The class encoder is fitted on the labels the ground-truth
      generator writes, which are the first three constructors; `Unlisted` stands
      for any other label, for which every per-level table falls back to its default. */
  datatype Level = Yellow | Orange | Red | Unlisted(name: string)

  /** The text stored in the `alert_level` column. */
  function Label(l: Level): string
  {
    match l
    case Yellow => "Yellow"
    case Orange => "Orange"
    case Red => "Red"
    case Unlisted(n) => n
  }

  /** Reads a stored label back as a level. */
  function FromLabel(s: string): Level
  {
    if s == "Red" then Red
    else if s == "Orange" then Orange
    else if s == "Yellow" then Yellow
    else Unlisted(s)
  }

  /** An `Unlisted` level never carries the name of a listed one. */
  predicate Canonical(l: Level)
  {
    l.Unlisted? ==> l.name != "Red" && l.name != "Orange" && l.name != "Yellow"
  }

  lemma LabelRoundTrip(s: string)
    ensures Label(FromLabel(s)) == s
    ensures Canonical(FromLabel(s))
  {
  }

  lemma FromLabelRoundTrip(l: Level)
    requires Canonical(l)
    ensures FromLabel(Label(l)) == l
  {
  }

  /** The confidence a forecast of level `l` needs before it may become an alert.
      A level missing from the table falls back to 0.5. */
  function Threshold(l: Level): (t: real)
    ensures 0.5 <= t <= 0.7
    ensures l == Red ==> t == 0.7
    ensures l == Orange ==> t == 0.6
    ensures l != Red && l != Orange ==> t == 0.5
  {
    match l
    case Red => 0.7
    case Orange => 0.6
    case Yellow => 0.5
    case Unlisted(_) => 0.5
  }

  /** A forecast qualifies when its confidence reaches the threshold; a tie qualifies. */
  predicate MeetsThreshold(l: Level, confidence: real)
  {
    confidence >= Threshold(l)
  }

  /** The levels for which authorities are e-mailed. */
  predicate HighSeverity(l: Level)
  {
    l == Red || l == Orange
  }

  /** Position in the order Yellow < Orange < Red. */
  function Rank(l: Level): (n: nat)
    requires !l.Unlisted?
    ensures n <= 2
    ensures n == 0 <==> l == Yellow
    ensures n == 2 <==> l == Red
  {
    match l
    case Yellow => 0
    case Orange => 1
    case Red => 2
  }

  /** A qualifying confidence for one level also qualifies every less severe level. */
  lemma ThresholdAntitone(a: Level, b: Level, confidence: real)
    requires !a.Unlisted? && !b.Unlisted?
    requires Rank(a) <= Rank(b)
    requires MeetsThreshold(b, confidence)
    ensures MeetsThreshold(a, confidence)
  {
  }
}
