/** The three-way sentiment label derived from a VADER compound score. */
module Sentiment {
  import opened Wrappers

  /** The VADER compound scorer, a foreign lexicon-based function from text to a real number. */
  type Scorer = string -> real

  /** The threshold `0.05` of the source, as the exact value of the IEEE double it denotes, so
      that a score equal to that double is compared as the source compares it. */
  const PositiveThreshold: real := 0.05000000000000000277555756156289135105907917022705078125
  const NegativeThreshold: real := -PositiveThreshold

  const Positive: string := "positive"
  const Negative: string := "negative"
  const Neutral: string := "neutral"

  predicate IsSentiment(l: string) {
    l == Positive || l == Negative || l == Neutral
  }

  /** The label derived from a score: positive above the dead band, negative below it, neutral
      inside it, bounds included. */
  function DeriveLabel(x: real): (l: string)
    ensures IsSentiment(l)
    ensures l == Positive <==> x > PositiveThreshold
    ensures l == Negative <==> x < NegativeThreshold
    ensures l == Neutral <==> NegativeThreshold <= x <= PositiveThreshold
  {
    if x > PositiveThreshold then Positive
    else if x < NegativeThreshold then Negative
    else Neutral
  }

  /** The edges of the dead band, read as decimals or as the doubles the source compares, are
      neutral. */
  lemma DeadBandEdgesAreNeutral()
    ensures DeriveLabel(0.05) == Neutral && DeriveLabel(-0.05) == Neutral
    ensures DeriveLabel(PositiveThreshold) == Neutral && DeriveLabel(NegativeThreshold) == Neutral
  {
  }

  /** The label lambda applied to a score cell: a missing score (NaN) fails both comparisons. */
  function CellLabel(score: Option<real>): (l: string)
    ensures IsSentiment(l)
    ensures score.Some? ==> l == DeriveLabel(score.value)
    ensures score.None? ==> l == Neutral
  {
    match score
    case Some(x) => DeriveLabel(x)
    case None => Neutral
  }
}
