/**
 * `getStrokeColor` (components/ScoreCard.tsx): the colour of a score ring.
 * A highlighted card always uses the gradient; otherwise the score falls in
 * one of three bands, red below 40, yellow below 70, green from 70 on.
 */
module ScoreCard {
  const HighlightGradient: string := "url(#highlight-gradient)"
  const Red: string := "#ef4444"
  const Yellow: string := "#facc15"
  const Green: string := "#4ade80"

  const YellowFrom: real := 40.0
  const GreenFrom: real := 70.0

  function StrokeColor(score: real, highlight: bool): (c: string)
    ensures highlight ==> c == HighlightGradient
    ensures !highlight ==> (c == Red <==> score < YellowFrom)
    ensures !highlight ==> (c == Yellow <==> YellowFrom <= score < GreenFrom)
    ensures !highlight ==> (c == Green <==> GreenFrom <= score)
  {
    if highlight then HighlightGradient
    else if score < YellowFrom then Red
    else if score < GreenFrom then Yellow
    else Green
  }

  /** The position of a band colour on the red, yellow, green scale. */
  function BandRank(c: string): nat
  {
    if c == Red then 0 else if c == Yellow then 1 else 2
  }

  /** Every unhighlighted score gets exactly one of the three band colours, never the gradient. */
  lemma BandsExhaustiveAndExclusive(score: real)
    ensures var c := StrokeColor(score, false);
      (c == Red || c == Yellow || c == Green) && c != HighlightGradient
    ensures Red != Yellow && Yellow != Green && Red != Green
  {
  }

  /** A higher score never gets a colour further down the scale. */
  lemma BandsFollowScore(a: real, b: real)
    requires a <= b
    ensures BandRank(StrokeColor(a, false)) <= BandRank(StrokeColor(b, false))
  {
  }
}
