/**
 * The colour map handed to the heat layer: eleven stops from 0.0 to 1.0, each
 * with an RGB hex colour. A stop is kept as a whole number of tenths, so the
 * key `t` stands for the stop `t / 10`.
 */
module ColorMap {

  predicate IsHexDigit(c: char) {
    ('0' <= c <= '9') || ('a' <= c <= 'f')
  }

  /** `#` followed by six lower-case hex digits. */
  predicate IsHexColor(c: string) {
    |c| == 7 && c[0] == '#' && forall i :: 1 <= i < 7 ==> IsHexDigit(c[i])
  }

  const Tenths: set<nat> := {0, 1, 2, 3, 4, 5, 6, 7, 8, 9, 10}

  /** The colours of the stops 0.0, 0.1, ..., 1.0, in that order. */
  const StopColours: seq<string> := [
    "#000003", "#160b39", "#410967", "#6a176e", "#932567", "#bb3754",
    "#dc5039", "#f37719", "#fba40a", "#f5d745", "#fcfea4"]

  /**
   * `heatmap_grad`: the stop `t / 10` has the `t`-th colour. The stops are
   * exactly 0.0, 0.1, ..., 1.0, so they are distinct, start at 0.0 and reach
   * 1.0, and every colour is a hex colour.
   */
  function HeatmapGradient(): (g: map<nat, string>)
    ensures g.Keys == Tenths
    ensures forall t :: t in g ==> IsHexColor(g[t])
  {
    StopColoursAreHex();
    map t | t in Tenths :: StopColours[t]
  }

  lemma StopColoursAreHex()
    ensures forall i :: 0 <= i < |StopColours| ==> IsHexColor(StopColours[i])
  {
  }

  /** Eleven stops, one per tenth from 0.0 to 1.0 in steps of 0.1. */
  lemma GradientHasElevenStops()
    ensures |HeatmapGradient()| == 11
  {
    ElevenKeys(HeatmapGradient());
  }

  lemma ElevenKeys(m: map<nat, string>)
    requires m.Keys == Tenths
    ensures |m| == 11
  {
    assert |m.Keys| == 11;
  }
}
