/** The part of `create_visualization` that is plain logic: the y-axis label of each panel. */
module Charts {

  /** The six metrics, one panel each, in panel order. */
  const Metrics: seq<string> := ["nadh", "atp", "biomass", "reactions", "metabolites", "genes"]

  /** The metrics that count things and get a "Number of ..." label. */
  const CountMetrics: set<string> := {"reactions", "metabolites", "genes"}

  /** The generic label every other panel keeps. */
  const RateLabel: string := "product rate"

  /**
   * The y-axis label of the panel titled `metric`: first set to the generic label, then
   * replaced for each count metric.
   */
  function YLabel(metric: string): (text: string)
    ensures metric in CountMetrics ==> text == "Number of " + metric
    ensures metric !in CountMetrics ==> text == RateLabel
  {
    var text := RateLabel;
    var text := if metric == "reactions" then "Number of reactions" else text;
    var text := if metric == "metabolites" then "Number of metabolites" else text;
    if metric == "genes" then "Number of genes" else text
  }

  /** Across the six panels, the three count panels have labels of their own and the other three share the generic one. */
  lemma PanelLabels()
    ensures forall i, j :: 0 <= i < j < |Metrics| && YLabel(Metrics[i]) == YLabel(Metrics[j]) ==>
      Metrics[i] !in CountMetrics && Metrics[j] !in CountMetrics
    ensures forall i :: 0 <= i < |Metrics| && Metrics[i] !in CountMetrics ==> YLabel(Metrics[i]) == RateLabel
  {
  }
}
