/** Named histograms the strategy records into. */
module Metric {

  /** An append-only series of observations. */
  class Histogram {
    var observations: seq<int>

    constructor ()
      ensures observations == []
    {
      observations := [];
    }

    method Update(value: int)
      modifies this
      ensures observations == old(observations) + [value]
    {
      observations := observations + [value];
    }
  }

  /** A registry that resolves a histogram by name, the same one for the same name. */
  class Metrics {
    var histograms: map<string, Histogram>

    /** Different names never share a series. */
    ghost predicate Valid()
      reads this
    {
      forall a, b :: a in histograms && b in histograms && a != b ==> histograms[a] != histograms[b]
    }

    constructor ()
      ensures Valid() && histograms == map[]
    {
      histograms := map[];
    }

    method GetHistogram(name: string) returns (h: Histogram)
      requires Valid()
      modifies this
      ensures Valid()
      ensures name in histograms && h == histograms[name]
      ensures name in old(histograms) ==> histograms == old(histograms)
      ensures name !in old(histograms) ==>
                fresh(h) && h.observations == [] && histograms == old(histograms)[name := h]
    {
      if name in histograms {
        h := histograms[name];
      } else {
        h := new Histogram();
        histograms := histograms[name := h];
      }
    }
  }
}
