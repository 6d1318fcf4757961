/** The pipeline seen from its two ends: payloads in, stored blocks out. */
module PipelineRoundTrip {
  import opened Packing
  import opened Splitting
  import opened Pipeline
  import opened PipelineSafety

  /**
   End to end, with or without a timer: cutting the work units at the separator gives back exactly the accepted
   non-empty payloads, in order, when each of them is clean.
   */
  lemma UnitsGiveBackPayloads(c: FlowConfig, run: seq<Step>)
    requires c.Valid() && c.packing.separator != [] && Exec(c, Init(c), run).ctrl == Finished
    requires forall p :: p in NonEmpty(Accepted(Exec(c, Init(c), run))) ==> Clean(p, c.packing.separator)
    ensures
      var s := Exec(c, Init(c), run);
      SplitAll(s.units, c.packing.separator) == NonEmpty(Accepted(s))
  {
    hide Exec;
    var s := Exec(c, Init(c), run);
    NothingIsLost(c, run);
    CleanPayloadsSurvive(c.packing, s.acc.core.groups, NonEmpty(Accepted(s)));
  }
}
