/** What the timer of a flow costs: how many more work units a run can have than packing by size alone would make. */
module PipelineTimeouts {
  import opened Sequences
  import opened Packing
  import opened PackingOptimality
  import opened TimedPacking
  import opened Pipeline
  import opened PipelineSafety
  import G = ShutdownGate

  /** A tick of the accumulator's timer that sends something. */
  ghost predicate IsTimeout(s: Flow, a: Step) {
    a == Acc(AccTick) && s.acc.core.pending != []
  }

  ghost function FlowTimeouts(c: FlowConfig, run: seq<Step>): nat {
    if run == [] then 0
    else
      var before, a := Exec(c, Init(c), run[..|run| - 1]), run[|run| - 1];
      FlowTimeouts(c, run[..|run| - 1]) + if Enabled(c, before, a) && IsTimeout(before, a) then 1 else 0
  }

  /** The payloads received, cut at the timeouts that sent something, make the accumulator's state. */
  ghost predicate Segmented(c: FlowConfig, s: Flow, closed: seq<seq<Bytes>>, open: seq<Bytes>) {
    var reached := After(PackEach(c.packing, closed), AppendAll(c.packing, EMPTY_STATE, open));
    && Flatten(closed + [open]) == DataOf(s.accGate, s.accGate.received)
    && s.acc.core == if s.acc.phase in {Finishing, Done} then Flush(reached) else reached
  }

  lemma ReceiveSegments(c: FlowConfig, s: Flow, closed: seq<seq<Bytes>>, open: seq<Bytes>)
    requires GatesOk(s) && Segmented(c, s, closed, open) && AccEnabled(c, s, AccReceive)
    ensures Segmented(c, AccDo(c, s, AccReceive), closed, open + [CallData(s.accGate, s.accGate.queue[0])])
  {
    hide G.Inv, G.Do, Append, DataOf, PackEach;
    var p := CallData(s.accGate, s.accGate.queue[0]);
    GateReceives(s.accGate, G.Receive);
    FlattenSnoc(closed, open);
    FlattenSnoc(closed, open + [p]);
    AppendAllSnoc(c.packing, open, p);
    AppendAfter(c.packing, PackEach(c.packing, closed), AppendAll(c.packing, EMPTY_STATE, open), p);
  }

  lemma FinishSegments(c: FlowConfig, s: Flow, closed: seq<seq<Bytes>>, open: seq<Bytes>)
    requires Segmented(c, s, closed, open) && AccEnabled(c, s, AccFinish)
    ensures Segmented(c, AccDo(c, s, AccFinish), closed, open)
  {
    hide AppendAll, DataOf, PackEach, Flatten;
  }

  /** A timeout closes the open segment. */
  lemma TimeoutSegments(c: FlowConfig, s: Flow, closed: seq<seq<Bytes>>, open: seq<Bytes>)
    requires Segmented(c, s, closed, open) && AccEnabled(c, s, AccTick)
    ensures
      var s' := AccDo(c, s, AccTick);
      if s.acc.core.pending == [] then Segmented(c, s', closed, open) else Segmented(c, s', closed + [open], [])
  {
    hide AppendAll, DataOf, Flatten, PackEach, Blocks;
    if s.acc.core.pending != [] {
      FlattenSnoc(closed + [open], []);
      NextSegment(c.packing, closed, open);
      assert Flatten(closed + [open]) + [] == Flatten(closed + [open]);
    }
  }

  lemma NextSegment(c: Packing.Config, closed: seq<seq<Bytes>>, open: seq<Bytes>)
    ensures Flush(After(PackEach(c, closed), AppendAll(c, EMPTY_STATE, open)))
         == After(PackEach(c, closed + [open]), AppendAll(c, EMPTY_STATE, []))
  {
    AppendAfter(c, PackEach(c, closed), AppendAll(c, EMPTY_STATE, open), []);
    assert (closed + [open])[..|closed|] == closed;
    hide Packing.Append;
  }

  lemma SameSegments(c: FlowConfig, s: Flow, s': Flow, closed: seq<seq<Bytes>>, open: seq<Bytes>)
    requires Segmented(c, s, closed, open) && s'.acc.core == s.acc.core
    requires DataOf(s'.accGate, s'.accGate.received) == DataOf(s.accGate, s.accGate.received)
    requires s'.acc.phase in {Finishing, Done} <==> s.acc.phase in {Finishing, Done}
    ensures Segmented(c, s', closed, open)
  {
  }

  /** Only these steps concern what the accumulator received or made of it. */
  lemma OtherStepsLeaveCore(c: FlowConfig, s: Flow, a: Step)
    requires GatesOk(s) && Enabled(c, s, a)
    requires a !in {Acc(AccReceive), Acc(AccTick), Acc(AccFinish)}
    ensures
      var s' := Do(c, s, a);
      && s'.acc.core == s.acc.core
      && DataOf(s'.accGate, s'.accGate.received) == DataOf(s.accGate, s.accGate.received)
      && (s'.acc.phase in {Finishing, Done} <==> s.acc.phase in {Finishing, Done})
  {
    hide G.Inv, G.Do, G.Enabled, DataOf;
    match a
    case Client(call) => GateReceives(s.accGate, call);
    case Acc(acc) =>
      if acc != AccExit {
        GateReceives(s.accGate, AccGateStep(acc));
      }
    case _ =>
  }

  /** Every run of a flow cuts what the accumulator received into one segment more than there were timeouts. */
  lemma {:induction false} FlowSegments(c: FlowConfig, run: seq<Step>) returns (closed: seq<seq<Bytes>>, open: seq<Bytes>)
    requires c.Valid()
    ensures |closed| == FlowTimeouts(c, run)
    ensures Segmented(c, Exec(c, Init(c), run), closed, open)
  {
    hide Enabled, Do, Segmented, PipelineSafety.Inv;
    if run == [] {
      closed, open := [], [];
      InitSegmented(c);
    } else {
      var front, a := run[..|run| - 1], run[|run| - 1];
      closed, open := FlowSegments(c, front);
      RunKeepsInv(c, front);
      var s := Exec(c, Init(c), front);
      if Enabled(c, s, a) {
        closed, open := StepSegments(c, s, a, closed, open);
      }
    }
  }

  lemma InitSegmented(c: FlowConfig)
    ensures Segmented(c, Init(c), [], [])
  {
    FlattenSnoc<Bytes>([], []);
  }

  lemma StepSegments(c: FlowConfig, s: Flow, a: Step, closed: seq<seq<Bytes>>, open: seq<Bytes>)
    returns (closed': seq<seq<Bytes>>, open': seq<Bytes>)
    requires PipelineSafety.Inv(c, s) && Segmented(c, s, closed, open) && Enabled(c, s, a)
    ensures Segmented(c, Do(c, s, a), closed', open')
    ensures |closed'| == |closed| + if IsTimeout(s, a) then 1 else 0
  {
    hide Segmented, AccDo, GatesOk, StagesOk, EmptiedOk, WorkersOk, CallsOk, AccDataOk, UpDataOk, WorksOk;
    closed', open' := closed, open;
    if a == Acc(AccReceive) {
      ReceiveSegments(c, s, closed, open);
      open' := open + [CallData(s.accGate, s.accGate.queue[0])];
    } else if a == Acc(AccTick) {
      TimeoutSegments(c, s, closed, open);
      if s.acc.core.pending != [] {
        closed', open' := closed + [open], [];
      }
    } else if a == Acc(AccFinish) {
      FinishSegments(c, s, closed, open);
    } else {
      OtherStepsLeaveCore(c, s, a);
      SameSegments(c, s, Do(c, s, a), closed, open);
    }
  }

  /**
   The cost of the timer, end to end: with k timeouts that sent something, a finished run has at least as many work
   units as packing the accepted payloads by size, and at most k more; without any, the same work units.
   */
  lemma TimeoutsCostUnits(c: FlowConfig, run: seq<Step>)
    requires c.Valid() && Exec(c, Init(c), run).ctrl == Finished
    ensures
      var s, k := Exec(c, Init(c), run), FlowTimeouts(c, run);
      && |Pack(c.packing, Accepted(s))| <= |s.units| <= |Pack(c.packing, Accepted(s))| + k
      && (k == 0 ==> s.units == Blocks(c.packing, Pack(c.packing, Accepted(s))))
  {
    hide Exec, PipelineSafety.Inv, AllWorkedOnce;
    var s := Exec(c, Init(c), run);
    RunKeepsInv(c, run);
    FinishedLosesNothing(c, s);
    FinishedIsEmpty(c, s);
    PackIsOptimal(c.packing, Accepted(s));
    var closed, open := FlowSegments(c, run);
    SegmentsCost(c.packing, closed, open);
  }
}
