/**
 What every reachable state of a flow keeps, and what follows once the run group is done: nothing accepted is lost.
 */
module PipelineSafety {
  import opened Sequences
  import opened Options
  import opened Packing
  import opened PackingOptimality
  import opened Pipeline
  import G = ShutdownGate

  // ---- The invariant ----

  ghost predicate GatesOk(s: Flow) {
    G.Inv(s.accGate) && G.Inv(s.upGate)
  }

  ghost predicate Matches(phase: Phase, closing: G.Closing) {
    match phase
    case Running => closing == G.Open
    case Stopping => closing in {G.Waiting, G.Holding, G.Flagged, G.Released}
    case _ => closing == G.Closed
  }

  /** Each stage stops only after the stage before it is done. */
  ghost predicate StagesOk(s: Flow) {
    && Matches(s.acc.phase, s.accGate.closing)
    && Matches(s.up.phase, s.upGate.closing)
    && s.up.phase != Finishing
    && (s.acc.phase != Running ==> s.ctrl != Serving)
    && (s.ctrl !in {Serving, StoppingAcc} ==> s.acc.phase == Done)
    && (s.up.phase != Running ==> s.ctrl !in {Serving, StoppingAcc})
    && (WorkersStopping(s.ctrl) ==> s.up.phase == Done)
    && (s.unitsClosed <==> s.up.phase == Done)
  }

  /** A stage that is past draining has nothing left. */
  ghost predicate EmptiedOk(s: Flow) {
    && (s.acc.trying.Some? ==> s.acc.outbox != [])
    && (s.acc.phase in {Stopping, Done} ==> s.acc.outbox == [])
    && (s.acc.phase in {Finishing, Done} ==> s.accGate.queue == [] && s.acc.core.pending == [])
    && (s.up.phase in {Stopping, Done} ==> s.up.hand == None)
    && (s.up.phase == Done ==> s.upGate.queue == [])
  }

  ghost predicate WorkersOk(c: FlowConfig, s: Flow) {
    && |s.workers| == c.workers
    && s.taken <= |s.units| <= s.taken + c.workers
    && (forall w :: 0 <= w < |s.workers| ==>
          && s.workers[w].phase in {Running, Draining, Done}
          && (s.workers[w].phase != Running ==> WorkersStopping(s.ctrl))
          && (s.workers[w].phase == Done ==> s.workers[w].unit == None && s.taken == |s.units|))
    && (s.ctrl.StoppingWorkers? ==>
          s.ctrl.next < |s.workers| && forall w :: 0 <= w < s.ctrl.next ==> s.workers[w].phase == Done)
    && (s.ctrl.Finished? ==> forall w :: 0 <= w < |s.workers| ==> s.workers[w].phase == Done)
  }

  /** The accumulator's goroutine makes one call of the uploader at a time, for the first block it has left. */
  ghost predicate CallsOk(s: Flow) {
    && (forall i :: 0 <= i < |s.upGate.calls| && G.InFlight(s.upGate.calls[i].phase) ==> s.acc.trying == Some(i))
    && (s.acc.trying.Some? ==>
          var i := s.acc.trying.value;
          && i < |s.upGate.calls| && G.InFlight(s.upGate.calls[i].phase)
          && s.acc.outbox != [] && s.upGate.calls[i].data == s.acc.outbox[0])
  }

  ghost function DataOf(g: G.Gate<Bytes>, ids: seq<nat>): seq<Bytes> {
    seq(|ids|, i requires 0 <= i < |ids| => CallData(g, ids[i]))
  }

  /** The accumulator's state is what the payloads it received make of it. */
  ghost predicate AccDataOk(c: FlowConfig, s: Flow) {
    var payloads := DataOf(s.accGate, s.accGate.received);
    var reached := AppendAll(c.packing, EMPTY_STATE, payloads);
    && Packing.Inv(c.packing, s.acc.core)
    && Held(s.acc.core) == NonEmpty(payloads)
    && (!c.timed ==> s.acc.core == if s.acc.phase in {Finishing, Done} then Flush(reached) else reached)
  }

  /** The blocks the uploader has not yet accepted. */
  ghost function Undelivered(s: Flow): seq<Bytes> {
    if s.acc.trying.Some? && s.acc.outbox != [] && G.At(s.upGate, s.acc.trying.value, G.Leaving(true))
    then s.acc.outbox[1..] else s.acc.outbox
  }

  ghost function InHand(s: Flow): seq<Bytes> {
    if s.up.hand == None then [] else [s.up.hand.value]
  }

  /** The blocks of all groups are, in order: work units, in the uploader's hand, in its queue, or still to deliver. */
  ghost predicate UpDataOk(c: FlowConfig, s: Flow) {
    && DataOf(s.upGate, s.upGate.accepted) + Undelivered(s) == Blocks(c.packing, s.acc.core.groups)
    && DataOf(s.upGate, s.upGate.received) == s.units + InHand(s)
  }

  ghost predicate Worked(s: Flow, u: nat) {
    exists k :: 0 <= k < |s.works| && s.works[k].0 == u
  }

  ghost predicate Busy(s: Flow, u: nat) {
    exists w :: 0 <= w < |s.workers| && s.workers[w].unit == Some(u)
  }

  /** Every unit received is with one worker or was worked on once. */
  ghost predicate WorksOk(s: Flow) {
    && (forall j, k :: 0 <= j < k < |s.works| ==> s.works[j].0 != s.works[k].0)
    && (forall v, w :: 0 <= v < w < |s.workers| && s.workers[v].unit.Some? ==> s.workers[v].unit != s.workers[w].unit)
    && (forall k, w :: 0 <= k < |s.works| && 0 <= w < |s.workers| ==> s.workers[w].unit != Some(s.works[k].0))
    && (forall k :: 0 <= k < |s.works| ==> s.works[k].0 < s.taken && s.works[k].1 < |s.workers|)
    && (forall w :: 0 <= w < |s.workers| && s.workers[w].unit.Some? ==> s.workers[w].unit.value < s.taken)
    && (forall u: nat :: u < s.taken ==> Worked(s, u) || Busy(s, u))
  }

  ghost predicate Inv(c: FlowConfig, s: Flow) {
    && GatesOk(s) && StagesOk(s) && EmptiedOk(s) && WorkersOk(c, s) && CallsOk(s)
    && AccDataOk(c, s) && UpDataOk(c, s) && WorksOk(s)
  }

  // ---- Every step keeps it ----

  lemma {:induction false} KeepsGates(c: FlowConfig, s: Flow, a: Step)
    requires GatesOk(s) && Enabled(c, s, a)
    ensures GatesOk(Do(c, s, a))
  {
    hide G.Inv, G.Enabled, G.Do;
    match a
    case Client(call) => G.StepKeepsInv(s.accGate, call);
    case Acc(acc) =>
      if acc != AccTick && acc != AccFinish && acc != AccExit {
        G.StepKeepsInv(s.accGate, AccGateStep(acc));
      }
    case Try(try) =>
      if try != TryRefused {
        G.StepKeepsInv(s.upGate, TryGateStep(s, try));
      }
    case Up(up) =>
      if up != UpForward && up != UpExit {
        G.StepKeepsInv(s.upGate, UpGateStep(up));
      }
    case _ =>
  }

  lemma AccKeepsStages(c: FlowConfig, s: Flow, a: AccStep)
    requires StagesOk(s) && AccEnabled(c, s, a)
    ensures StagesOk(AccDo(c, s, a))
  {
    hide Append;
  }

  lemma UpKeepsStages(c: FlowConfig, s: Flow, a: UpStep)
    requires StagesOk(s) && UpEnabled(c, s, a)
    ensures StagesOk(UpDo(c, s, a))
  {
  }

  lemma CtrlKeepsStages(s: Flow, a: CtrlStep)
    requires StagesOk(s) && CtrlEnabled(s, a)
    ensures StagesOk(CtrlDo(s, a))
  {
  }

  /** Steps that concern no stage's shutdown. */
  lemma SameStages(s: Flow, s': Flow)
    requires StagesOk(s) && s'.ctrl == s.ctrl && s'.unitsClosed == s.unitsClosed
    requires s'.acc.phase == s.acc.phase && s'.accGate.closing == s.accGate.closing
    requires s'.up.phase == s.up.phase && s'.upGate.closing == s.upGate.closing
    ensures StagesOk(s')
  {
  }

  lemma {:induction false} KeepsStages(c: FlowConfig, s: Flow, a: Step)
    requires StagesOk(s) && Enabled(c, s, a)
    ensures StagesOk(Do(c, s, a))
  {
    hide StagesOk, AccDo, AccEnabled, UpDo, UpEnabled, CtrlDo, CtrlEnabled;
    match a
    case Acc(acc) => AccKeepsStages(c, s, acc);
    case Up(up) => UpKeepsStages(c, s, up);
    case Ctrl(ctrl) => CtrlKeepsStages(s, ctrl);
    case _ => SameStages(s, Do(c, s, a));
  }

  lemma AccKeepsEmptied(c: FlowConfig, s: Flow, a: AccStep)
    requires GatesOk(s) && StagesOk(s) && EmptiedOk(s) && AccEnabled(c, s, a)
    ensures EmptiedOk(AccDo(c, s, a))
  {
    hide Append;
  }

  lemma KeepsEmptied(c: FlowConfig, s: Flow, a: Step)
    requires GatesOk(s) && StagesOk(s) && EmptiedOk(s) && CallsOk(s) && Enabled(c, s, a)
    ensures EmptiedOk(Do(c, s, a))
  {
    hide AccDo, AccEnabled, G.Recorded;
    match a
    case Acc(acc) => AccKeepsEmptied(c, s, acc);
    case _ =>
  }

  lemma WorkerKeepsWorkers(c: FlowConfig, s: Flow, w: nat, a: WorkerStep)
    requires c.Valid() && WorkersOk(c, s) && WorkerEnabled(s, w, a)
    requires s.unitsClosed ==> s.up.phase == Done
    ensures WorkersOk(c, WorkerDo(s, w, a))
  {
  }

  lemma KeepsWorkers(c: FlowConfig, s: Flow, a: Step)
    requires c.Valid() && StagesOk(s) && EmptiedOk(s) && WorkersOk(c, s) && Enabled(c, s, a)
    ensures WorkersOk(c, Do(c, s, a))
  {
    hide AccDo, AccEnabled, TryEnabled, WorkerDo, WorkerEnabled, G.Do, G.Enabled;
    match a
    case Work(w, work) => WorkerKeepsWorkers(c, s, w, work);
    case Acc(acc) => AccLeavesRest(c, s, acc);
    case _ =>
  }

  /** The accumulator's own steps touch nothing but its goroutine and its queue. */
  lemma AccLeavesRest(c: FlowConfig, s: Flow, a: AccStep)
    requires AccEnabled(c, s, a)
    ensures
      var s' := AccDo(c, s, a);
      s' == s.(accGate := s'.accGate, acc := s'.acc)
  {
  }

  lemma TryKeepsCalls(s: Flow, a: TryStep)
    requires CallsOk(s) && TryEnabled(s, a)
    ensures CallsOk(TryDo(s, a))
  {
  }

  lemma AccMakesNoCall(c: FlowConfig, s: Flow, a: AccStep)
    requires AccEnabled(c, s, a)
    ensures var s' := AccDo(c, s, a); s'.upGate == s.upGate && s.acc.trying == None && s'.acc.trying == None
  {
    hide Append;
  }

  lemma {:induction false} KeepsCalls(c: FlowConfig, s: Flow, a: Step)
    requires CallsOk(s) && Enabled(c, s, a)
    ensures CallsOk(Do(c, s, a))
  {
    hide TryDo, TryEnabled, AccDo, UpDo, UpEnabled;
    match a
    case Try(try) => TryKeepsCalls(s, try);
    case Acc(acc) => AccMakesNoCall(c, s, acc);
    case Up(up) => UpLeavesCalls(c, s, up);
    case _ =>
  }

  lemma WorkerKeepsWorks(s: Flow, w: nat, a: WorkerStep)
    requires WorksOk(s) && WorkerEnabled(s, w, a)
    ensures WorksOk(WorkerDo(s, w, a))
  {
    var s' := WorkerDo(s, w, a);
    forall u: nat | u < s'.taken ensures Worked(s', u) || Busy(s', u) {
      if a == WorkerReceive && u == s.taken {
        assert s'.workers[w].unit == Some(u);
      } else if Worked(s, u) {
        var k :| 0 <= k < |s.works| && s.works[k].0 == u;
        assert s'.works[k].0 == u;
      } else {
        var v :| 0 <= v < |s.workers| && s.workers[v].unit == Some(u);
        if v == w && a == WorkerWork {
          assert s'.works[|s.works|].0 == u;
        } else {
          assert s'.workers[v].unit == Some(u);
        }
      }
    }
  }

  lemma SameWorks(s: Flow, s': Flow)
    requires WorksOk(s) && s'.works == s.works && s'.workers == s.workers && s'.taken == s.taken
    ensures WorksOk(s')
  {
    forall u: nat | u < s'.taken ensures Worked(s', u) || Busy(s', u) {
      assert Worked(s, u) || Busy(s, u);
    }
  }

  lemma KeepsWorks(c: FlowConfig, s: Flow, a: Step)
    requires WorksOk(s) && Enabled(c, s, a)
    ensures WorksOk(Do(c, s, a))
  {
    hide WorksOk;
    match a
    case Work(w, work) => WorkerKeepsWorks(s, w, work);
    case _ => SameWorks(s, Do(c, s, a));
  }

  // ---- The data ----

  ghost predicate Known(g: G.Gate<Bytes>, ids: seq<nat>) {
    forall k :: 0 <= k < |ids| ==> ids[k] < |g.calls|
  }

  /** The payload of a call never changes. */
  lemma DataStable(g: G.Gate<Bytes>, a: G.Step<Bytes>, ids: seq<nat>)
    requires G.Enabled(g, a) && Known(g, ids)
    ensures DataOf(G.Do(g, a), ids) == DataOf(g, ids)
  {
    assert forall id: nat :: id < |g.calls| ==> CallData(G.Do(g, a), id) == CallData(g, id);
  }

  lemma DataOfSnoc(g: G.Gate<Bytes>, ids: seq<nat>, id: nat)
    ensures DataOf(g, ids + [id]) == DataOf(g, ids) + [CallData(g, id)]
  {
  }

  lemma GateKnows(g: G.Gate<Bytes>)
    requires G.Inv(g)
    ensures Known(g, g.accepted) && Known(g, g.received) && Known(g, g.queue)
  {
    assert forall k :: 0 <= k < |g.received| ==> g.received[k] == g.accepted[k];
    assert forall k :: 0 <= k < |g.queue| ==> g.queue[k] == g.accepted[|g.received| + k];
    assert forall k :: 0 <= k < |g.accepted| ==> g.accepted[k] in g.accepted;
  }

  /** A step of a gate leaves what was received in place, and adds the received payload on `Receive` and `HandOff`. */
  lemma GateReceives(g: G.Gate<Bytes>, a: G.Step<Bytes>)
    requires G.Inv(g) && G.Enabled(g, a)
    ensures
      var h := G.Do(g, a);
      DataOf(h, h.received) == DataOf(g, g.received)
        + match a
          case Receive => [CallData(g, g.queue[0])]
          case HandOff(id) => [CallData(g, id)]
          case _ => []
  {
    GateKnows(g);
    DataStable(g, a, g.received);
    match a
    case Receive =>
      DataStable(g, a, [g.queue[0]]);
      DataOfSnoc(G.Do(g, a), g.received, g.queue[0]);
      assert DataOf(G.Do(g, a), [g.queue[0]])[0] == DataOf(g, [g.queue[0]])[0];
    case HandOff(id) =>
      DataStable(g, a, [id]);
      DataOfSnoc(G.Do(g, a), g.received, id);
      assert DataOf(G.Do(g, a), [id])[0] == DataOf(g, [id])[0];
    case _ =>
  }

  /** A step of a gate adds to what was accepted exactly when a send succeeds. */
  lemma GateAccepts(g: G.Gate<Bytes>, a: G.Step<Bytes>)
    requires G.Inv(g) && G.Enabled(g, a)
    ensures
      var h := G.Do(g, a);
      DataOf(h, h.accepted) == DataOf(g, g.accepted)
        + match a
          case Send(id) => if |g.queue| < g.capacity then [CallData(g, id)] else []
          case HandOff(id) => [CallData(g, id)]
          case _ => []
  {
    GateKnows(g);
    DataStable(g, a, g.accepted);
    if a.Send? || a.HandOff? {
      DataStable(g, a, [a.id]);
      DataOfSnoc(G.Do(g, a), g.accepted, a.id);
      assert DataOf(G.Do(g, a), [a.id])[0] == DataOf(g, [a.id])[0];
    }
  }

  lemma AppendAllSnoc(c: Packing.Config, ps: seq<Bytes>, p: Bytes)
    ensures AppendAll(c, EMPTY_STATE, ps + [p]) == Append(c, AppendAll(c, EMPTY_STATE, ps), p)
  {
    assert (ps + [p])[..|ps|] == ps;
  }

  lemma ReceiveKeepsAccData(c: FlowConfig, s: Flow)
    requires c.packing.Valid() && GatesOk(s) && AccDataOk(c, s) && AccEnabled(c, s, AccReceive)
    ensures AccDataOk(c, AccDo(c, s, AccReceive))
  {
    hide G.Inv, G.Do, Packing.Inv, Append;
    var payloads, p := DataOf(s.accGate, s.accGate.received), CallData(s.accGate, s.accGate.queue[0]);
    GateReceives(s.accGate, G.Receive);
    AppendKeepsInv(c.packing, s.acc.core, p);
    AppendKeepsPayloads(c.packing, s.acc.core, p);
    NonEmptySnoc(payloads, p);
    AppendAllSnoc(c.packing, payloads, p);
  }

  lemma FlushKeepsAccData(c: FlowConfig, s: Flow, a: AccStep)
    requires AccDataOk(c, s) && (a == AccTick || a == AccFinish) && AccEnabled(c, s, a)
    ensures AccDataOk(c, AccDo(c, s, a))
  {
    hide Packing.Inv, AppendAll, NonEmpty;
    FlushKeepsInv(c.packing, s.acc.core);
    FlushKeepsPayloads(s.acc.core);
  }

  /** Steps that leave the accumulator's state and what it received alone. */
  lemma SameAccData(c: FlowConfig, s: Flow, s': Flow)
    requires AccDataOk(c, s) && s'.acc.core == s.acc.core
    requires DataOf(s'.accGate, s'.accGate.received) == DataOf(s.accGate, s.accGate.received)
    requires s'.acc.phase in {Finishing, Done} <==> s.acc.phase in {Finishing, Done}
    ensures AccDataOk(c, s')
  {
  }

  lemma {:induction false} KeepsAccData(c: FlowConfig, s: Flow, a: Step)
    requires c.packing.Valid() && GatesOk(s) && AccDataOk(c, s) && Enabled(c, s, a)
    ensures AccDataOk(c, Do(c, s, a))
  {
    hide AccDataOk, G.Inv, G.Do, G.Enabled, Append, DataOf;
    match a
    case Client(call) =>
      GateReceives(s.accGate, call);
      SameAccData(c, s, ClientDo(s, call));
    case Acc(acc) =>
      if acc == AccReceive {
        ReceiveKeepsAccData(c, s);
      } else if acc == AccTick || acc == AccFinish {
        FlushKeepsAccData(c, s, acc);
      } else if acc == AccExit {
        SameAccData(c, s, AccDo(c, s, acc));
      } else {
        GateReceives(s.accGate, AccGateStep(acc));
        SameAccData(c, s, AccDo(c, s, acc));
      }
    case _ => SameAccData(c, s, Do(c, s, a));
  }

  lemma BlocksConcat(c: Packing.Config, a: seq<Group>, b: seq<Group>)
    ensures Blocks(c, a + b) == Blocks(c, a) + Blocks(c, b)
  {
  }

  lemma AppendExtends(c: Packing.Config, s: Packing.State, p: Bytes)
    ensures s.groups <= Append(c, s, p).groups && s.groups <= Flush(s).groups
  {
  }

  /** The accumulator's own steps put exactly the blocks of the new groups up for delivery. */
  lemma AccProduces(c: FlowConfig, s: Flow, a: AccStep)
    requires AccEnabled(c, s, a)
    ensures
      var s', g := AccDo(c, s, a), s.acc.core.groups;
      && s'.upGate == s.upGate && s'.up == s.up && s'.units == s.units
      && Undelivered(s) == [] && s'.acc.trying == None
      && g <= s'.acc.core.groups
      && Undelivered(s') == Blocks(c.packing, s'.acc.core.groups[|g|..])
  {
    hide Append, Flush, Blocks, G.Do;
    AppendExtends(c.packing, s.acc.core, if a == AccReceive then CallData(s.accGate, s.accGate.queue[0]) else []);
    NoBlocks(c.packing, s.acc.core.groups);
  }

  lemma NoBlocks(c: Packing.Config, gs: seq<Group>)
    ensures Blocks(c, gs[|gs|..]) == []
  {
  }

  lemma AccKeepsUpData(c: FlowConfig, s: Flow, a: AccStep)
    requires UpDataOk(c, s) && AccEnabled(c, s, a)
    ensures UpDataOk(c, AccDo(c, s, a))
  {
    AccProduces(c, s, a);
    hide AccDo, AccEnabled, Blocks, DataOf, Undelivered;
    var s', g := AccDo(c, s, a), s.acc.core.groups;
    assert s'.acc.core.groups == g + s'.acc.core.groups[|g|..];
    BlocksConcat(c.packing, g, s'.acc.core.groups[|g|..]);
    assert DataOf(s.upGate, s.upGate.accepted) + [] == DataOf(s.upGate, s.upGate.accepted);
  }

  /** The uploader's own steps touch no call of `Enqueue`. */
  lemma UpLeavesCalls(c: FlowConfig, s: Flow, a: UpStep)
    requires UpEnabled(c, s, a)
    ensures
      var s' := UpDo(c, s, a);
      && s'.acc == s.acc && s'.upGate.calls == s.upGate.calls && s'.upGate.accepted == s.upGate.accepted
      && DataOf(s'.upGate, s'.upGate.accepted) == DataOf(s.upGate, s.upGate.accepted)
      && Undelivered(s') == Undelivered(s)
  {
  }

  lemma UpKeepsUpData(c: FlowConfig, s: Flow, a: UpStep)
    requires GatesOk(s) && UpDataOk(c, s) && UpEnabled(c, s, a)
    ensures UpDataOk(c, UpDo(c, s, a))
  {
    UpLeavesCalls(c, s, a);
    hide G.Inv, G.Do, DataOf, Blocks, Undelivered;
    if a != UpForward && a != UpExit {
      GateReceives(s.upGate, UpGateStep(a));
    }
  }

  lemma TryKeepsReceived(s: Flow, a: TryStep)
    requires GatesOk(s) && TryEnabled(s, a)
    requires DataOf(s.upGate, s.upGate.received) == s.units + InHand(s)
    ensures
      var s' := TryDo(s, a);
      DataOf(s'.upGate, s'.upGate.received) == s'.units + InHand(s')
  {
    hide G.Inv, G.Do, DataOf;
    if a != TryRefused {
      GateReceives(s.upGate, TryGateStep(s, a));
    }
  }

  /** A block the uploader accepts is no longer up for delivery; every other step of a try changes neither. */
  lemma TryDelivers(s: Flow, a: TryStep)
    requires CallsOk(s) && TryEnabled(s, a) && (a == TrySend ==> !s.upGate.closed)
    ensures
      var delivered := a == TryHandOff || (a == TrySend && |s.upGate.queue| < s.upGate.capacity);
      Undelivered(s) == (if delivered then [s.acc.outbox[0]] else []) + Undelivered(TryDo(s, a))
  {
    assert s.acc.outbox == [s.acc.outbox[0]] + s.acc.outbox[1..];
  }

  lemma CheckedIsOpen(g: G.Gate<Bytes>, id: nat)
    requires G.Inv(g) && G.At(g, id, G.Checked)
    ensures !g.closed && !g.shuttingDown
  {
    assert G.LockInv(g);
  }

  /** One step of a try: the block in question is either accepted or still up for delivery. */
  lemma TryKeepsUpData(c: FlowConfig, s: Flow, a: TryStep)
    requires GatesOk(s) && CallsOk(s) && UpDataOk(c, s) && TryEnabled(s, a)
    ensures UpDataOk(c, TryDo(s, a))
  {
    hide G.Inv, G.Do, DataOf, Blocks, Undelivered;
    TryKeepsReceived(s, a);
    if a == TrySend {
      CheckedIsOpen(s.upGate, s.acc.trying.value);
    }
    TryDelivers(s, a);
    if a != TryRefused {
      GateAccepts(s.upGate, TryGateStep(s, a));
    }
  }

  /** Steps that concern no block. */
  lemma SameUpData(c: FlowConfig, s: Flow, s': Flow)
    requires UpDataOk(c, s) && s'.acc == s.acc && s'.upGate == s.upGate && s'.up == s.up && s'.units == s.units
    ensures UpDataOk(c, s')
  {
  }

  lemma {:induction false} KeepsUpData(c: FlowConfig, s: Flow, a: Step)
    requires GatesOk(s) && CallsOk(s) && UpDataOk(c, s) && Enabled(c, s, a)
    ensures UpDataOk(c, Do(c, s, a))
  {
    hide AccDo, AccEnabled, TryDo, TryEnabled, UpDo, UpEnabled, G.Do, G.Enabled, GatesOk, CallsOk, UpDataOk;
    match a
    case Acc(acc) => AccKeepsUpData(c, s, acc);
    case Try(try) => TryKeepsUpData(c, s, try);
    case Up(up) => UpKeepsUpData(c, s, up);
    case _ => SameUpData(c, s, Do(c, s, a));
  }

  lemma {:induction false} StepKeepsInv(c: FlowConfig, s: Flow, a: Step)
    requires c.Valid() && Inv(c, s) && Enabled(c, s, a)
    ensures Inv(c, Do(c, s, a))
  {
    hide GatesOk, StagesOk, EmptiedOk, WorkersOk, CallsOk, AccDataOk, UpDataOk, WorksOk, Enabled, Do;
    KeepsGates(c, s, a);
    KeepsStages(c, s, a);
    KeepsEmptied(c, s, a);
    KeepsWorkers(c, s, a);
    KeepsCalls(c, s, a);
    KeepsAccData(c, s, a);
    KeepsUpData(c, s, a);
    KeepsWorks(c, s, a);
  }

  lemma InitDataOk(c: FlowConfig)
    ensures AccDataOk(c, Init(c)) && UpDataOk(c, Init(c))
  {
    var s := Init(c);
    assert DataOf(s.accGate, []) == [] && DataOf(s.upGate, []) == [];
    assert Blocks(c.packing, []) == [] && Held(EMPTY_STATE) == [];
    hide DataOf, Blocks, Held;
  }

  lemma InitWorksOk(c: FlowConfig)
    ensures WorksOk(Init(c))
  {
  }

  lemma {:induction false} InitOk(c: FlowConfig)
    requires c.Valid()
    ensures Inv(c, Init(c))
  {
    hide AccDataOk, UpDataOk, WorksOk;
    InitDataOk(c);
    InitWorksOk(c);
  }

  lemma {:induction false} RunKeepsInv(c: FlowConfig, run: seq<Step>)
    requires c.Valid()
    ensures Inv(c, Exec(c, Init(c), run))
  {
    hide Inv, Enabled, Do;
    if run == [] {
      InitOk(c);
    } else {
      var front, a := run[..|run| - 1], run[|run| - 1];
      RunKeepsInv(c, front);
      if Enabled(c, Exec(c, Init(c), front), a) {
        StepKeepsInv(c, Exec(c, Init(c), front), a);
      }
    }
  }

  // ---- No loss ----

  /** The payloads whose `Enqueue` was accepted, in the order the queue took them. */
  ghost function Accepted(s: Flow): seq<Bytes> {
    DataOf(s.accGate, s.accGate.accepted)
  }

  /** Wherever a run stands: a successful call's payload is on record, once, and a failed call's is not. */
  lemma ReturnsAreTruthful(c: FlowConfig, run: seq<Step>)
    requires c.Valid()
    ensures
      var g := Exec(c, Init(c), run).accGate;
      && !g.panicked && !Exec(c, Init(c), run).upGate.panicked
      && Distinct(g.accepted)
      && (forall i :: 0 <= i < |g.calls| && g.calls[i].phase == G.Returned(true) ==> i in g.accepted)
      && (forall i :: 0 <= i < |g.calls| && g.calls[i].phase == G.Returned(false) ==> i !in g.accepted)
  {
    hide Exec;
    RunKeepsInv(c, run);
  }

  /** The accumulator, with a block to hand over, never finds the uploader shutting down. */
  lemma UploaderOutlivesAccumulator(c: FlowConfig, run: seq<Step>)
    requires c.Valid()
    ensures
      var s := Exec(c, Init(c), run);
      s.acc.phase != Done || s.acc.outbox != [] ==> !s.upGate.shuttingDown && s.up.phase == Running
  {
    hide Exec;
    RunKeepsInv(c, run);
  }

  /** Each work unit was passed to `work` exactly once. */
  ghost predicate AllWorkedOnce(s: Flow) {
    && |s.works| == |s.units|
    && (forall j, k :: 0 <= j < k < |s.works| ==> s.works[j].0 != s.works[k].0)
    && (forall u: nat :: u < |s.units| ==> Worked(s, u))
  }

  lemma WorksCount(s: Flow)
    requires WorksOk(s) && s.taken == |s.units|
    requires forall w :: 0 <= w < |s.workers| ==> s.workers[w].unit == None
    ensures AllWorkedOnce(s)
  {
    var ids := seq(|s.works|, k requires 0 <= k < |s.works| => s.works[k].0);
    forall u: nat | u < |s.units| ensures Worked(s, u) && u in ids {
      assert Worked(s, u) || Busy(s, u);
      var k :| 0 <= k < |s.works| && s.works[k].0 == u;
      assert ids[k] == u;
    }
    DistinctSize(ids);
    RangeSize(|s.units|);
    assert Elements(ids) == Range(|s.units|);
  }

  lemma FinishedIsEmpty(c: FlowConfig, s: Flow)
    requires c.Valid() && Inv(c, s) && s.ctrl == Finished
    ensures s.accGate.queue == [] && s.upGate.queue == [] && s.acc.outbox == [] && s.acc.trying == None
    ensures s.acc.core.pending == [] && s.acc.phase == Done && s.up.phase == Done && s.up.hand == None
    ensures s.taken == |s.units|
    ensures forall w :: 0 <= w < |s.workers| ==> s.workers[w].unit == None
  {
    assert s.workers[0].phase == Done;
  }

  /**
   Graceful shutdown loses nothing. In every run, once the run group is done: all queues and buffers are empty; the
   accepted payloads were all received, and the non-empty ones, in order, are the members of some groups; the work
   units are the blocks of these groups, in order, and each was passed to `work` exactly once.
   */
  lemma NothingIsLost(c: FlowConfig, run: seq<Step>)
    requires c.Valid() && Exec(c, Init(c), run).ctrl == Finished
    ensures
      var s := Exec(c, Init(c), run);
      && s.accGate.queue == [] && s.upGate.queue == [] && s.acc.outbox == [] && s.acc.core.pending == []
      && s.accGate.received == s.accGate.accepted
      && IsSplit(c.packing, s.acc.core.groups, NonEmpty(Accepted(s)))
      && s.units == Blocks(c.packing, s.acc.core.groups)
      && AllWorkedOnce(s)
  {
    RunKeepsInv(c, run);
    FinishedLosesNothing(c, Exec(c, Init(c), run));
  }

  lemma FinishedLosesNothing(c: FlowConfig, s: Flow)
    requires c.Valid() && Inv(c, s) && s.ctrl == Finished
    ensures s.accGate.queue == [] && s.upGate.queue == [] && s.acc.outbox == [] && s.acc.core.pending == []
    ensures s.accGate.received == s.accGate.accepted
    ensures IsSplit(c.packing, s.acc.core.groups, NonEmpty(Accepted(s)))
    ensures s.units == Blocks(c.packing, s.acc.core.groups)
    ensures AllWorkedOnce(s)
  {
    hide G.LockInv, G.Recorded, StagesOk, EmptiedOk, WorkersOk, CallsOk, WorksOk, AllWorkedOnce, Blocks, NonEmpty, AppendAll;
    FinishedIsEmpty(c, s);
    WorksCount(s);
    assert s.accGate.received + [] == s.accGate.received;
    assert s.upGate.received + [] == s.upGate.received;
    assert Undelivered(s) == [] && InHand(s) == [];
    assert s.units + [] == s.units;
    assert Flatten(s.acc.core.groups) + [] == Flatten(s.acc.core.groups);
  }

  /** Without a timer the work units are moreover the optimal packing of the accepted payloads. */
  lemma {:induction false} UnitsAreOptimal(c: FlowConfig, run: seq<Step>)
    requires c.Valid() && !c.timed && Exec(c, Init(c), run).ctrl == Finished
    ensures
      var s := Exec(c, Init(c), run);
      && s.units == Blocks(c.packing, Pack(c.packing, Accepted(s)))
      && forall gs :: IsSplit(c.packing, gs, NonEmpty(Accepted(s))) ==> |s.units| <= |gs|
  {
    var s := Exec(c, Init(c), run);
    RunKeepsInv(c, run);
    FinishedLosesNothing(c, s);
    FinishedIsEmpty(c, s);
    PackIsOptimal(c.packing, Accepted(s));
  }
}
