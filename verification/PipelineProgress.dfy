/**
 The shutdown of a flow terminates: once callers stop coming, every unfinished state has a step that makes progress,
 and progress is measured by one number that only a failed try of the accumulator can raise.
 */
module PipelineProgress {
  import opened Options
  import opened Packing
  import opened Pipeline
  import opened PipelineSafety
  import G = ShutdownGate

  // ---- The measure ----

  ghost function CallWeight(p: G.Phase): nat {
    match p case Locked => 11 case Checked => 10 case Leaving(_) => 1 case Returned(_) => 0
  }

  ghost function CallsWeight(calls: seq<G.Call<Bytes>>): nat {
    if calls == [] then 0 else CallsWeight(calls[..|calls| - 1]) + CallWeight(calls[|calls| - 1].phase)
  }

  ghost function WorkerWeight(w: Worker): nat {
    (match w.phase case Running => 2 case Draining => 1 case _ => 0) + if w.unit.Some? then 1 else 0
  }

  ghost function WorkersWeight(ws: seq<Worker>): nat {
    if ws == [] then 0 else WorkersWeight(ws[..|ws| - 1]) + WorkerWeight(ws[|ws| - 1])
  }

  ghost function StageWeight(phase: Phase, closing: G.Closing): nat {
    match phase
    case Running => 7
    case Stopping => (match closing case Waiting => 6 case Holding => 5 case Flagged => 4 case _ => 3)
    case Draining => 2
    case Finishing => 1
    case Done => 0
  }

  ghost function CtrlWeight(c: FlowConfig, ctrl: Controller): int {
    match ctrl
    case Serving => c.workers + 3
    case StoppingAcc => c.workers + 2
    case StoppingUp => c.workers + 1
    case StoppingWorkers(next) => c.workers - next
    case Finished => 0
  }

  ghost predicate TryingAt(s: Flow, p: G.Phase) {
    s.acc.trying.Some? && G.At(s.upGate, s.acc.trying.value, p)
  }

  /** What the callers and the accumulator have left to do, but for the blocks to deliver. */
  ghost function AccLeft(s: Flow): nat {
    CallsWeight(s.accGate.calls) + 8 * |s.accGate.queue|
    + (if s.acc.core.pending == [] then 0 else 7)
    + StageWeight(s.acc.phase, s.accGate.closing)
  }

  ghost function DeliveryLeft(s: Flow): nat {
    6 * |Undelivered(s)| + if TryingAt(s, G.Leaving(true)) then 1 else 0
  }

  ghost function UpLeft(s: Flow): nat {
    4 * |s.upGate.queue| + 3 * |InHand(s)| + StageWeight(s.up.phase, s.upGate.closing)
  }

  ghost function UnitsLeft(s: Flow): int {
    2 * (|s.units| - s.taken) + WorkersWeight(s.workers)
  }

  /** What is left to do, a payload weighing less the further it has come. */
  ghost function WorkLeft(c: FlowConfig, s: Flow): int {
    AccLeft(s) + DeliveryLeft(s) + UpLeft(s) + UnitsLeft(s) + CtrlWeight(c, s.ctrl)
  }

  /** How far the current try is from its send. */
  ghost function TryLeft(s: Flow): nat {
    if s.acc.trying == None then 2
    else if TryingAt(s, G.Locked) then 1
    else if TryingAt(s, G.Leaving(false)) then 3
    else 0
  }

  ghost function Rank(c: FlowConfig, s: Flow): int {
    4 * WorkLeft(c, s) + TryLeft(s)
  }

  /** A try that fails: the breaker refuses, or the uploader's queue is full. */
  ghost predicate FailedTry(s: Flow, a: Step) {
    a == Try(TryRefused) || (a == Try(TrySend) && |s.upGate.queue| >= s.upGate.capacity)
  }

  /** Steps that make no progress: failed tries, and ticks with nothing to send. */
  ghost predicate Idle(s: Flow, a: Step) {
    FailedTry(s, a) || (a == Acc(AccTick) && s.acc.core.pending == [])
  }

  ghost predicate NewCall(a: Step) {
    a.Client? && a.call.Begin?
  }

  // ---- Sums ----

  lemma {:induction false} CallsWeightMove(calls: seq<G.Call<Bytes>>, i: nat, p: G.Phase)
    requires i < |calls|
    ensures CallsWeight(calls[i := calls[i].(phase := p)])
         == CallsWeight(calls) - CallWeight(calls[i].phase) + CallWeight(p)
  {
    var moved, n := calls[i := calls[i].(phase := p)], |calls| - 1;
    if i == n {
      assert moved[..n] == calls[..n];
    } else {
      CallsWeightMove(calls[..n], i, p);
      assert moved[..n] == calls[..n][i := calls[i].(phase := p)];
    }
  }

  lemma {:induction false} WorkersWeightMove(ws: seq<Worker>, i: nat, w: Worker)
    requires i < |ws|
    ensures WorkersWeight(ws[i := w]) == WorkersWeight(ws) - WorkerWeight(ws[i]) + WorkerWeight(w)
  {
    var n := |ws| - 1;
    if i == n {
      assert ws[i := w][..n] == ws[..n];
    } else {
      WorkersWeightMove(ws[..n], i, w);
      assert ws[i := w][..n] == ws[..n][i := w];
    }
  }

  // ---- Every step but an idle one lowers the measure ----

  /** The callers' and the accumulator's steps leave everything behind the hand-over alone. */
  lemma AccSideDescends(c: FlowConfig, s: Flow, s': Flow)
    requires s' == s.(accGate := s'.accGate, acc := s'.acc) && s'.acc.trying == s.acc.trying
    requires AccLeft(s') + DeliveryLeft(s') < AccLeft(s) + DeliveryLeft(s)
    ensures Rank(c, s') < Rank(c, s)
  {
    hide AccLeft, DeliveryLeft, CtrlWeight, StageWeight, WorkersWeight;
  }

  lemma ClientLightens(g: G.Gate<Bytes>, a: G.Step<Bytes>)
    requires G.Inv(g) && G.Enabled(g, a) && (a.Check? || a.Send? || a.Leave?)
    ensures
      var h := G.Do(g, a);
      && h.closing == g.closing
      && CallsWeight(h.calls) + 8 * |h.queue| < CallsWeight(g.calls) + 8 * |g.queue|
  {
    hide G.Recorded, G.QueueInv, CallsWeight;
    if a.Send? {
      CheckedIsOpen(g, a.id);
    }
    CallsWeightMove(g.calls, a.id, G.Do(g, a).calls[a.id].phase);
  }

  lemma ClientDescends(c: FlowConfig, s: Flow, a: G.Step<Bytes>)
    requires GatesOk(s) && ClientEnabled(s, a) && !a.Begin?
    ensures Rank(c, ClientDo(s, a)) < Rank(c, s)
  {
    hide G.Inv, G.Enabled, G.Do, CallsWeight, StageWeight, Rank;
    ClientLightens(s.accGate, a);
    AccSideDescends(c, s, ClientDo(s, a));
  }

  lemma FormedGrowsByOne(c: Packing.Config, s: Packing.State, p: Bytes)
    ensures
      var t := Append(c, s, p);
      7 * (if t.pending == [] then 0 else 1) + 6 * (|t.groups| - |s.groups|)
      < 7 * (if s.pending == [] then 0 else 1) + 8
  {
  }

  /** New groups put one block each up for delivery. */
  lemma ProducedBlocks(c: FlowConfig, s: Flow, a: AccStep)
    requires AccEnabled(c, s, a)
    ensures
      var s' := AccDo(c, s, a);
      |s'.acc.core.groups| >= |s.acc.core.groups| && Undelivered(s) == []
      && |Undelivered(s')| == |s'.acc.core.groups| - |s.acc.core.groups|
      && s'.acc.trying == None
  {
    AccProduces(c, s, a);
    hide AccDo, AccEnabled, Append, Flush;
  }

  lemma AccReceiveDescends(c: FlowConfig, s: Flow)
    requires AccEnabled(c, s, AccReceive)
    ensures Rank(c, AccDo(c, s, AccReceive)) < Rank(c, s)
  {
    ProducedBlocks(c, s, AccReceive);
    FormedGrowsByOne(c.packing, s.acc.core, CallData(s.accGate, s.accGate.queue[0]));
    hide Append, CallsWeight, StageWeight, Undelivered, Blocks, Rank;
    AccLeavesRest(c, s, AccReceive);
    AccSideDescends(c, s, AccDo(c, s, AccReceive));
  }

  lemma AccFlushDescends(c: FlowConfig, s: Flow, a: AccStep)
    requires AccEnabled(c, s, a) && (a == AccTick || a == AccFinish) && !Idle(s, Acc(a))
    ensures Rank(c, AccDo(c, s, a)) < Rank(c, s)
  {
    ProducedBlocks(c, s, a);
    hide CallsWeight, Undelivered, Blocks, Rank;
    AccSideDescends(c, s, AccDo(c, s, a));
  }

  lemma AccStageDescends(c: FlowConfig, s: Flow, a: AccStep)
    requires StagesOk(s) && AccEnabled(c, s, a) && a !in {AccReceive, AccTick, AccFinish}
    ensures Rank(c, AccDo(c, s, a)) < Rank(c, s)
  {
    hide CallsWeight, Rank;
    AccSideDescends(c, s, AccDo(c, s, a));
  }

  lemma AccDescends(c: FlowConfig, s: Flow, a: AccStep)
    requires StagesOk(s) && AccEnabled(c, s, a) && !Idle(s, Acc(a))
    ensures Rank(c, AccDo(c, s, a)) < Rank(c, s)
  {
    hide StagesOk, AccEnabled, AccDo, Idle, Rank;
    match a
    case AccReceive => AccReceiveDescends(c, s);
    case AccTick => AccFlushDescends(c, s, a);
    case AccFinish => AccFlushDescends(c, s, a);
    case _ => AccStageDescends(c, s, a);
  }

  /** While there are blocks to hand over, the uploader has not been interrupted. */
  lemma UploaderIsOpen(s: Flow)
    requires GatesOk(s) && StagesOk(s) && EmptiedOk(s) && s.acc.outbox != []
    ensures s.up.phase == Running && s.upGate.closing == G.Open && !s.upGate.shuttingDown && !s.upGate.closed
  {
    assert G.LockInv(s.upGate);
  }

  /** The steps of a try leave what comes before and behind the hand-over alone. */
  lemma TrySideDescends(c: FlowConfig, s: Flow, s': Flow)
    requires s'.accGate == s.accGate && s'.acc.core == s.acc.core && s'.acc.phase == s.acc.phase
    requires s'.units == s.units && s'.taken == s.taken && s'.workers == s.workers && s'.ctrl == s.ctrl
    requires 4 * (DeliveryLeft(s') + UpLeft(s')) + TryLeft(s') < 4 * (DeliveryLeft(s) + UpLeft(s)) + TryLeft(s)
    ensures Rank(c, s') < Rank(c, s)
  {
    hide DeliveryLeft, UpLeft, TryLeft, CtrlWeight, StageWeight, CallsWeight, WorkersWeight;
  }

  lemma TrySendDescends(c: FlowConfig, s: Flow, a: TryStep)
    requires CallsOk(s) && TryEnabled(s, a) && (a == TrySend || a == TryHandOff) && !Idle(s, Try(a))
    requires !s.upGate.closed
    ensures Rank(c, TryDo(s, a)) < Rank(c, s)
  {
    hide Rank, StageWeight;
    TrySideDescends(c, s, TryDo(s, a));
  }

  lemma TryMovesDescends(c: FlowConfig, s: Flow, a: TryStep)
    requires CallsOk(s) && TryEnabled(s, a) && (a == TryBegin || a == TryCheck || a == TryLeave)
    requires !s.upGate.shuttingDown
    ensures Rank(c, TryDo(s, a)) < Rank(c, s)
  {
    hide Rank, StageWeight;
    TrySideDescends(c, s, TryDo(s, a));
  }

  lemma TryDescends(c: FlowConfig, s: Flow, a: TryStep)
    requires GatesOk(s) && StagesOk(s) && EmptiedOk(s) && CallsOk(s) && TryEnabled(s, a) && !Idle(s, Try(a))
    ensures Rank(c, TryDo(s, a)) < Rank(c, s)
  {
    UploaderIsOpen(s);
    hide GatesOk, StagesOk, EmptiedOk, CallsOk, TryDo, G.Enabled, Rank;
    if a == TrySend || a == TryHandOff {
      TrySendDescends(c, s, a);
    } else {
      TryMovesDescends(c, s, a);
    }
  }

  /** Steps behind the hand-over leave what comes before it alone. */
  lemma UpSideDescends(c: FlowConfig, s: Flow, s': Flow)
    requires s'.accGate == s.accGate && s'.acc == s.acc && s'.upGate.calls == s.upGate.calls && s'.ctrl == s.ctrl
    requires UpLeft(s') + UnitsLeft(s') < UpLeft(s) + UnitsLeft(s)
    ensures Rank(c, s') < Rank(c, s)
  {
    hide UpLeft, UnitsLeft, CtrlWeight, StageWeight, CallsWeight;
  }

  lemma UpDescends(c: FlowConfig, s: Flow, a: UpStep)
    requires StagesOk(s) && UpEnabled(c, s, a)
    ensures Rank(c, UpDo(c, s, a)) < Rank(c, s)
  {
    hide WorkersWeight, Rank;
    UpSideDescends(c, s, UpDo(c, s, a));
  }

  lemma WorkerDescends(c: FlowConfig, s: Flow, w: nat, a: WorkerStep)
    requires WorkerEnabled(s, w, a)
    ensures Rank(c, WorkerDo(s, w, a)) < Rank(c, s)
  {
    hide WorkersWeight, StageWeight, Rank;
    WorkersWeightMove(s.workers, w, WorkerDo(s, w, a).workers[w]);
    UpSideDescends(c, s, WorkerDo(s, w, a));
  }

  lemma CtrlDescends(c: FlowConfig, s: Flow, a: CtrlStep)
    requires WorkersOk(c, s) && CtrlEnabled(s, a)
    ensures Rank(c, CtrlDo(s, a)) < Rank(c, s)
  {
    hide CallsWeight, WorkersWeight, StageWeight;
    assert CtrlWeight(c, CtrlDo(s, a).ctrl) < CtrlWeight(c, s.ctrl);
    hide CtrlWeight, WorkersOk, CtrlEnabled;
  }

  /** Every step that is not a new call, a failed try or an idle tick lowers the measure. */
  lemma {:induction false} StepDescends(c: FlowConfig, s: Flow, a: Step)
    requires PipelineSafety.Inv(c, s) && Enabled(c, s, a) && !NewCall(a) && !Idle(s, a)
    ensures Rank(c, Do(c, s, a)) < Rank(c, s)
  {
    hide GatesOk, StagesOk, EmptiedOk, WorkersOk, CallsOk, AccDataOk, UpDataOk, WorksOk, Rank,
      ClientEnabled, AccEnabled, TryEnabled, UpEnabled, WorkerEnabled, CtrlEnabled,
      ClientDo, AccDo, TryDo, UpDo, WorkerDo, CtrlDo;
    match a
    case Client(call) => ClientDescends(c, s, call);
    case Acc(acc) => AccDescends(c, s, acc);
    case Try(try) => TryDescends(c, s, try);
    case Up(up) => UpDescends(c, s, up);
    case Work(w, work) => WorkerDescends(c, s, w, work);
    case Ctrl(ctrl) => CtrlDescends(c, s, ctrl);
  }

  /** A failed try costs at most three, and an idle tick nothing. */
  lemma IdleCosts(c: FlowConfig, s: Flow, a: Step)
    requires PipelineSafety.Inv(c, s) && Enabled(c, s, a) && Idle(s, a)
    ensures Rank(c, Do(c, s, a)) <= Rank(c, s) + if FailedTry(s, a) then 3 else 0
  {
    hide G.Recorded, CallsWeight, WorkersWeight, StagesOk, EmptiedOk, WorkersOk, AccDataOk, UpDataOk, WorksOk;
  }

  lemma RankIsNat(c: FlowConfig, s: Flow)
    requires PipelineSafety.Inv(c, s)
    ensures Rank(c, s) >= 0
  {
    hide CallsWeight, WorkersWeight;
  }

  // ---- There is always such a step ----

  /** The run group is done and no call of `Enqueue` is under way. */
  ghost predicate AllDone(s: Flow) {
    s.ctrl == Finished && G.NoReaders(s.accGate)
  }

  ghost predicate Advances(c: FlowConfig, s: Flow, a: Step) {
    Enabled(c, s, a) && !NewCall(a) && !Idle(s, a)
  }

  lemma ClientAdvances(c: FlowConfig, s: Flow) returns (a: Step)
    requires GatesOk(s) && !G.NoReaders(s.accGate)
    ensures Advances(c, s, a) && a.Client?
  {
    hide G.Recorded;
    var i: nat :| i < |s.accGate.calls| && G.InFlight(s.accGate.calls[i].phase);
    match s.accGate.calls[i].phase
    case Locked => a := Client(G.Check(i));
    case Checked => a := Client(G.Send(i));
    case Leaving(_) => a := Client(G.Leave(i));
  }

  /** Work units on their way: some worker can go on, or the uploader can. */
  lemma UnitsAdvance(c: FlowConfig, s: Flow) returns (a: Step)
    requires c.Valid() && StagesOk(s) && EmptiedOk(s) && WorkersOk(c, s)
    requires s.taken < |s.units| || s.up.hand.Some? || exists w :: 0 <= w < |s.workers| && s.workers[w].unit.Some?
    ensures Advances(c, s, a) && (a.Work? || a.Up?)
  {
    if w: nat :| w < |s.workers| && s.workers[w].unit.Some? {
      a := Work(w, WorkerWork);
    } else if s.taken < |s.units| {
      assert s.workers[0].phase != Done;
      a := Work(0, WorkerReceive);
    } else {
      a := Up(UpForward);
    }
  }

  /** The steps a component takes from asking for its write lock to closing its channel are never blocked for good. */
  lemma StoppingAdvances(g: G.Gate<Bytes>) returns (a: G.Step<Bytes>)
    requires G.Inv(g) && G.NoReaders(g) && Matches(Stopping, g.closing)
    ensures a in {G.Acquire, G.Flag, G.Unlock, G.Close} && G.Enabled(g, a)
  {
    match g.closing
    case Waiting => a := G.Acquire;
    case Holding => a := G.Flag;
    case Flagged => a := G.Unlock;
    case Released => a := G.Close;
  }

  lemma UploaderAdvances(c: FlowConfig, s: Flow) returns (a: Step)
    requires GatesOk(s) && StagesOk(s) && EmptiedOk(s) && CallsOk(s) && s.up.hand == None
    requires s.upGate.queue != [] || s.up.phase == Stopping
    ensures Advances(c, s, a) && a.Up?
  {
    hide G.Recorded, G.QueueInv;
    assert G.LockInv(s.upGate);
    if s.up.phase == Stopping {
      assert G.NoReaders(s.upGate);
      var g := StoppingAdvances(s.upGate);
      a := match g case Acquire => Up(UpAcquire) case Flag => Up(UpFlag) case Unlock => Up(UpUnlock) case _ => Up(UpClose);
    } else {
      a := Up(UpReceive);
    }
  }

  /** With the uploader idle, the accumulator's hand-over goes on, and its send succeeds. */
  lemma TryAdvances(c: FlowConfig, s: Flow) returns (a: Step)
    requires GatesOk(s) && StagesOk(s) && EmptiedOk(s) && CallsOk(s) && s.acc.outbox != []
    requires s.up.hand == None && s.upGate.queue == []
    ensures Advances(c, s, a) && a.Try?
  {
    hide G.Recorded, G.QueueInv;
    assert G.LockInv(s.upGate);
    UploaderIsOpen(s);
    if s.acc.trying == None {
      a := Try(TryBegin);
    } else {
      match s.upGate.calls[s.acc.trying.value].phase
      case Locked => a := Try(TryCheck);
      case Checked => a := if s.upGate.capacity > 0 then Try(TrySend) else Try(TryHandOff);
      case Leaving(_) => a := Try(TryLeave);
    }
  }

  /** With everything downstream idle, the stages stop one after the other. */
  lemma StagesAdvance(c: FlowConfig, s: Flow) returns (a: Step)
    requires c.Valid() && GatesOk(s) && StagesOk(s) && EmptiedOk(s) && WorkersOk(c, s)
    requires G.NoReaders(s.accGate) && s.ctrl != Finished && s.acc.outbox == []
    requires s.up.hand == None && s.upGate.queue == [] && s.up.phase != Stopping && s.taken == |s.units|
    requires forall w :: 0 <= w < |s.workers| ==> s.workers[w].unit == None
    ensures Advances(c, s, a)
  {
    hide G.Recorded, G.QueueInv;
    assert G.LockInv(s.accGate) && G.LockInv(s.upGate);
    match s.ctrl
    case Serving => a := Ctrl(Interrupt);
    case StoppingAcc =>
      match s.acc.phase {
        case Running => a := Acc(AccStop);
        case Stopping =>
          var g := StoppingAdvances(s.accGate);
          a := match g case Acquire => Acc(AccAcquire) case Flag => Acc(AccFlag) case Unlock => Acc(AccUnlock) case _ => Acc(AccClose);
        case Draining => a := if s.accGate.queue != [] then Acc(AccReceive) else Acc(AccFinish);
        case Finishing => a := Acc(AccExit);
        case Done => a := Ctrl(AccJoined);
      }
    case StoppingUp =>
      a := if s.up.phase == Running then Up(UpStop) else if s.up.phase == Draining then Up(UpExit) else Ctrl(UpJoined);
    case StoppingWorkers(next) =>
      match s.workers[next].phase {
        case Running => a := Work(next, WorkerStop);
        case Draining => a := Work(next, WorkerExit);
        case Done => a := Ctrl(WorkerJoined);
      }
  }

  /** No deadlock: every unfinished state that keeps the invariant has a step that lowers the measure. */
  lemma SomethingAdvances(c: FlowConfig, s: Flow) returns (a: Step)
    requires c.Valid() && PipelineSafety.Inv(c, s) && !AllDone(s)
    ensures Advances(c, s, a)
  {
    hide GatesOk, StagesOk, EmptiedOk, CallsOk, AccDataOk, UpDataOk, WorksOk, Advances, G.NoReaders;
    if !G.NoReaders(s.accGate) {
      a := ClientAdvances(c, s);
    } else if s.taken < |s.units| || s.up.hand.Some? || exists w :: 0 <= w < |s.workers| && s.workers[w].unit.Some? {
      a := UnitsAdvance(c, s);
    } else if s.upGate.queue != [] || s.up.phase == Stopping {
      a := UploaderAdvances(c, s);
    } else if s.acc.outbox != [] {
      a := TryAdvances(c, s);
    } else {
      a := StagesAdvance(c, s);
    }
  }

  // ---- Runs without new calls ----

  ghost predicate NoNewCalls(run: seq<Step>) {
    forall i :: 0 <= i < |run| ==> !NewCall(run[i])
  }

  lemma {:induction false} ExecConcat(c: FlowConfig, s: Flow, run: seq<Step>, more: seq<Step>)
    ensures Exec(c, s, run + more) == Exec(c, Exec(c, s, run), more)
    decreases |more|
  {
    hide Enabled, Do;
    if more == [] {
      assert run + more == run;
    } else {
      assert (run + more)[..|run + more| - 1] == run + more[..|more| - 1];
      ExecConcat(c, s, run, more[..|more| - 1]);
    }
  }

  /** From every state that keeps the invariant, a finite series of steps, none of them a new call, ends the shutdown. */
  lemma {:induction false} Finish(c: FlowConfig, s: Flow) returns (run: seq<Step>)
    requires c.Valid() && PipelineSafety.Inv(c, s)
    ensures NoNewCalls(run) && AllDone(Exec(c, s, run))
    decreases Rank(c, s)
  {
    hide AllDone, PipelineSafety.Inv, Enabled, Do, Idle, Rank;
    if AllDone(s) {
      run := [];
    } else {
      var a := SomethingAdvances(c, s);
      StepDescends(c, s, a);
      StepKeepsInv(c, s, a);
      RankIsNat(c, s);
      var rest := Finish(c, Do(c, s, a));
      run := [a] + rest;
      ExecConcat(c, s, [a], rest);
    }
  }

  /**
   No deadlock and no trap: whatever a run has done so far, if callers stop coming, the flow can still shut down
   completely; and then, as in every finished run, nothing accepted is lost.
   */
  lemma ShutdownCanFinish(c: FlowConfig, run: seq<Step>) returns (more: seq<Step>)
    requires c.Valid()
    ensures NoNewCalls(more)
    ensures
      var s := Exec(c, Init(c), run + more);
      && AllDone(s)
      && IsSplit(c.packing, s.acc.core.groups, NonEmpty(Accepted(s)))
      && s.units == Blocks(c.packing, s.acc.core.groups)
      && AllWorkedOnce(s)
  {
    hide Exec, PipelineSafety.Inv;
    RunKeepsInv(c, run);
    more := Finish(c, Exec(c, Init(c), run));
    ExecConcat(c, Init(c), run, more);
    NothingIsLost(c, run + more);
  }

  /** Steps of a run that made progress, of those attempted. */
  ghost function Progress(c: FlowConfig, s: Flow, run: seq<Step>): nat {
    if run == [] then 0
    else
      var before, a := Exec(c, s, run[..|run| - 1]), run[|run| - 1];
      Progress(c, s, run[..|run| - 1]) + if Enabled(c, before, a) && !Idle(before, a) then 1 else 0
  }

  ghost function Failures(c: FlowConfig, s: Flow, run: seq<Step>): nat {
    if run == [] then 0
    else
      var before, a := Exec(c, s, run[..|run| - 1]), run[|run| - 1];
      Failures(c, s, run[..|run| - 1]) + if Enabled(c, before, a) && FailedTry(before, a) then 1 else 0
  }

  /** Without new calls, a run makes at most as many steps of progress as the measure allows, and three more for every failed try. */
  lemma {:induction false} ProgressIsBounded(c: FlowConfig, s: Flow, run: seq<Step>)
    requires c.Valid() && PipelineSafety.Inv(c, s) && NoNewCalls(run)
    ensures PipelineSafety.Inv(c, Exec(c, s, run))
    ensures 0 <= Rank(c, Exec(c, s, run))
    ensures Progress(c, s, run) + Rank(c, Exec(c, s, run)) <= Rank(c, s) + 3 * Failures(c, s, run)
  {
    hide PipelineSafety.Inv, Enabled, Do, FailedTry, Rank;
    if run != [] {
      var front, a := run[..|run| - 1], run[|run| - 1];
      ProgressIsBounded(c, s, front);
      var before := Exec(c, s, front);
      assert !NewCall(a);
      if Enabled(c, before, a) {
        StepKeepsInv(c, before, a);
        if Idle(before, a) {
          IdleCosts(c, before, a);
        } else {
          StepDescends(c, before, a);
        }
      }
    }
    RankIsNat(c, Exec(c, s, run));
  }

  /** A try lasts a bounded number of steps, so that the work left decides: no step but a new call adds to it. */
  lemma {:induction false} WorkNeverGrows(c: FlowConfig, s: Flow, a: Step)
    requires PipelineSafety.Inv(c, s) && Enabled(c, s, a) && !NewCall(a)
    ensures WorkLeft(c, Do(c, s, a)) <= WorkLeft(c, s)
  {
    hide PipelineSafety.Inv, Enabled, Do, WorkLeft;
    if Idle(s, a) {
      IdleCosts(c, s, a);
      FailedSendIsChecked(c, s, a);
    } else {
      StepDescends(c, s, a);
    }
  }

  lemma FailedSendIsChecked(c: FlowConfig, s: Flow, a: Step)
    requires Enabled(c, s, a) && Idle(s, a)
    ensures a == Try(TrySend) ==> TryLeft(s) == 0
    ensures a == Try(TryRefused) ==> Do(c, s, a) == s
    ensures a == Acc(AccTick) ==> TryLeft(Do(c, s, a)) == TryLeft(s)
  {
  }

  /**
   The retry loop never spins in vain: when a send fails because the uploader's queue is full, some other step is
   enabled that reduces the work left.
   */
  lemma FullQueueDrains(c: FlowConfig, s: Flow) returns (a: Step)
    requires c.Valid() && PipelineSafety.Inv(c, s)
    requires Enabled(c, s, Try(TrySend)) && FailedTry(s, Try(TrySend))
    ensures Advances(c, s, a) && a != Try(TrySend) && WorkLeft(c, Do(c, s, a)) < WorkLeft(c, s)
  {
    hide Advances, AllDone, WorkLeft, Do, GatesOk, StagesOk, EmptiedOk, WorkersOk, CallsOk, AccDataOk, UpDataOk, WorksOk;
    FailedSendIsChecked(c, s, Try(TrySend));
    TryingIsUnfinished(c, s);
    a := SomethingAdvances(c, s);
    AdvancingStep(c, s, a);
  }

  lemma TryingIsUnfinished(c: FlowConfig, s: Flow)
    requires PipelineSafety.Inv(c, s) && s.acc.outbox != []
    ensures !AllDone(s)
  {
    hide GatesOk, WorkersOk, CallsOk, AccDataOk, UpDataOk, WorksOk;
  }

  lemma AdvancingStep(c: FlowConfig, s: Flow, a: Step)
    requires PipelineSafety.Inv(c, s) && Advances(c, s, a)
    ensures Enabled(c, s, a) && !Idle(s, a) && Rank(c, Do(c, s, a)) < Rank(c, s)
  {
    hide PipelineSafety.Inv, Enabled, Do, Idle, Rank;
    StepDescends(c, s, a);
  }
}
