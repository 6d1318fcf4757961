/**
 A flow that serves: without any shutdown it hands on what it accepted, and each goroutine goes on whatever the others
 are at.
 */
module PipelineService {
  import opened Sequences
  import opened Options
  import opened Packing
  import opened Pipeline
  import opened PipelineSafety
  import opened PipelineProgress
  import G = ShutdownGate
  import S = GateService

  // ---- Serving, everything accepted is handed on ----

  /** Nothing is on its way: only the accumulator may hold payloads that do not fill a block, and then only without a timer. */
  ghost predicate Drained(c: FlowConfig, s: Flow) {
    && G.NoReaders(s.accGate) && s.accGate.queue == [] && s.acc.outbox == [] && s.acc.trying == None
    && s.upGate.queue == [] && s.up.hand == None && s.taken == |s.units|
    && (forall w :: 0 <= w < |s.workers| ==> s.workers[w].unit == None)
    && (c.timed ==> s.acc.core.pending == [])
  }

  lemma ServingRuns(s: Flow)
    requires StagesOk(s) && s.ctrl == Serving
    ensures s.acc.phase == Running && s.up.phase == Running
  {
  }

  /** With everything behind it idle, the accumulator receives, or its timer sends what is pending. */
  lemma AccumulatorAdvances(c: FlowConfig, s: Flow) returns (a: Step)
    requires s.acc.phase == Running && s.acc.outbox == [] && s.acc.trying == None && !s.accGate.panicked
    requires s.accGate.queue != [] || (c.timed && s.acc.core.pending != [])
    ensures Advances(c, s, a) && a.Acc?
  {
    a := if s.accGate.queue != [] then Acc(AccReceive) else Acc(AccTick);
  }

  /** As long as something is on its way, a flow that serves has a step that makes progress and is no interrupt. */
  lemma ServingAdvances(c: FlowConfig, s: Flow) returns (a: Step)
    requires c.Valid() && PipelineSafety.Inv(c, s) && s.ctrl == Serving && !Drained(c, s)
    ensures Advances(c, s, a) && !a.Ctrl?
  {
    hide StagesOk, EmptiedOk, CallsOk, AccDataOk, UpDataOk, WorksOk, Advances, G.NoReaders, G.QueueInv;
    ServingRuns(s);
    if !G.NoReaders(s.accGate) {
      a := ClientAdvances(c, s);
    } else if s.taken < |s.units| || s.up.hand.Some? || exists w :: 0 <= w < |s.workers| && s.workers[w].unit.Some? {
      a := UnitsAdvance(c, s);
    } else if s.upGate.queue != [] {
      a := UploaderAdvances(c, s);
    } else if s.acc.outbox != [] {
      a := TryAdvances(c, s);
    } else {
      TryingHasBlock(s);
      a := AccumulatorAdvances(c, s);
    }
  }

  lemma TryingHasBlock(s: Flow)
    requires EmptiedOk(s) && s.acc.outbox == []
    ensures s.acc.trying == None
  {
  }

  /** Steps by which a flow goes on serving: no new call, and no interrupt of the run group. */
  ghost predicate OnlyServing(run: seq<Step>) {
    forall i :: 0 <= i < |run| ==> !NewCall(run[i]) && !run[i].Ctrl?
  }

  lemma ServingGoesOn(c: FlowConfig, s: Flow, a: Step)
    requires Enabled(c, s, a) && !a.Ctrl?
    ensures Do(c, s, a).ctrl == s.ctrl
  {
    match a
    case Acc(acc) => AccLeavesRest(c, s, acc);
    case _ =>
  }

  lemma {:induction false} Drain(c: FlowConfig, s: Flow) returns (run: seq<Step>)
    requires c.Valid() && PipelineSafety.Inv(c, s) && s.ctrl == Serving
    ensures OnlyServing(run)
    ensures
      var s' := Exec(c, s, run);
      PipelineSafety.Inv(c, s') && s'.ctrl == Serving && Drained(c, s')
    decreases Rank(c, s)
  {
    hide Drained, PipelineSafety.Inv, Enabled, Do, Idle, Rank;
    if Drained(c, s) {
      run := [];
    } else {
      var a := ServingAdvances(c, s);
      StepDescends(c, s, a);
      StepKeepsInv(c, s, a);
      ServingGoesOn(c, s, a);
      RankIsNat(c, s);
      var rest := Drain(c, Do(c, s, a));
      run := [a] + rest;
      ExecConcat(c, s, [a], rest);
    }
  }

  /** What a drained flow has done: everything accepted that fills a block, or that a timer sent, was worked on once. */
  lemma DrainedHasWorked(c: FlowConfig, s: Flow)
    requires c.Valid() && PipelineSafety.Inv(c, s) && s.ctrl == Serving && Drained(c, s)
    ensures s.accGate.received == s.accGate.accepted
    ensures Held(s.acc.core) == NonEmpty(Accepted(s))
    ensures s.units == Blocks(c.packing, s.acc.core.groups)
    ensures AllWorkedOnce(s)
    ensures c.timed ==> IsSplit(c.packing, s.acc.core.groups, NonEmpty(Accepted(s)))
    ensures !c.timed ==> s.acc.core == AppendAll(c.packing, EMPTY_STATE, Accepted(s))
  {
    hide G.LockInv, G.Recorded, StagesOk, EmptiedOk, WorkersOk, CallsOk, WorksOk, AllWorkedOnce, Blocks, NonEmpty, AppendAll;
    WorksCount(s);
    assert s.acc.phase == Running by {
      ServingRuns(s);
    }
    assert s.accGate.received + [] == s.accGate.received;
    assert s.upGate.received + [] == s.upGate.received;
    assert Undelivered(s) == [] && InHand(s) == [];
    assert s.units + [] == s.units;
    assert Flatten(s.acc.core.groups) + [] == Flatten(s.acc.core.groups);
  }

  /**
   A flow delivers while it serves. From every reachable state before the interrupt, finitely many steps, none of them
   a new call or of the run group, hand on everything there is: no call is under way, all queues and hands are empty,
   and the work units, each worked on once, hold in order every accepted payload but those still pending; with a
   timer nothing is pending, and without one exactly what packing by size keeps.
   */
  lemma ServingDelivers(c: FlowConfig, run: seq<Step>) returns (more: seq<Step>)
    requires c.Valid() && Exec(c, Init(c), run).ctrl == Serving
    ensures OnlyServing(more)
    ensures
      var s := Exec(c, Init(c), run + more);
      && s.ctrl == Serving && Drained(c, s)
      && s.units == Blocks(c.packing, s.acc.core.groups) && AllWorkedOnce(s)
      && Held(s.acc.core) == NonEmpty(Accepted(s))
      && (c.timed ==> IsSplit(c.packing, s.acc.core.groups, NonEmpty(Accepted(s))))
      && (!c.timed ==> s.acc.core == AppendAll(c.packing, EMPTY_STATE, Accepted(s)))
  {
    hide Exec, PipelineSafety.Inv, Drained, AllWorkedOnce;
    RunKeepsInv(c, run);
    more := Drain(c, Exec(c, Init(c), run));
    ExecConcat(c, Init(c), run, more);
    DrainedHasWorked(c, Exec(c, Init(c), run + more));
  }

  // ---- Each goroutine goes on whatever the others are at ----

  /** One attempted step. */
  ghost function Attempt(c: FlowConfig, s: Flow, a: Step): Flow {
    if Enabled(c, s, a) then Do(c, s, a) else s
  }

  lemma AttemptLast(c: FlowConfig, s: Flow, run: seq<Step>, a: Step)
    ensures Exec(c, s, run + [a]) == Attempt(c, Exec(c, s, run), a)
  {
    hide Enabled, Do;
    assert (run + [a])[..|run|] == run;
  }

  /**
   In its run loop and while draining the accumulator takes what is first in its queue, and in its run loop its timer
   sends what is pending, whatever the callers, the uploader and the workers are at.
   */
  lemma AccumulatorGoesOn(c: FlowConfig, run: seq<Step>)
    requires c.Valid()
    requires var s := Exec(c, Init(c), run); s.acc.phase in {Running, Draining} && s.acc.outbox == []
    ensures
      var s := Exec(c, Init(c), run);
      && (s.accGate.queue != [] ==>
            var s' := Exec(c, Init(c), run + [Acc(AccReceive)]);
            s'.acc.core == Append(c.packing, s.acc.core, CallData(s.accGate, s.accGate.queue[0]))
            && s'.accGate.queue == s.accGate.queue[1..])
      && (c.timed && s.acc.phase == Running ==> Exec(c, Init(c), run + [Acc(AccTick)]).acc.core == Flush(s.acc.core))
  {
    RunKeepsInv(c, run);
    AttemptLast(c, Init(c), run, Acc(AccReceive));
    AttemptLast(c, Init(c), run, Acc(AccTick));
    hide Exec, G.Recorded, Append, Blocks, WorkersOk, CallsOk, AccDataOk, UpDataOk, WorksOk;
    TryingHasBlock(Exec(c, Init(c), run));
  }

  /** In its run loop and while draining the uploader receives, and hands on as long as the workers' channel has room. */
  lemma UploaderGoesOn(c: FlowConfig, run: seq<Step>)
    requires c.Valid()
    requires Exec(c, Init(c), run).up.phase in {Running, Draining}
    ensures
      var s := Exec(c, Init(c), run);
      && (s.up.hand == None && s.upGate.queue != [] ==>
            Exec(c, Init(c), run + [Up(UpReceive)]).up.hand == Some(CallData(s.upGate, s.upGate.queue[0])))
      && (s.up.hand.Some? && |s.units| - s.taken < c.workers ==>
            var s' := Exec(c, Init(c), run + [Up(UpForward)]);
            s'.units == s.units + [s.up.hand.value] && s'.up.hand == None)
  {
    RunKeepsInv(c, run);
    AttemptLast(c, Init(c), run, Up(UpReceive));
    AttemptLast(c, Init(c), run, Up(UpForward));
    hide Exec, G.Recorded, EmptiedOk, WorkersOk, CallsOk, AccDataOk, UpDataOk, WorksOk;
  }

  /**
   Every worker with nothing in hand takes the next unit from the shared channel when it tries, and every worker with
   a unit comes to the end of it, whatever the other workers are at.
   */
  lemma WorkerGoesOn(c: FlowConfig, run: seq<Step>, w: nat)
    requires c.Valid() && w < c.workers
    ensures
      var s := Exec(c, Init(c), run);
      && |s.workers| == c.workers
      && (s.workers[w].unit == None && s.taken < |s.units| ==>
            Exec(c, Init(c), run + [Work(w, WorkerReceive)])
            == s.(taken := s.taken + 1, workers := s.workers[w := s.workers[w].(unit := Some(s.taken))]))
      && (s.workers[w].unit.Some? ==>
            Exec(c, Init(c), run + [Work(w, WorkerWork)])
            == s.(works := s.works + [(s.workers[w].unit.value, w)],
                  workers := s.workers[w := s.workers[w].(unit := None)]))
  {
    RunKeepsInv(c, run);
    AttemptLast(c, Init(c), run, Work(w, WorkerReceive));
    AttemptLast(c, Init(c), run, Work(w, WorkerWork));
    hide Exec, GatesOk, StagesOk, EmptiedOk, CallsOk, AccDataOk, UpDataOk, WorksOk;
  }

  /** An interrupt is heeded as soon as it is a goroutine's turn, with its queue as it is and whatever the others are at. */
  lemma InterruptIsHeeded(c: FlowConfig, run: seq<Step>, w: nat)
    requires c.Valid() && w < c.workers
    ensures
      var s := Exec(c, Init(c), run);
      && |s.workers| == c.workers
      && (s.ctrl == Serving ==> Exec(c, Init(c), run + [Ctrl(Interrupt)]) == s.(ctrl := StoppingAcc))
      && (s.ctrl != Serving && s.acc.phase == Running && s.acc.outbox == [] ==>
            Exec(c, Init(c), run + [Acc(AccStop)]).acc.phase == Stopping)
      && (s.ctrl !in {Serving, StoppingAcc} && s.up.phase == Running && s.up.hand == None ==>
            Exec(c, Init(c), run + [Up(UpStop)]).up.phase == Stopping)
      && (WorkersStopping(s.ctrl) && s.workers[w].phase == Running && s.workers[w].unit == None ==>
            Exec(c, Init(c), run + [Work(w, WorkerStop)]).workers[w].phase == Draining)
  {
    RunKeepsInv(c, run);
    StopsWhenAsked(c, Exec(c, Init(c), run), w);
    AttemptLast(c, Init(c), run, Ctrl(Interrupt));
    AttemptLast(c, Init(c), run, Acc(AccStop));
    AttemptLast(c, Init(c), run, Up(UpStop));
    AttemptLast(c, Init(c), run, Work(w, WorkerStop));
    hide Exec, PipelineSafety.Inv, Attempt;
  }

  lemma StopsWhenAsked(c: FlowConfig, s: Flow, w: nat)
    requires PipelineSafety.Inv(c, s) && w < c.workers
    ensures |s.workers| == c.workers
    ensures s.ctrl == Serving ==> Attempt(c, s, Ctrl(Interrupt)) == s.(ctrl := StoppingAcc)
    ensures s.ctrl != Serving && s.acc.phase == Running && s.acc.outbox == [] ==>
      Attempt(c, s, Acc(AccStop)).acc.phase == Stopping
    ensures s.ctrl !in {Serving, StoppingAcc} && s.up.phase == Running && s.up.hand == None ==>
      Attempt(c, s, Up(UpStop)).up.phase == Stopping
    ensures WorkersStopping(s.ctrl) && s.workers[w].phase == Running && s.workers[w].unit == None ==>
      Attempt(c, s, Work(w, WorkerStop)).workers[w].phase == Draining
  {
    hide G.QueueInv, CallsOk, AccDataOk, UpDataOk, WorksOk;
  }

  // ---- One try of the accumulator ----

  /** The uploader's queue and the accumulator after a try of the first block. */
  ghost function Tried(s: Flow, g: G.Gate<Bytes>, ok: bool): Flow
    requires s.acc.outbox != []
  {
    s.(upGate := g, acc := s.acc.(trying := None, outbox := if ok then s.acc.outbox[1..] else s.acc.outbox))
  }

  /** A try gets to the point of sending: the uploader is never found shutting down. */
  lemma TryReachesSend(c: FlowConfig, s: Flow) returns (checked: Flow)
    requires PipelineSafety.Inv(c, s) && s.acc.outbox != [] && s.acc.trying == None
    ensures checked == Attempt(c, Attempt(c, s, Try(TryBegin)), Try(TryCheck))
    ensures
      var g, n := S.Joined(s.upGate, s.acc.outbox[0]), |s.upGate.calls|;
      checked == s.(upGate := G.Move(g, n, G.Checked), acc := s.acc.(trying := Some(n)))
    ensures s.up.phase == Running && !s.upGate.closed && !s.upGate.panicked
  {
    UploaderIsOpen(s);
    checked := Attempt(c, Attempt(c, s, Try(TryBegin)), Try(TryCheck));
    hide G.QueueInv, StagesOk, EmptiedOk, WorkersOk, CallsOk, AccDataOk, UpDataOk, WorksOk;
    var g, n := S.Joined(s.upGate, s.acc.outbox[0]), |s.upGate.calls|;
    assert Attempt(c, s, Try(TryBegin)) == s.(upGate := g, acc := s.acc.(trying := Some(n)));
  }

  lemma HandsOver(c: FlowConfig, s: Flow)
    requires s.acc.outbox != [] && s.acc.trying.Some? && s.up.phase == Running && s.up.hand == None
    requires G.At(s.upGate, s.acc.trying.value, G.Checked) && s.upGate.queue == [] && !s.upGate.closed && !s.upGate.panicked
    requires CallData(s.upGate, s.acc.trying.value) == s.acc.outbox[0]
    ensures
      var s' := Attempt(c, Attempt(c, s, Try(TryHandOff)), Try(TryLeave));
      && s' == Tried(s, s'.upGate, true).(up := s.up.(hand := Some(s.acc.outbox[0])))
      && s'.upGate.queue == [] && s'.upGate.capacity == s.upGate.capacity
      && s'.upGate.accepted == s.upGate.accepted + [s.acc.trying.value]
  {
    var handed := Attempt(c, s, Try(TryHandOff));
    assert handed == s.(upGate := handed.upGate, up := s.up.(hand := Some(s.acc.outbox[0])));
    assert G.At(handed.upGate, s.acc.trying.value, G.Leaving(true)) && !handed.upGate.panicked;
  }

  /**
   A try comes to its end by itself, whatever the uploader and the workers are at: the block is accepted exactly if the
   uploader's queue has room, and is otherwise still the first to hand over.
   */
  lemma TryEnds(c: FlowConfig, s: Flow)
    requires PipelineSafety.Inv(c, s) && s.acc.outbox != [] && s.acc.trying == None
    ensures
      var g, n, ok := s.upGate, |s.upGate.calls|, |s.upGate.queue| < s.upGate.capacity;
      Exec(c, s, [Try(TryBegin), Try(TryCheck), Try(TrySend), Try(TryLeave)])
      == Tried(s, S.Answered(S.Joined(g, s.acc.outbox[0]), n, ok), ok)
  {
    AttemptFour(c, s, Try(TryBegin), Try(TryCheck), Try(TrySend), Try(TryLeave));
    var checked := TryReachesSend(c, s);
    SendsAndLeaves(c, checked, s.acc.outbox[0], s.upGate);
    hide Exec, PipelineSafety.Inv, Attempt;
  }

  lemma SendsAndLeaves(c: FlowConfig, s: Flow, data: Bytes, g: G.Gate<Bytes>)
    requires s.acc.outbox != [] && s.acc.trying == Some(|g.calls|) && s.up.phase == Running && !g.closed && !g.panicked
    requires s.upGate == G.Move(S.Joined(g, data), |g.calls|, G.Checked)
    ensures
      var n, ok := |g.calls|, |g.queue| < g.capacity;
      Attempt(c, Attempt(c, s, Try(TrySend)), Try(TryLeave)) == Tried(s, S.Answered(S.Joined(g, data), n, ok), ok)
  {
    var n, ok := |g.calls|, |g.queue| < g.capacity;
    var sent := Attempt(c, s, Try(TrySend));
    var joined := S.Joined(g, data);
    assert sent.upGate.calls == joined.calls[n := G.Call(data, G.Leaving(ok))];
    assert sent == s.(upGate := sent.upGate);
    var left := Attempt(c, sent, Try(TryLeave));
    assert left.upGate.calls == S.Answered(joined, n, ok).calls;
  }

  /** With the uploader waiting in a receive, the block can go straight into its hand. */
  lemma HandOffEnds(c: FlowConfig, s: Flow)
    requires PipelineSafety.Inv(c, s) && s.acc.outbox != [] && s.acc.trying == None
    requires s.upGate.queue == [] && s.up.hand == None
    ensures
      var s' := Exec(c, s, [Try(TryBegin), Try(TryCheck), Try(TryHandOff), Try(TryLeave)]);
      && s' == Tried(s, s'.upGate, true).(up := s.up.(hand := Some(s.acc.outbox[0])))
      && s'.upGate.queue == [] && s'.upGate.capacity == s.upGate.capacity
      && s'.upGate.accepted == s.upGate.accepted + [|s.upGate.calls|]
      && s'.up.phase == Running
  {
    AttemptFour(c, s, Try(TryBegin), Try(TryCheck), Try(TryHandOff), Try(TryLeave));
    var checked := TryReachesSend(c, s);
    HandsOver(c, checked);
    hide Exec, PipelineSafety.Inv, Attempt;
  }

  lemma AttemptFour(c: FlowConfig, s: Flow, a1: Step, a2: Step, a3: Step, a4: Step)
    ensures Exec(c, s, [a1, a2, a3, a4]) == Attempt(c, Attempt(c, Attempt(c, Attempt(c, s, a1), a2), a3), a4)
  {
    hide Enabled, Do;
    assert [a1][..0] == [];
    AttemptLast(c, s, [a1], a2);
    assert [a1] + [a2] == [a1, a2];
    AttemptLast(c, s, [a1, a2], a3);
    assert [a1, a2] + [a3] == [a1, a2, a3];
    AttemptLast(c, s, [a1, a2, a3], a4);
    assert [a1, a2, a3] + [a4] == [a1, a2, a3, a4];
  }
}
