/**
 One flow of the application as a system of steps: HTTP handlers calling `Enqueue`, the accumulator's goroutine, the
 uploader's goroutine, the upload workers on one shared channel, and the run group that interrupts them in the order
 they were registered (pkg/app/app.go). Any interleaving of the goroutines is a run.
 */
module Pipeline {
  import opened Options
  import opened Packing
  import G = ShutdownGate

  datatype FlowConfig = FlowConfig(
    packing: Packing.Config,
    accCapacity: nat,
    upCapacity: nat,  // 0 is a channel without buffer
    workers: nat,     // also the capacity of the workers' channel
    timed: bool)      // the accumulator also flushes on a timer
  {
    ghost predicate Valid() {
      packing.Valid() && accCapacity >= 2 && workers >= 1
    }
  }

  datatype Phase = Running | Stopping | Draining | Finishing | Done

  /** The accumulator's goroutine: blocks it has still to hand over, and the call of the uploader it is in. */
  datatype Accumulator = Accumulator(phase: Phase, core: Packing.State, outbox: seq<Bytes>, trying: Option<nat>)

  /** The uploader's goroutine, with the payload it has in hand. */
  datatype Uploader = Uploader(phase: Phase, hand: Option<Bytes>)

  /** A worker, with the number of the work unit it has in hand. */
  datatype Worker = Worker(phase: Phase, unit: Option<nat>)

  /** The interrupts of the run group: each cancels a context and waits for the actor to be done. */
  datatype Controller = Serving | StoppingAcc | StoppingUp | StoppingWorkers(next: nat) | Finished

  datatype Flow = Flow(
    accGate: G.Gate<Bytes>,
    acc: Accumulator,
    upGate: G.Gate<Bytes>,
    up: Uploader,
    units: seq<Bytes>,         // every work unit sent to the workers' channel, in order
    taken: nat,                // how many of them workers have received
    unitsClosed: bool,
    workers: seq<Worker>,
    works: seq<(nat, nat)>,    // units passed to `work`, with the worker
    ctrl: Controller)

  datatype AccStep = AccReceive | AccTick | AccStop | AccAcquire | AccFlag | AccUnlock | AccClose | AccFinish | AccExit
  datatype TryStep = TryRefused | TryBegin | TryCheck | TrySend | TryHandOff | TryLeave
  datatype UpStep = UpReceive | UpForward | UpStop | UpAcquire | UpFlag | UpUnlock | UpClose | UpExit
  datatype WorkerStep = WorkerReceive | WorkerWork | WorkerStop | WorkerExit
  datatype CtrlStep = Interrupt | AccJoined | UpJoined | WorkerJoined

  datatype Step =
    | Client(call: G.Step<Bytes>)
    | Acc(acc: AccStep)
    | Try(try: TryStep)
    | Up(up: UpStep)
    | Work(w: nat, work: WorkerStep)
    | Ctrl(ctrl: CtrlStep)

  ghost function Init(c: FlowConfig): Flow {
    Flow(
      G.Init(c.accCapacity), Accumulator(Running, EMPTY_STATE, [], None),
      G.Init(c.upCapacity), Uploader(Running, None),
      [], 0, false, seq(c.workers, _ => Worker(Running, None)), [], Serving)
  }

  // ---- Callers of Enqueue ----

  ghost predicate ClientEnabled(s: Flow, a: G.Step<Bytes>) {
    (a.Begin? || a.Check? || a.Send? || a.Leave?) && G.Enabled(s.accGate, a)
  }

  ghost function ClientDo(s: Flow, a: G.Step<Bytes>): Flow
    requires ClientEnabled(s, a)
  {
    s.(accGate := G.Do(s.accGate, a))
  }

  // ---- The accumulator ----

  ghost function AccGateStep(a: AccStep): G.Step<Bytes>
    requires a != AccTick && a != AccFinish && a != AccExit
  {
    match a
    case AccReceive => G.Receive
    case AccStop => G.Lock
    case AccAcquire => G.Acquire
    case AccFlag => G.Flag
    case AccUnlock => G.Unlock
    case AccClose => G.Close
  }

  ghost predicate AccEnabled(c: FlowConfig, s: Flow, a: AccStep) {
    s.acc.outbox == [] && s.acc.trying == None
    && match a
       case AccReceive => s.acc.phase in {Running, Draining} && G.Enabled(s.accGate, G.Receive)
       case AccTick => c.timed && s.acc.phase == Running
       case AccStop => s.acc.phase == Running && s.ctrl != Serving && G.Enabled(s.accGate, G.Lock)
       case AccFinish => s.acc.phase == Draining && s.accGate.queue == [] && s.accGate.closed
       case AccExit => s.acc.phase == Finishing
       case _ => s.acc.phase == Stopping && G.Enabled(s.accGate, AccGateStep(a))
  }

  ghost function CallData(g: G.Gate<Bytes>, id: nat): Bytes {
    if id < |g.calls| then g.calls[id].data else []
  }

  /** The accumulator moves on to `core`, with the blocks of the new groups to hand over. */
  ghost function Produce(c: FlowConfig, acc: Accumulator, core: Packing.State): Accumulator
    requires |acc.core.groups| <= |core.groups|
  {
    acc.(core := core, outbox := acc.outbox + Blocks(c.packing, core.groups[|acc.core.groups|..]))
  }

  ghost function AccDo(c: FlowConfig, s: Flow, a: AccStep): Flow
    requires AccEnabled(c, s, a)
  {
    match a
    case AccReceive =>
      var p := CallData(s.accGate, s.accGate.queue[0]);
      s.(accGate := G.Do(s.accGate, G.Receive),
         acc := Produce(c, s.acc, Append(c.packing, s.acc.core, p)))
    case AccTick => s.(acc := Produce(c, s.acc, Flush(s.acc.core)))
    case AccStop => s.(accGate := G.Do(s.accGate, G.Lock), acc := s.acc.(phase := Stopping))
    case AccClose => s.(accGate := G.Do(s.accGate, G.Close), acc := s.acc.(phase := Draining))
    case AccFinish => s.(acc := Produce(c, s.acc, Flush(s.acc.core)).(phase := Finishing))
    case AccExit => s.(acc := s.acc.(phase := Done))
    case _ => s.(accGate := G.Do(s.accGate, AccGateStep(a)))
  }

  // ---- The accumulator handing a block over: tries through the breaker until the uploader accepts ----

  ghost function TryGateStep(s: Flow, a: TryStep): G.Step<Bytes>
    requires a != TryRefused && s.acc.outbox != [] && (a != TryBegin ==> s.acc.trying.Some?)
  {
    match a
    case TryBegin => G.Begin(s.acc.outbox[0])
    case TryCheck => G.Check(s.acc.trying.value)
    case TrySend => G.Send(s.acc.trying.value)
    case TryHandOff => G.HandOff(s.acc.trying.value)
    case TryLeave => G.Leave(s.acc.trying.value)
  }

  ghost predicate TryEnabled(s: Flow, a: TryStep) {
    s.acc.outbox != []
    && (if a == TryRefused || a == TryBegin then s.acc.trying == None else s.acc.trying.Some?)
    && (a != TryRefused ==> G.Enabled(s.upGate, TryGateStep(s, a)))
    && (a == TryHandOff ==> s.up.phase == Running && s.up.hand == None)
  }

  ghost function TryDo(s: Flow, a: TryStep): Flow
    requires TryEnabled(s, a)
  {
    if a == TryRefused then s
    else
      var s' := s.(upGate := G.Do(s.upGate, TryGateStep(s, a)));
      match a
      case TryBegin => s'.(acc := s.acc.(trying := Some(|s.upGate.calls|)))
      case TryHandOff => s'.(up := s.up.(hand := Some(CallData(s.upGate, s.acc.trying.value))))
      case TryLeave =>
        var ok := s.upGate.calls[s.acc.trying.value].phase.ok;
        s'.(acc := s.acc.(trying := None, outbox := if ok then s.acc.outbox[1..] else s.acc.outbox))
      case _ => s'
  }

  // ---- The uploader ----

  ghost function UpGateStep(a: UpStep): G.Step<Bytes>
    requires a != UpForward && a != UpExit
  {
    match a
    case UpReceive => G.Receive
    case UpStop => G.Lock
    case UpAcquire => G.Acquire
    case UpFlag => G.Flag
    case UpUnlock => G.Unlock
    case UpClose => G.Close
  }

  ghost predicate UpEnabled(c: FlowConfig, s: Flow, a: UpStep) {
    match a
    case UpReceive => s.up.phase in {Running, Draining} && s.up.hand == None && G.Enabled(s.upGate, G.Receive)
    case UpForward => s.up.phase in {Running, Draining} && s.up.hand.Some? && |s.units| < s.taken + c.workers
    case UpStop =>
      s.up.phase == Running && s.up.hand == None && s.ctrl !in {Serving, StoppingAcc} && G.Enabled(s.upGate, G.Lock)
    case UpExit => s.up.phase == Draining && s.up.hand == None && s.upGate.queue == [] && s.upGate.closed
    case _ => s.up.phase == Stopping && G.Enabled(s.upGate, UpGateStep(a))
  }

  ghost function UpDo(c: FlowConfig, s: Flow, a: UpStep): Flow
    requires UpEnabled(c, s, a)
  {
    match a
    case UpReceive =>
      s.(upGate := G.Do(s.upGate, G.Receive),
         up := s.up.(hand := Some(CallData(s.upGate, s.upGate.queue[0]))))
    case UpForward => s.(units := s.units + [s.up.hand.value], up := s.up.(hand := None))
    case UpStop => s.(upGate := G.Do(s.upGate, G.Lock), up := s.up.(phase := Stopping))
    case UpClose => s.(upGate := G.Do(s.upGate, G.Close), up := s.up.(phase := Draining))
    case UpExit => s.(unitsClosed := true, up := s.up.(phase := Done))
    case _ => s.(upGate := G.Do(s.upGate, UpGateStep(a)))
  }

  // ---- The workers ----

  ghost predicate WorkersStopping(ctrl: Controller) {
    ctrl.StoppingWorkers? || ctrl.Finished?
  }

  ghost predicate WorkerEnabled(s: Flow, w: nat, a: WorkerStep) {
    w < |s.workers|
    && var me := s.workers[w];
       match a
       case WorkerReceive => me.phase in {Running, Draining} && me.unit == None && s.taken < |s.units|
       case WorkerWork => me.unit.Some?
       case WorkerStop => me.phase == Running && me.unit == None && WorkersStopping(s.ctrl)
       case WorkerExit => me.phase == Draining && me.unit == None && s.taken == |s.units| && s.unitsClosed
  }

  ghost function WorkerDo(s: Flow, w: nat, a: WorkerStep): Flow
    requires WorkerEnabled(s, w, a)
  {
    var me := s.workers[w];
    match a
    case WorkerReceive => s.(taken := s.taken + 1, workers := s.workers[w := me.(unit := Some(s.taken))])
    case WorkerWork => s.(works := s.works + [(me.unit.value, w)], workers := s.workers[w := me.(unit := None)])
    case WorkerStop => s.(workers := s.workers[w := me.(phase := Draining)])
    case WorkerExit => s.(workers := s.workers[w := me.(phase := Done)])
  }

  // ---- The run group ----

  ghost predicate CtrlEnabled(s: Flow, a: CtrlStep) {
    match a
    case Interrupt => s.ctrl == Serving
    case AccJoined => s.ctrl == StoppingAcc && s.acc.phase == Done
    case UpJoined => s.ctrl == StoppingUp && s.up.phase == Done
    case WorkerJoined =>
      s.ctrl.StoppingWorkers? && s.ctrl.next < |s.workers| && s.workers[s.ctrl.next].phase == Done
  }

  ghost function CtrlDo(s: Flow, a: CtrlStep): Flow
    requires CtrlEnabled(s, a)
  {
    match a
    case Interrupt => s.(ctrl := StoppingAcc)
    case AccJoined => s.(ctrl := StoppingUp)
    case UpJoined => s.(ctrl := StoppingWorkers(0))
    case WorkerJoined =>
      s.(ctrl := if s.ctrl.next + 1 < |s.workers| then StoppingWorkers(s.ctrl.next + 1) else Finished)
  }

  // ---- Runs ----

  /** A worker comes to the end of a unit. */
  ghost predicate Ends(a: Step) {
    a.Work? && a.work == WorkerWork
  }

  ghost predicate Enabled(c: FlowConfig, s: Flow, a: Step) {
    match a
    case Client(call) => ClientEnabled(s, call)
    case Acc(acc) => AccEnabled(c, s, acc)
    case Try(try) => TryEnabled(s, try)
    case Up(up) => UpEnabled(c, s, up)
    case Work(w, work) => WorkerEnabled(s, w, work)
    case Ctrl(ctrl) => CtrlEnabled(s, ctrl)
  }

  ghost function Do(c: FlowConfig, s: Flow, a: Step): Flow
    requires Enabled(c, s, a)
  {
    match a
    case Client(call) => ClientDo(s, call)
    case Acc(acc) => AccDo(c, s, acc)
    case Try(try) => TryDo(s, try)
    case Up(up) => UpDo(c, s, up)
    case Work(w, work) => WorkerDo(s, w, work)
    case Ctrl(ctrl) => CtrlDo(s, ctrl)
  }

  /** The state after some attempted steps, in order; an attempt that is not enabled changes nothing. */
  ghost function Exec(c: FlowConfig, s: Flow, run: seq<Step>): Flow {
    if run == [] then s
    else
      var before, a := Exec(c, s, run[..|run| - 1]), run[|run| - 1];
      if Enabled(c, before, a) then Do(c, before, a) else before
  }
}
