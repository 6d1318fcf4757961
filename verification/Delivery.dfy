/**
 A flow together with what its workers do outside: `work` compresses a unit and sends it to all storages and queues
 (pkg/worker/worker.go). Every goroutine of every worker's fan-out is interleaved with all the steps of the flow, and
 the world may fail any compression, any upload and any message.
 */
module Delivery {
  import opened Options
  import opened Packing
  import opened Pipeline
  import opened PipelineSafety
  import F = FanOut

  datatype UploadResult = UploadResult(bucket: string, region: string, path: string, url: string, sizeInBytes: int)

  /** How the world answers, work unit by work unit: whether it compresses, and what each storage and queue says. */
  datatype Outside = Outside(
    storages: nat,
    compress: (nat, Bytes) -> Option<Bytes>,
    answers: nat -> F.World<UploadResult>)
  {
    ghost predicate Valid() {
      forall u: nat :: answers(u).Valid() && |answers(u).uploads| == storages
    }
  }

  /** What a worker is at: nothing, a unit whose compression failed, or the fan-out of the compressed unit. */
  datatype Task = NoTask | Uncompressed | Sending(data: Bytes, fan: F.State<UploadResult>)

  /** One thing that arrived at the storage, or at the queue, of a pair, for a work unit. */
  datatype Entry<T> = Entry(unit: nat, pair: nat, content: T)

  datatype System = System(
    flow: Flow,
    tasks: seq<Task>,                 // by worker
    stored: seq<Entry<Bytes>>,        // successful uploads, in order
    told: seq<Entry<UploadResult>>)   // messages, in order

  datatype Step =
    | Plain(step: Pipeline.Step)      // a step of the flow; the end of `work` is one of these
    | Start(w: nat)                   // a worker enters `work`, and compresses
    | Send(w: nat, send: F.Step)      // a step of its fan-out

  ghost function Init(c: FlowConfig): System {
    System(Pipeline.Init(c), seq(c.workers, _ => NoTask), [], [])
  }

  /** `work` can return. */
  ghost predicate Ready(t: Task) {
    t.Uncompressed? || (t.Sending? && t.fan.main.Returned?)
  }

  ghost predicate HasUnit(flow: Flow, w: nat) {
    w < |flow.workers| && flow.workers[w].unit.Some? && flow.workers[w].unit.value < |flow.units|
  }

  ghost function UnitOf(flow: Flow, w: nat): nat
    requires HasUnit(flow, w)
  {
    flow.workers[w].unit.value
  }

  ghost predicate Enabled(c: FlowConfig, o: Outside, s: System, a: Step) {
    match a
    case Plain(step) =>
      Pipeline.Enabled(c, s.flow, step) && (Ends(step) ==> step.w < |s.tasks| && Ready(s.tasks[step.w]))
    case Start(w) => w < |s.tasks| && HasUnit(s.flow, w) && s.tasks[w] == NoTask
    case Send(w, send) =>
      w < |s.tasks| && HasUnit(s.flow, w) && s.tasks[w].Sending?
      && F.Enabled(o.answers(UnitOf(s.flow, w)), s.tasks[w].fan, send)
  }

  ghost function StartTask(o: Outside, u: nat, data: Bytes): Task {
    match o.compress(u, data)
    case None => Uncompressed
    case Some(compressed) => Sending(compressed, F.Init(o.answers(u)))
  }

  ghost function Do(c: FlowConfig, o: Outside, s: System, a: Step): System
    requires Enabled(c, o, s, a)
  {
    match a
    case Plain(step) =>
      s.(flow := Pipeline.Do(c, s.flow, step), tasks := if Ends(step) then s.tasks[step.w := NoTask] else s.tasks)
    case Start(w) =>
      var u := UnitOf(s.flow, w);
      s.(tasks := s.tasks[w := StartTask(o, u, s.flow.units[u])])
    case Send(w, send) =>
      var u, task := UnitOf(s.flow, w), s.tasks[w];
      s.(tasks := s.tasks[w := task.(fan := F.Do(o.answers(u), task.fan, send))],
         stored := s.stored + NewlyStored(o, u, task, send),
         told := s.told + NewlyTold(o, u, task, send))
  }

  /** An upload that the storage accepts leaves the compressed unit there. */
  ghost function NewlyStored(o: Outside, u: nat, task: Task, send: F.Step): seq<Entry<Bytes>>
    requires task.Sending? && F.Enabled(o.answers(u), task.fan, send)
  {
    if send.Upload? && o.answers(u).uploads[send.i].Some? then [Entry(u, send.i, task.data)] else []
  }

  ghost function NewlyTold(o: Outside, u: nat, task: Task, send: F.Step): seq<Entry<UploadResult>>
    requires task.Sending? && F.Enabled(o.answers(u), task.fan, send)
  {
    if send.Notify? then [Entry(u, send.i, task.fan.pairs[send.i].result)] else []
  }

  /** The state after some attempted steps, in order; an attempt that is not enabled changes nothing. */
  ghost function Exec(c: FlowConfig, o: Outside, s: System, run: seq<Step>): System {
    if run == [] then s
    else
      var before, a := Exec(c, o, s, run[..|run| - 1]), run[|run| - 1];
      if Enabled(c, o, before, a) then Do(c, o, before, a) else before
  }

  /** Seen from the flow, such a run is a run of the flow. */
  lemma {:induction false} FlowRun(c: FlowConfig, o: Outside, run: seq<Step>) returns (plain: seq<Pipeline.Step>)
    ensures Pipeline.Exec(c, Pipeline.Init(c), plain) == Exec(c, o, Init(c), run).flow
  {
    hide Pipeline.Enabled, Pipeline.Do, Ready;
    plain := [];
    if run != [] {
      var front, a := run[..|run| - 1], run[|run| - 1];
      plain := FlowRun(c, o, front);
      if a.Plain? && Enabled(c, o, Exec(c, o, Init(c), front), a) {
        assert (plain + [a.step])[..|plain|] == plain;
        plain := plain + [a.step];
      }
    }
  }

  ghost function Plains(run: seq<Pipeline.Step>): seq<Step> {
    seq(|run|, i requires 0 <= i < |run| => Plain(run[i]))
  }

  /** The other way round: as long as no worker comes to the end of a unit, the flow can run by itself. */
  lemma {:induction false} PlainRun(c: FlowConfig, o: Outside, s: System, run: seq<Pipeline.Step>)
    requires forall i :: 0 <= i < |run| ==> !Ends(run[i])
    ensures Exec(c, o, s, Plains(run)) == s.(flow := Pipeline.Exec(c, s.flow, run))
  {
    hide Pipeline.Enabled, Pipeline.Do;
    if run != [] {
      var front, a := run[..|run| - 1], run[|run| - 1];
      PlainRun(c, o, s, front);
      assert Plains(run)[..|front|] == Plains(front);
    }
  }

  // ---- What has arrived ----

  /** How often something arrived at pair `j` for unit `u`. */
  ghost function Count<T>(log: seq<Entry<T>>, u: nat, j: nat): nat {
    if log == [] then 0
    else Count(log[..|log| - 1], u, j) + if log[|log| - 1].unit == u && log[|log| - 1].pair == j then 1 else 0
  }

  lemma CountMore<T>(log: seq<Entry<T>>, more: seq<Entry<T>>, u: nat, j: nat)
    requires |more| <= 1
    ensures Count(log + more, u, j) == Count(log, u, j)
      + if more != [] && more[0].unit == u && more[0].pair == j then 1 else 0
  {
    if more == [] {
      assert log + more == log;
    } else {
      assert (log + more)[..|log|] == log;
    }
  }

  /** Unit `u` gets to storage `j`: it compresses, and the storage accepts it. */
  ghost predicate Delivers(o: Outside, units: seq<Bytes>, u: nat, j: nat)
    requires u < |units| && j < |o.answers(u).uploads|
  {
    o.compress(u, units[u]).Some? && o.answers(u).uploads[j].Some?
  }

  ghost predicate TaskOk(o: Outside, flow: Flow, w: nat, t: Task) {
    t != NoTask ==>
      HasUnit(flow, w)
      && var u := UnitOf(flow, w);
         if t.Sending? then o.compress(u, flow.units[u]) == Some(t.data) && F.Inv(o.answers(u), t.fan)
         else o.compress(u, flow.units[u]) == None
  }

  ghost predicate TasksOk(o: Outside, s: System) {
    |s.tasks| == |s.flow.workers| && forall w :: 0 <= w < |s.tasks| ==> TaskOk(o, s.flow, w, s.tasks[w])
  }

  /** What has arrived at pair `j` from a task on unit `u` so far. */
  ghost predicate TaskCounts(o: Outside, s: System, t: Task, u: nat, j: nat) {
    if t.Sending? then
      && j < |t.fan.uploads| && j < |t.fan.messages| && j < |o.answers(u).uploads|
      && Count(s.stored, u, j) == (if o.answers(u).uploads[j].Some? then t.fan.uploads[j] else 0)
      && Count(s.told, u, j) == |t.fan.messages[j]|
    else
      Count(s.stored, u, j) == Count(s.told, u, j) == 0
  }

  /** What has arrived of a unit no worker is at: nothing before its turn, and afterwards what was to be delivered. */
  ghost predicate SettledCounts(o: Outside, s: System, u: nat, j: nat)
    requires j < |o.answers(u).uploads|
  {
    && (Worked(s.flow, u) ==>
          u < |s.flow.units|
          && Count(s.stored, u, j) == Count(s.told, u, j) == if Delivers(o, s.flow.units, u, j) then 1 else 0)
    && (u >= s.flow.taken ==> Count(s.stored, u, j) == Count(s.told, u, j) == 0)
  }

  ghost predicate CountsOk(o: Outside, s: System)
    requires o.Valid() && |s.tasks| == |s.flow.workers|
  {
    && (forall u: nat, j: nat :: j < o.storages ==> SettledCounts(o, s, u, j))
    && (forall w: nat, j: nat :: j < o.storages && w < |s.tasks| && HasUnit(s.flow, w) ==>
          TaskCounts(o, s, s.tasks[w], UnitOf(s.flow, w), j))
  }

  ghost predicate ContentOk(o: Outside, s: System)
    requires o.Valid()
  {
    && (forall e :: e in s.stored ==>
          e.unit < |s.flow.units| && e.pair < o.storages && o.compress(e.unit, s.flow.units[e.unit]) == Some(e.content))
    && (forall e :: e in s.told ==>
          e.unit < |s.flow.units| && e.pair < o.storages && o.answers(e.unit).uploads[e.pair] == Some(e.content))
  }

  ghost predicate Inv(c: FlowConfig, o: Outside, s: System) {
    PipelineSafety.Inv(c, s.flow) && o.Valid() && TasksOk(o, s) && CountsOk(o, s) && ContentOk(o, s)
  }

  // ---- Every step keeps it ----

  /** Steps of the flow in which no worker moves. */
  lemma OthersLeaveWorkers(c: FlowConfig, s: Flow, step: Pipeline.Step)
    requires Pipeline.Enabled(c, s, step) && !step.Work?
    ensures
      var s' := Pipeline.Do(c, s, step);
      s'.workers == s.workers && s'.works == s.works && s'.taken == s.taken && s.units <= s'.units
  {
    match step
    case Acc(acc) => AccLeavesRest(c, s, acc);
    case _ =>
  }

  lemma OthersKeep(c: FlowConfig, o: Outside, s: System, s': System)
    requires Inv(c, o, s)
    requires s' == s.(flow := s'.flow)
    requires s'.flow.workers == s.flow.workers && s'.flow.works == s.flow.works && s'.flow.taken == s.flow.taken
    requires s.flow.units <= s'.flow.units
    ensures TasksOk(o, s') && CountsOk(o, s') && ContentOk(o, s')
  {
    hide F.Inv, Count, GatesOk, StagesOk, EmptiedOk, CallsOk, AccDataOk, UpDataOk, WorksOk;
    forall u: nat, j: nat | j < o.storages ensures SettledCounts(o, s', u, j) {
      assert SettledCounts(o, s, u, j);
      assert Worked(s'.flow, u) == Worked(s.flow, u);
    }
    forall w: nat, j: nat | j < o.storages && w < |s'.tasks| && HasUnit(s'.flow, w)
      ensures TaskCounts(o, s', s'.tasks[w], UnitOf(s'.flow, w), j)
    {
      UnitsAreTaken(s.flow, w);
      assert TaskCounts(o, s, s.tasks[w], UnitOf(s.flow, w), j);
    }
  }

  lemma UnitsAreTaken(flow: Flow, w: nat)
    requires WorksOk(flow) && w < |flow.workers| && flow.workers[w].unit.Some? && flow.taken <= |flow.units|
    ensures HasUnit(flow, w) && UnitOf(flow, w) < flow.taken
  {
  }

  /** A worker takes a unit, sees the shutdown or leaves: nothing arrives anywhere. */
  lemma WorkerMovesKeep(c: FlowConfig, o: Outside, s: System, w: nat, a: WorkerStep)
    requires Inv(c, o, s) && WorkerEnabled(s.flow, w, a) && a != WorkerWork
    ensures
      var s' := s.(flow := WorkerDo(s.flow, w, a));
      TasksOk(o, s') && CountsOk(o, s') && ContentOk(o, s')
  {
    hide F.Inv, Count, GatesOk, StagesOk, EmptiedOk, CallsOk, AccDataOk, UpDataOk, WorksOk;
    var s' := s.(flow := WorkerDo(s.flow, w, a));
    assert TaskOk(o, s.flow, w, s.tasks[w]) && s.tasks[w] == NoTask;
    assert TasksOk(o, s') by {
      forall v | 0 <= v < |s.tasks| ensures TaskOk(o, s'.flow, v, s'.tasks[v]) {
        assert TaskOk(o, s.flow, v, s.tasks[v]);
      }
    }
    forall u: nat, j: nat | j < o.storages ensures SettledCounts(o, s', u, j) {
      assert SettledCounts(o, s, u, j);
      assert Worked(s'.flow, u) == Worked(s.flow, u);
    }
    forall v: nat, j: nat | j < o.storages && v < |s'.tasks| && HasUnit(s'.flow, v)
      ensures TaskCounts(o, s', s'.tasks[v], UnitOf(s'.flow, v), j)
    {
      if v == w {
        assert SettledCounts(o, s, s.flow.taken, j);
      } else {
        assert TaskCounts(o, s, s.tasks[v], UnitOf(s.flow, v), j);
      }
    }
  }

  /** A unit is with one worker, and was not worked on. */
  lemma UnitIsInOneHand(flow: Flow, w: nat, v: nat)
    requires WorksOk(flow) && HasUnit(flow, w)
    ensures !Worked(flow, UnitOf(flow, w)) && UnitOf(flow, w) < flow.taken
    ensures v != w && HasUnit(flow, v) ==> UnitOf(flow, v) != UnitOf(flow, w)
  {
  }

  /** When `work` returns, each storage has the unit exactly if it was to be delivered, and its queue knows. */
  lemma EndedTask(o: Outside, s: System, w: nat, j: nat)
    requires o.Valid() && j < o.storages && w < |s.tasks| && HasUnit(s.flow, w)
    requires TaskOk(o, s.flow, w, s.tasks[w]) && Ready(s.tasks[w])
    requires TaskCounts(o, s, s.tasks[w], UnitOf(s.flow, w), j)
    ensures
      var u := UnitOf(s.flow, w);
      Count(s.stored, u, j) == Count(s.told, u, j) == if Delivers(o, s.flow.units, u, j) then 1 else 0
  {
    hide Count;
    var u, t := UnitOf(s.flow, w), s.tasks[w];
    if t.Sending? {
      assert F.PairOk(o.answers(u), t.fan.pairs[j], t.fan.uploads[j], t.fan.messages[j], j);
    }
  }

  lemma WorkEndsKeep(c: FlowConfig, o: Outside, s: System, w: nat)
    requires Inv(c, o, s) && WorkerEnabled(s.flow, w, WorkerWork) && Ready(s.tasks[w])
    ensures
      var s' := s.(flow := WorkerDo(s.flow, w, WorkerWork), tasks := s.tasks[w := NoTask]);
      TasksOk(o, s') && CountsOk(o, s') && ContentOk(o, s')
  {
    hide F.Inv, Count, GatesOk, StagesOk, EmptiedOk, CallsOk, AccDataOk, UpDataOk, WorksOk;
    var s' := s.(flow := WorkerDo(s.flow, w, WorkerWork), tasks := s.tasks[w := NoTask]);
    UnitsAreTaken(s.flow, w);
    var u0 := UnitOf(s.flow, w);
    assert TasksOk(o, s') by {
      forall v | 0 <= v < |s.tasks| ensures TaskOk(o, s'.flow, v, s'.tasks[v]) {
        assert TaskOk(o, s.flow, v, s.tasks[v]);
      }
    }
    forall u: nat, j: nat | j < o.storages ensures SettledCounts(o, s', u, j) {
      assert SettledCounts(o, s, u, j);
      WorkedNow(s.flow, w, u);
      if u == u0 {
        EndedTask(o, s, w, j);
      }
    }
    forall v: nat, j: nat | j < o.storages && v < |s'.tasks| && HasUnit(s'.flow, v)
      ensures TaskCounts(o, s', s'.tasks[v], UnitOf(s'.flow, v), j)
    {
      assert TaskCounts(o, s, s.tasks[v], UnitOf(s.flow, v), j);
    }
  }

  lemma WorkedNow(flow: Flow, w: nat, u: nat)
    requires WorkerEnabled(flow, w, WorkerWork) && HasUnit(flow, w)
    ensures Worked(WorkerDo(flow, w, WorkerWork), u) <==> Worked(flow, u) || u == UnitOf(flow, w)
  {
    var flow' := WorkerDo(flow, w, WorkerWork);
    if Worked(flow, u) {
      var k :| 0 <= k < |flow.works| && flow.works[k].0 == u;
      assert flow'.works[k].0 == u;
    }
    assert flow'.works[|flow.works|].0 == UnitOf(flow, w);
  }

  lemma StartKeeps(c: FlowConfig, o: Outside, s: System, w: nat)
    requires Inv(c, o, s) && Enabled(c, o, s, Start(w))
    ensures
      var s' := Do(c, o, s, Start(w));
      TasksOk(o, s') && CountsOk(o, s') && ContentOk(o, s')
  {
    hide F.Inv, Count, PipelineSafety.Inv;
    var s' := Do(c, o, s, Start(w));
    F.InitOk(o.answers(UnitOf(s.flow, w)));
    forall u: nat, j: nat | j < o.storages ensures SettledCounts(o, s', u, j) {
      assert SettledCounts(o, s, u, j);
    }
    forall v: nat, j: nat | j < o.storages && v < |s'.tasks| && HasUnit(s'.flow, v)
      ensures TaskCounts(o, s', s'.tasks[v], UnitOf(s'.flow, v), j)
    {
      assert TaskCounts(o, s, s.tasks[v], UnitOf(s.flow, v), j);
    }
  }

  /** What one step of a fan-out does to the record of pair `j`. */
  lemma SendCounts(w: F.World<UploadResult>, fan: F.State<UploadResult>, send: F.Step, j: nat)
    requires F.Inv(w, fan) && F.Enabled(w, fan, send) && j < |w.uploads|
    ensures
      var fan' := F.Do(w, fan, send);
      && |fan'.uploads| == |fan'.messages| == |w.uploads|
      && fan'.uploads[j] == fan.uploads[j] + (if send == F.Upload(j) then 1 else 0)
      && |fan'.messages[j]| == |fan.messages[j]| + (if send == F.Notify(j) then 1 else 0)
  {
  }

  lemma SendKeepsCounts(c: FlowConfig, o: Outside, s: System, w: nat, send: F.Step)
    requires Inv(c, o, s) && Enabled(c, o, s, Send(w, send))
    ensures
      var s' := Do(c, o, s, Send(w, send));
      |s'.tasks| == |s'.flow.workers| && CountsOk(o, s')
  {
    hide F.Inv, F.Enabled, F.Do, Count, GatesOk, StagesOk, EmptiedOk, WorkersOk, CallsOk, AccDataOk, UpDataOk, WorksOk;
    var s', u0, task := Do(c, o, s, Send(w, send)), UnitOf(s.flow, w), s.tasks[w];
    var newlyStored, newlyTold := NewlyStored(o, u0, task, send), NewlyTold(o, u0, task, send);
    assert TaskOk(o, s.flow, w, task);
    forall u: nat, j: nat | j < o.storages ensures SettledCounts(o, s', u, j) {
      assert SettledCounts(o, s, u, j);
      CountMore(s.stored, newlyStored, u, j);
      CountMore(s.told, newlyTold, u, j);
      UnitIsInOneHand(s.flow, w, w);
    }
    forall v: nat, j: nat | j < o.storages && v < |s'.tasks| && HasUnit(s'.flow, v)
      ensures TaskCounts(o, s', s'.tasks[v], UnitOf(s'.flow, v), j)
    {
      assert TaskCounts(o, s, s.tasks[v], UnitOf(s.flow, v), j);
      CountMore(s.stored, newlyStored, UnitOf(s.flow, v), j);
      CountMore(s.told, newlyTold, UnitOf(s.flow, v), j);
      UnitIsInOneHand(s.flow, w, v);
      if v == w {
        SendCounts(o.answers(u0), task.fan, send, j);
      }
    }
  }

  lemma SendKeepsTasks(c: FlowConfig, o: Outside, s: System, w: nat, send: F.Step)
    requires Inv(c, o, s) && Enabled(c, o, s, Send(w, send))
    ensures TasksOk(o, Do(c, o, s, Send(w, send)))
  {
    hide F.Inv, F.Enabled, F.Do, Count, PipelineSafety.Inv, CountsOk;
    assert TaskOk(o, s.flow, w, s.tasks[w]);
    F.StepKeepsInv(o.answers(UnitOf(s.flow, w)), s.tasks[w].fan, send);
  }

  /** What a fan-out step adds is the compressed unit, or the result of its upload. */
  lemma NewContent(o: Outside, u: nat, data: Bytes, task: Task, send: F.Step)
    requires o.Valid() && task.Sending? && F.Inv(o.answers(u), task.fan) && F.Enabled(o.answers(u), task.fan, send)
    requires o.compress(u, data) == Some(task.data)
    ensures forall e :: e in NewlyStored(o, u, task, send) ==>
      e.unit == u && e.pair < o.storages && o.compress(u, data) == Some(e.content)
    ensures forall e :: e in NewlyTold(o, u, task, send) ==>
      e.unit == u && e.pair < o.storages && o.answers(u).uploads[e.pair] == Some(e.content)
  {
    if send.Notify? {
      var i := send.i;
      assert F.PairOk(o.answers(u), task.fan.pairs[i], task.fan.uploads[i], task.fan.messages[i], i);
    }
  }

  lemma SendKeepsContent(c: FlowConfig, o: Outside, s: System, w: nat, send: F.Step)
    requires Inv(c, o, s) && Enabled(c, o, s, Send(w, send))
    ensures ContentOk(o, Do(c, o, s, Send(w, send)))
  {
    hide F.Inv, F.Enabled, F.Do, Count, PipelineSafety.Inv, CountsOk, NewlyStored, NewlyTold;
    var u := UnitOf(s.flow, w);
    assert TaskOk(o, s.flow, w, s.tasks[w]);
    NewContent(o, u, s.flow.units[u], s.tasks[w], send);
  }

  lemma {:induction false} StepKeepsInv(c: FlowConfig, o: Outside, s: System, a: Step)
    requires c.Valid() && Inv(c, o, s) && Enabled(c, o, s, a)
    ensures Inv(c, o, Do(c, o, s, a))
  {
    hide PipelineSafety.Inv, TasksOk, CountsOk, ContentOk;
    match a
    case Plain(step) =>
      PipelineSafety.StepKeepsInv(c, s.flow, step);
      if !step.Work? {
        OthersLeaveWorkers(c, s.flow, step);
        OthersKeep(c, o, s, Do(c, o, s, a));
      } else if step.work == WorkerWork {
        WorkEndsKeep(c, o, s, step.w);
      } else {
        WorkerMovesKeep(c, o, s, step.w, step.work);
      }
    case Start(w) => StartKeeps(c, o, s, w);
    case Send(w, send) =>
      SendKeepsCounts(c, o, s, w, send);
      SendKeepsTasks(c, o, s, w, send);
      SendKeepsContent(c, o, s, w, send);
  }

  lemma {:induction false} RunKeepsInv(c: FlowConfig, o: Outside, run: seq<Step>)
    requires c.Valid() && o.Valid()
    ensures Inv(c, o, Exec(c, o, Init(c), run))
  {
    hide Inv, Enabled, Do;
    if run == [] {
      InitInv(c, o);
    } else {
      var front, a := run[..|run| - 1], run[|run| - 1];
      RunKeepsInv(c, o, front);
      if Enabled(c, o, Exec(c, o, Init(c), front), a) {
        StepKeepsInv(c, o, Exec(c, o, Init(c), front), a);
      }
    }
  }

  lemma InitInv(c: FlowConfig, o: Outside)
    requires c.Valid() && o.Valid()
    ensures Inv(c, o, Init(c))
  {
    hide PipelineSafety.Inv;
    InitOk(c);
  }
}
