/**
 A flow that serves, down to the storages: what it accepted gets there without any shutdown, and all uploads of all
 workers can be under way at once.
 */
module DeliveryService {
  import opened Packing
  import opened Pipeline
  import opened PipelineSafety
  import opened PipelineProgress
  import opened PipelineService
  import opened PipelineParallel
  import opened Delivery
  import opened DeliveryResults
  import F = FanOut
  import FP = FanOutParallel

  // ---- What is accepted is stored while the flow serves ----

  /** Steps by which a flow goes on serving: no new call, and no interrupt of the run group. */
  ghost predicate OnlyGoingOn(run: seq<Delivery.Step>) {
    forall i :: 0 <= i < |run| && run[i].Plain? ==> !NewCall(run[i].step) && !run[i].step.Ctrl?
  }

  lemma ServingStep(c: FlowConfig, o: Outside, s: System) returns (run: seq<Delivery.Step>)
    requires c.Valid() && Delivery.Inv(c, o, s) && s.flow.ctrl == Serving && !Drained(c, s.flow)
    ensures OnlyGoingOn(run)
    ensures
      var s' := Delivery.Exec(c, o, s, run);
      && Delivery.Inv(c, o, s') && s'.flow.ctrl == Serving && 0 <= Rank(c, s'.flow) < Rank(c, s.flow)
  {
    hide Drained, PipelineSafety.Inv, TasksOk, CountsOk, ContentOk, Pipeline.Enabled, Pipeline.Do, Idle, Rank;
    var step := ServingAdvances(c, s.flow);
    ServingGoesOn(c, s.flow, step);
    run := AdvanceBy(c, o, s, step);
  }

  lemma {:induction false} DrainDelivery(c: FlowConfig, o: Outside, s: System) returns (run: seq<Delivery.Step>)
    requires c.Valid() && Delivery.Inv(c, o, s) && s.flow.ctrl == Serving
    ensures OnlyGoingOn(run)
    ensures
      var s' := Delivery.Exec(c, o, s, run);
      Delivery.Inv(c, o, s') && s'.flow.ctrl == Serving && Drained(c, s'.flow)
    decreases Rank(c, s.flow)
  {
    hide Drained, Delivery.Inv, Delivery.Enabled, Delivery.Do, Rank;
    run := [];
    if !Drained(c, s.flow) {
      run := ServingStep(c, o, s);
      var rest := DrainDelivery(c, o, Delivery.Exec(c, o, s, run));
      RunConcat(c, o, s, run, rest);
      run := run + rest;
    }
  }

  /**
   From every reachable state before the interrupt, finitely many steps, none of them a new call or of the run group,
   get everything there is out: nothing is on its way, every work unit is in each storage exactly once if it compresses
   and that storage accepts it, and the work units hold, in order, every accepted payload but those still pending.
   */
  lemma ServingStores(c: FlowConfig, o: Outside, run: seq<Delivery.Step>) returns (more: seq<Delivery.Step>)
    requires c.Valid() && o.Valid() && Delivery.Exec(c, o, Delivery.Init(c), run).flow.ctrl == Serving
    ensures OnlyGoingOn(more)
    ensures
      var s := Delivery.Exec(c, o, Delivery.Init(c), run + more);
      && s.flow.ctrl == Serving && Drained(c, s.flow)
      && s.flow.units == Blocks(c.packing, s.flow.acc.core.groups)
      && Held(s.flow.acc.core) == NonEmpty(Accepted(s.flow))
      && (c.timed ==> s.flow.acc.core.pending == [])
      && (forall u: nat, j: nat :: u < |s.flow.units| && j < o.storages ==>
            Count(s.stored, u, j) == Count(s.told, u, j) == if Delivers(o, s.flow.units, u, j) then 1 else 0)
  {
    hide Delivery.Exec, PipelineSafety.Inv, Count;
    Delivery.RunKeepsInv(c, o, run);
    more := DrainDelivery(c, o, Delivery.Exec(c, o, Delivery.Init(c), run));
    RunConcat(c, o, Delivery.Init(c), run, more);
    var s := Delivery.Exec(c, o, Delivery.Init(c), run + more);
    DrainedHasWorked(c, s.flow);
    forall u: nat, j: nat | u < |s.flow.units| && j < o.storages
      ensures Count(s.stored, u, j) == Count(s.told, u, j) == if Delivers(o, s.flow.units, u, j) then 1 else 0
    {
      assert Worked(s.flow, u) && SettledCounts(o, s, u, j);
    }
  }

  // ---- All uploads at once ----

  /** One attempted step. */
  ghost function Attempt(c: FlowConfig, o: Outside, s: System, a: Delivery.Step): System {
    if Delivery.Enabled(c, o, s, a) then Delivery.Do(c, o, s, a) else s
  }

  lemma AttemptLast(c: FlowConfig, o: Outside, s: System, run: seq<Delivery.Step>, a: Delivery.Step)
    ensures Delivery.Exec(c, o, s, run + [a]) == Attempt(c, o, Delivery.Exec(c, o, s, run), a)
  {
    hide Delivery.Enabled, Delivery.Do;
    assert (run + [a])[..|run|] == run;
  }

  lemma AttemptOne(c: FlowConfig, o: Outside, s: System, a: Delivery.Step)
    ensures Delivery.Exec(c, o, s, [a]) == Attempt(c, o, s, a)
  {
    AttemptLast(c, o, s, [], a);
    assert [] + [a] == [a];
    hide Delivery.Enabled, Delivery.Do;
  }

  /** A worker enters `work` with the unit it has in hand, whatever everybody else is at. */
  lemma WorkStarts(c: FlowConfig, o: Outside, s: System, w: nat)
    requires w < |s.tasks| && HasUnit(s.flow, w) && s.tasks[w] == NoTask
    ensures
      var u := UnitOf(s.flow, w);
      Delivery.Exec(c, o, s, [Start(w)]) == s.(tasks := s.tasks[w := StartTask(o, u, s.flow.units[u])])
  {
    AttemptOne(c, o, s, Start(w));
    hide Delivery.Exec;
  }

  /**
   An upload comes to its end, and leaves the compressed unit in its storage if that accepts it, whatever the other
   workers, the other storages and the flow are at.
   */
  lemma UploadEnds(c: FlowConfig, o: Outside, s: System, w: nat, j: nat)
    requires Delivery.Inv(c, o, s) && w < |s.tasks| && s.tasks[w].Sending?
    requires j < |s.tasks[w].fan.pairs| && s.tasks[w].fan.pairs[j] == F.Uploading
    ensures HasUnit(s.flow, w)
    ensures
      var u, t := UnitOf(s.flow, w), s.tasks[w];
      && j < |o.answers(u).uploads|
      && Delivery.Exec(c, o, s, [Delivery.Send(w, F.Upload(j))]).stored
         == s.stored + if o.answers(u).uploads[j].Some? then [Entry(u, j, t.data)] else []
  {
    assert TaskOk(o, s.flow, w, s.tasks[w]);
    UploadIsEnabled(o.answers(UnitOf(s.flow, w)), s.tasks[w].fan, j);
    AttemptOne(c, o, s, Delivery.Send(w, F.Upload(j)));
    hide Delivery.Exec, Delivery.Inv, TaskOk, F.Enabled, F.Do;
  }

  lemma UploadIsEnabled(world: F.World<UploadResult>, fan: F.State<UploadResult>, j: nat)
    requires F.Inv(world, fan) && j < |fan.pairs| && fan.pairs[j] == F.Uploading
    ensures F.Enabled(world, fan, F.Upload(j)) && j < |world.uploads|
  {
  }

  /** The steps of one worker's loop that starts the goroutines. */
  ghost function Spawns(w: nat, n: nat): seq<Delivery.Step> {
    seq(n, _ => Delivery.Send(w, F.Spawn))
  }

  lemma SpawnOne(c: FlowConfig, o: Outside, s: System, w: nat)
    requires w < |s.tasks| && HasUnit(s.flow, w) && s.tasks[w].Sending?
    ensures
      var task := s.tasks[w];
      Attempt(c, o, s, Delivery.Send(w, F.Spawn))
      == s.(tasks := s.tasks[w := task.(fan := FP.Then(o.answers(UnitOf(s.flow, w)), task.fan, F.Spawn))])
  {
    hide F.Enabled, F.Do;
    assert s.tasks[w := s.tasks[w]] == s.tasks;
    assert s.stored + [] == s.stored && s.told + [] == s.told;
  }

  /** A worker starts the goroutines of its fan-out one after the other, and nothing else moves. */
  lemma {:induction false} SpawnRun(c: FlowConfig, o: Outside, s: System, w: nat, n: nat)
    requires w < |s.tasks| && HasUnit(s.flow, w) && s.tasks[w].Sending?
    ensures
      var fan := F.Exec(o.answers(UnitOf(s.flow, w)), s.tasks[w].fan, seq(n, _ => F.Spawn));
      Delivery.Exec(c, o, s, Spawns(w, n)) == s.(tasks := s.tasks[w := s.tasks[w].(fan := fan)])
  {
    if n == 0 {
      assert s.tasks[w := s.tasks[w]] == s.tasks;
    } else {
      hide Delivery.Exec, F.Exec, FP.Then, Attempt;
      SpawnRun(c, o, s, w, n - 1);
      assert Spawns(w, n) == Spawns(w, n - 1) + [Delivery.Send(w, F.Spawn)];
      assert seq(n, _ => F.Spawn) == seq(n - 1, _ => F.Spawn) + [F.Spawn];
      AttemptLast(c, o, s, Spawns(w, n - 1), Delivery.Send(w, F.Spawn));
      FP.ExecSnoc(o.answers(UnitOf(s.flow, w)), s.tasks[w].fan, seq(n - 1, _ => F.Spawn), F.Spawn);
      SpawnOne(c, o, Delivery.Exec(c, o, s, Spawns(w, n - 1)), w);
    }
  }

  /** All goroutines of a task are at their uploads. */
  ghost predicate AllUploading(t: Task, n: nat) {
    t.Sending? && |t.fan.pairs| == n && forall i :: 0 <= i < n ==> t.fan.pairs[i] == F.Uploading
  }

  lemma Launch(c: FlowConfig, o: Outside, s: System, w: nat) returns (run: seq<Delivery.Step>)
    requires o.Valid() && w < |s.tasks| && HasUnit(s.flow, w) && s.tasks[w] == NoTask
    requires var u := UnitOf(s.flow, w); o.compress(u, s.flow.units[u]).Some?
    ensures
      var s' := Delivery.Exec(c, o, s, run);
      s' == s.(tasks := s'.tasks) && |s'.tasks| == |s.tasks| && s'.tasks == s.tasks[w := s'.tasks[w]]
      && AllUploading(s'.tasks[w], o.storages)
  {
    var u := UnitOf(s.flow, w);
    run := [Start(w)] + Spawns(w, o.storages);
    WorkStarts(c, o, s, w);
    RunConcat(c, o, s, [Start(w)], Spawns(w, o.storages));
    SpawnRun(c, o, Delivery.Exec(c, o, s, [Start(w)]), w, o.storages);
    FP.SpawnsAtOnce(o.answers(u), o.storages);
    hide F.Exec;
  }

  lemma {:induction false} LaunchFirst(c: FlowConfig, o: Outside, s: System, n: nat) returns (run: seq<Delivery.Step>)
    requires o.Valid() && n <= |s.tasks|
    requires forall w :: 0 <= w < n ==>
      HasUnit(s.flow, w) && s.tasks[w] == NoTask && o.compress(UnitOf(s.flow, w), s.flow.units[UnitOf(s.flow, w)]).Some?
    ensures
      var s' := Delivery.Exec(c, o, s, run);
      && s' == s.(tasks := s'.tasks) && |s'.tasks| == |s.tasks|
      && (forall w :: 0 <= w < n ==> AllUploading(s'.tasks[w], o.storages))
      && (forall w :: n <= w < |s.tasks| ==> s'.tasks[w] == s.tasks[w])
  {
    hide Delivery.Enabled, Delivery.Do, AllUploading;
    if n == 0 {
      run := [];
    } else {
      var before := LaunchFirst(c, o, s, n - 1);
      var more := Launch(c, o, Delivery.Exec(c, o, s, before), n - 1);
      RunConcat(c, o, s, before, more);
      run := before + more;
      hide Delivery.Exec;
    }
  }

  /**
   As much goes on at once as the configuration says: for every configuration, and any payloads of at least the limit,
   one for each worker, that compress, there is a run after which every worker uploads its unit to all storages at once.
   */
  lemma AllUploadsAtOnce(c: FlowConfig, o: Outside, ps: seq<Bytes>) returns (run: seq<Delivery.Step>)
    requires c.Valid() && o.Valid() && |ps| == c.workers
    requires forall u: nat :: u < |ps| ==> |ps[u]| >= c.packing.limit && o.compress(u, ps[u]).Some?
    ensures
      var s := Delivery.Exec(c, o, Delivery.Init(c), run);
      && s.flow.units == ps && |s.tasks| == c.workers
      && forall w :: 0 <= w < c.workers ==>
           HasUnit(s.flow, w) && UnitOf(s.flow, w) == w && AllUploading(s.tasks[w], o.storages)
  {
    var plain := AllWorkersBusy(c, ps);
    PlainRun(c, o, Delivery.Init(c), plain);
    var s := Delivery.Exec(c, o, Delivery.Init(c), Plains(plain));
    var more := LaunchFirst(c, o, s, c.workers);
    RunConcat(c, o, Delivery.Init(c), Plains(plain), more);
    run := Plains(plain) + more;
    hide Delivery.Exec, Pipeline.Exec;
  }
}
