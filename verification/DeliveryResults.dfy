/**
 What is in the storages once a flow has shut down: when "no data is lost" holds of the whole way, and when it does not.
 */
module DeliveryResults {
  import opened Sequences
  import opened Options
  import opened Packing
  import opened Splitting
  import opened Pipeline
  import opened PipelineSafety
  import opened PipelineProgress
  import opened PipelineRoundTrip
  import opened PipelineService
  import opened PipelineParallel
  import opened Delivery
  import F = FanOut
  import G = ShutdownGate

  // ---- Work units ----

  lemma {:induction false} CountOfMembers<T>(log: seq<Entry<T>>, u: nat, j: nat)
    ensures Count(log, u, j) > 0 <==> exists e :: e in log && e.unit == u && e.pair == j
  {
    if log != [] {
      SnocSplit(log);
      CountOfMembers(log[..|log| - 1], u, j);
    }
  }

  /**
   Wherever a run stands: nothing is stored twice in one storage or told twice to one queue, and a queue is only told
   of a unit its storage has.
   */
  lemma NeverTwice(c: FlowConfig, o: Outside, run: seq<Delivery.Step>, u: nat, j: nat)
    requires c.Valid() && o.Valid() && j < o.storages
    ensures
      var s := Delivery.Exec(c, o, Delivery.Init(c), run);
      Count(s.told, u, j) <= Count(s.stored, u, j) <= 1
  {
    hide Delivery.Exec, Count, F.MainOk, F.ErrorsOk, GatesOk, StagesOk, EmptiedOk, CallsOk, AccDataOk, UpDataOk;
    Delivery.RunKeepsInv(c, o, run);
    var s := Delivery.Exec(c, o, Delivery.Init(c), run);
    assert SettledCounts(o, s, u, j);
    if u < s.flow.taken && !Worked(s.flow, u) {
      assert Busy(s.flow, u);
      var w: nat :| w < |s.flow.workers| && s.flow.workers[w].unit == Some(u);
      var t := s.tasks[w];
      assert HasUnit(s.flow, w) && TaskCounts(o, s, t, UnitOf(s.flow, w), j) && TaskOk(o, s.flow, w, t);
      if t.Sending? {
        assert F.PairOk(o.answers(u), t.fan.pairs[j], t.fan.uploads[j], t.fan.messages[j], j);
      }
    }
  }

  /**
   In every finished run, whatever failed: each storage has a work unit exactly once if its compression and this
   upload succeed, and otherwise not at all; the storage's queue was told exactly as often; what is stored is the
   compressed unit; and there is nothing else.
   */
  lemma StoredExactlyOnce(c: FlowConfig, o: Outside, run: seq<Delivery.Step>)
    requires c.Valid() && o.Valid() && Delivery.Exec(c, o, Delivery.Init(c), run).flow.ctrl == Finished
    ensures
      var s := Delivery.Exec(c, o, Delivery.Init(c), run);
      && s.flow.units == Blocks(c.packing, s.flow.acc.core.groups)
      && IsSplit(c.packing, s.flow.acc.core.groups, NonEmpty(Accepted(s.flow)))
      && (forall u: nat, j: nat :: u < |s.flow.units| && j < o.storages ==>
            Count(s.stored, u, j) == Count(s.told, u, j) == if Delivers(o, s.flow.units, u, j) then 1 else 0)
      && ContentOk(o, s)
  {
    hide Delivery.Exec, PipelineSafety.Inv, Count;
    Delivery.RunKeepsInv(c, o, run);
    var s := Delivery.Exec(c, o, Delivery.Init(c), run);
    FinishedLosesNothing(c, s.flow);
    forall u: nat, j: nat | u < |s.flow.units| && j < o.storages
      ensures Count(s.stored, u, j) == Count(s.told, u, j) == if Delivers(o, s.flow.units, u, j) then 1 else 0
    {
      assert Worked(s.flow, u) && SettledCounts(o, s, u, j);
    }
  }

  // ---- Payloads ----

  /** The number of the group, and so of the work unit, that position `i` of the payloads falls into. */
  ghost function Home(gs: seq<Group>, i: nat): (u: nat)
    requires i < |Flatten(gs)|
    ensures u < |gs|
  {
    var n := |gs| - 1;
    if i < |Flatten(gs[..n])| then Home(gs[..n], i) else n
  }

  lemma {:induction false} HomeHolds(gs: seq<Group>, i: nat)
    requires i < |Flatten(gs)|
    ensures
      var u := Home(gs, i);
      var start := |Flatten(gs[..u])|;
      start <= i < start + |gs[u]| && gs[u][i - start] == Flatten(gs)[i]
  {
    var n := |gs| - 1;
    if i < |Flatten(gs[..n])| {
      HomeHolds(gs[..n], i);
      assert gs[..n][..Home(gs, i)] == gs[..Home(gs, i)];
    }
  }

  /** Every group is the home of its first payload. */
  lemma {:induction false} HomeOfFirst(gs: seq<Group>, u: nat)
    requires u < |gs| && gs[u] != []
    ensures |Flatten(gs[..u])| < |Flatten(gs)| && Home(gs, |Flatten(gs[..u])|) == u
  {
    var n := |gs| - 1;
    if u < n {
      HomeOfFirst(gs[..n], u);
      assert gs[..n][..u] == gs[..u];
    }
  }

  ghost predicate Holds(s: System, u: nat, j: nat) {
    exists e :: e in s.stored && e.unit == u && e.pair == j
  }

  /** Accepted payload `i` is in storage `j`: the unit it is a member of is there. */
  ghost predicate InStorage(s: System, i: nat, j: nat) {
    i < |Flatten(s.flow.acc.core.groups)| && Holds(s, Home(s.flow.acc.core.groups, i), j)
  }

  /** An accepted payload is in a storage exactly if the unit it is a member of compresses and that upload succeeds. */
  lemma PayloadIsStoredIff(c: FlowConfig, o: Outside, run: seq<Delivery.Step>, i: nat, j: nat)
    requires c.Valid() && o.Valid() && Delivery.Exec(c, o, Delivery.Init(c), run).flow.ctrl == Finished
    requires i < |NonEmpty(Accepted(Delivery.Exec(c, o, Delivery.Init(c), run).flow))| && j < o.storages
    ensures
      var s := Delivery.Exec(c, o, Delivery.Init(c), run);
      && |s.flow.units| == |s.flow.acc.core.groups|
      && Flatten(s.flow.acc.core.groups) == NonEmpty(Accepted(s.flow))
      && NonEmpty(Accepted(s.flow))[i] in s.flow.acc.core.groups[Home(s.flow.acc.core.groups, i)]
      && (InStorage(s, i, j) <==> Delivers(o, s.flow.units, Home(s.flow.acc.core.groups, i), j))
  {
    hide Delivery.Exec, Count, NonEmpty, Accepted, ContentOk;
    StoredExactlyOnce(c, o, run);
    var s := Delivery.Exec(c, o, Delivery.Init(c), run);
    HomeHolds(s.flow.acc.core.groups, i);
    CountOfMembers(s.stored, Home(s.flow.acc.core.groups, i), j);
  }

  ghost predicate AllStored(o: Outside, s: System) {
    forall i: nat, j: nat :: i < |NonEmpty(Accepted(s.flow))| && j < o.storages ==> InStorage(s, i, j)
  }

  /** No unit fails to compress, and no storage refuses one. */
  ghost predicate NothingFails(o: Outside, units: seq<Bytes>)
    requires o.Valid()
  {
    forall u: nat, j: nat :: u < |units| && j < o.storages ==> Delivers(o, units, u, j)
  }

  /**
   When no data is lost: after a graceful shutdown every accepted non-empty payload is in every storage, if and only
   if no work unit fails to compress and no storage refuses one.
   */
  lemma NoLossIff(c: FlowConfig, o: Outside, run: seq<Delivery.Step>)
    requires c.Valid() && o.Valid() && Delivery.Exec(c, o, Delivery.Init(c), run).flow.ctrl == Finished
    ensures
      var s := Delivery.Exec(c, o, Delivery.Init(c), run);
      AllStored(o, s) <==> NothingFails(o, s.flow.units)
  {
    hide Delivery.Exec, NonEmpty, Accepted, ContentOk, InStorage, Delivers, Home;
    StoredExactlyOnce(c, o, run);
    var s := Delivery.Exec(c, o, Delivery.Init(c), run);
    var gs := s.flow.acc.core.groups;
    forall i: nat, j: nat | i < |NonEmpty(Accepted(s.flow))| && j < o.storages
      ensures InStorage(s, i, j) <==> Delivers(o, s.flow.units, Home(gs, i), j)
    {
      PayloadIsStoredIff(c, o, run, i, j);
    }
    if AllStored(o, s) {
      forall u: nat, j: nat | u < |s.flow.units| && j < o.storages ensures Delivers(o, s.flow.units, u, j) {
        assert Feasible(c.packing, gs[u]);
        HomeOfFirst(gs, u);
        assert InStorage(s, |Flatten(gs[..u])|, j);
      }
    }
  }

  // ---- Reading a storage back ----

  /** An object that storage `j` has of unit `u`. */
  ghost function Fetch(s: System, u: nat, j: nat): Bytes
    requires Holds(s, u, j)
  {
    var e :| e in s.stored && e.unit == u && e.pair == j;
    e.content
  }

  /** Storage `j`, unit by unit, decompressed. */
  ghost function ReadBack(s: System, decompress: Bytes -> Bytes, j: nat): seq<Bytes>
    requires forall u: nat :: u < |s.flow.units| ==> Holds(s, u, j)
  {
    seq(|s.flow.units|, u requires 0 <= u < |s.flow.units| && Holds(s, u, j) => decompress(Fetch(s, u, j)))
  }

  /**
   From `Enqueue` to a storage and back: if nothing failed, reading any storage back, with a decompression that undoes
   the compression, and cutting what was read at the separator gives exactly the accepted non-empty payloads, in order,
   when each of them is clean.
   */
  lemma StorageGivesBackPayloads(
    c: FlowConfig, o: Outside, run: seq<Delivery.Step>, decompress: Bytes -> Bytes, j: nat)
    requires c.Valid() && o.Valid() && j < o.storages && c.packing.separator != []
    requires Delivery.Exec(c, o, Delivery.Init(c), run).flow.ctrl == Finished
    requires NothingFails(o, Delivery.Exec(c, o, Delivery.Init(c), run).flow.units)
    requires forall u, data, packed :: o.compress(u, data) == Some(packed) ==> decompress(packed) == data
    requires forall p :: p in NonEmpty(Accepted(Delivery.Exec(c, o, Delivery.Init(c), run).flow)) ==>
      Clean(p, c.packing.separator)
    ensures
      var s := Delivery.Exec(c, o, Delivery.Init(c), run);
      && (forall u: nat :: u < |s.flow.units| ==> Holds(s, u, j))
      && SplitAll(ReadBack(s, decompress, j), c.packing.separator) == NonEmpty(Accepted(s.flow))
  {
    hide Delivery.Exec, Pipeline.Exec, Count, NonEmpty, Accepted, SplitAll, Clean;
    StoredExactlyOnce(c, o, run);
    var s := Delivery.Exec(c, o, Delivery.Init(c), run);
    var plain := FlowRun(c, o, run);
    UnitsGiveBackPayloads(c, plain);
    forall u: nat | u < |s.flow.units| ensures Holds(s, u, j) {
      assert Delivers(o, s.flow.units, u, j);
      CountOfMembers(s.stored, u, j);
    }
    var read := ReadBack(s, decompress, j);
    forall u: nat | u < |s.flow.units| ensures read[u] == s.flow.units[u] {
      assert Holds(s, u, j);
      var e :| e in s.stored && e.unit == u && e.pair == j && e.content == Fetch(s, u, j);
      assert o.compress(u, s.flow.units[u]) == Some(e.content);
    }
    assert read == s.flow.units;
  }

  // ---- The shutdown still ends ----

  ghost predicate OnlyOldCalls(run: seq<Delivery.Step>) {
    forall i :: 0 <= i < |run| ==> run[i].Plain? ==> !NewCall(run[i].step)
  }

  lemma {:induction false} RunConcat(c: FlowConfig, o: Outside, s: System, run: seq<Delivery.Step>, more: seq<Delivery.Step>)
    ensures Delivery.Exec(c, o, s, run + more) == Delivery.Exec(c, o, Delivery.Exec(c, o, s, run), more)
    decreases |more|
  {
    hide Delivery.Enabled, Delivery.Do;
    if more == [] {
      assert run + more == run;
    } else {
      assert (run + more)[..|run + more| - 1] == run + more[..|more| - 1];
      RunConcat(c, o, s, run, more[..|more| - 1]);
    }
  }

  /** One step, and then a run. */
  lemma StepFirst(c: FlowConfig, o: Outside, s: System, a: Delivery.Step, rest: seq<Delivery.Step>)
    requires Delivery.Enabled(c, o, s, a)
    ensures Delivery.Exec(c, o, s, [a] + rest) == Delivery.Exec(c, o, Delivery.Do(c, o, s, a), rest)
  {
    hide Delivery.Enabled, Delivery.Do;
    RunConcat(c, o, s, [a], rest);
    assert [a][..0] == [];
  }

  /** What a worker has left to do before `work` returns. */
  ghost function TaskLeft(t: Task): nat {
    match t case Sending(_, fan) => F.WorkLeft(fan) case _ => 0
  }

  /** A worker with a unit in hand comes to the end of `work`, the rest of the flow standing still. */
  lemma {:induction false} FinishTask(c: FlowConfig, o: Outside, s: System, w: nat) returns (run: seq<Delivery.Step>)
    requires c.Valid() && Delivery.Inv(c, o, s) && w < |s.tasks| && HasUnit(s.flow, w)
    ensures forall i :: 0 <= i < |run| ==> !run[i].Plain?
    ensures
      var s' := Delivery.Exec(c, o, s, run);
      Delivery.Inv(c, o, s') && s'.flow == s.flow && w < |s'.tasks| && Ready(s'.tasks[w])
    decreases s.tasks[w] == NoTask, TaskLeft(s.tasks[w])
  {
    hide PipelineSafety.Inv, CountsOk, ContentOk, F.Enabled, F.Do, F.WorkLeft, F.Inv, F.Init;
    if Ready(s.tasks[w]) {
      run := [];
    } else {
      assert TaskOk(o, s.flow, w, s.tasks[w]);
      var a;
      if s.tasks[w] == NoTask {
        a := Start(w);
      } else {
        var world := o.answers(UnitOf(s.flow, w));
        var send := F.NoDeadlock(world, s.tasks[w].fan);
        F.StepDescends(world, s.tasks[w].fan, send);
        a := Delivery.Send(w, send);
      }
      Delivery.StepKeepsInv(c, o, s, a);
      var rest := FinishTask(c, o, Delivery.Do(c, o, s, a), w);
      run := [a] + rest;
      StepFirst(c, o, s, a, rest);
    }
  }

  /** A step the flow can take can be taken as soon as the worker it concerns is at the end of `work`. */
  lemma BeforeStep(c: FlowConfig, o: Outside, s: System, step: Pipeline.Step) returns (run: seq<Delivery.Step>)
    requires c.Valid() && Delivery.Inv(c, o, s) && Pipeline.Enabled(c, s.flow, step)
    ensures forall i :: 0 <= i < |run| ==> !run[i].Plain?
    ensures
      var s' := Delivery.Exec(c, o, s, run);
      Delivery.Inv(c, o, s') && s'.flow == s.flow && Delivery.Enabled(c, o, s', Plain(step))
  {
    hide CountsOk, ContentOk, Ready, GatesOk, StagesOk, EmptiedOk, CallsOk, AccDataOk, UpDataOk, WorksOk;
    run := [];
    if Ends(step) {
      UnitsAreTaken(s.flow, step.w);
      run := FinishTask(c, o, s, step.w);
    }
  }

  /** A step of the flow that makes progress can be made, and is the only one of the flow that is. */
  lemma AdvanceBy(c: FlowConfig, o: Outside, s: System, step: Pipeline.Step) returns (run: seq<Delivery.Step>)
    requires c.Valid() && Delivery.Inv(c, o, s) && Advances(c, s.flow, step)
    ensures forall i :: 0 <= i < |run| && run[i].Plain? ==> run[i].step == step
    ensures
      var s' := Delivery.Exec(c, o, s, run);
      && Delivery.Inv(c, o, s') && s'.flow == Pipeline.Do(c, s.flow, step)
      && 0 <= Rank(c, s'.flow) < Rank(c, s.flow)
  {
    hide PipelineSafety.Inv, TasksOk, CountsOk, ContentOk, Pipeline.Enabled, Pipeline.Do, Idle, Rank;
    StepDescends(c, s.flow, step);
    run := BeforeStep(c, o, s, step);
    var before, a := Delivery.Exec(c, o, s, run), Plain(step);
    Delivery.StepKeepsInv(c, o, before, a);
    RankIsNat(c, Delivery.Do(c, o, before, a).flow);
    assert (run + [a])[..|run|] == run;
    run := run + [a];
  }

  /** In every unfinished state some steps lower the flow's measure, the last of them. */
  lemma Advance(c: FlowConfig, o: Outside, s: System) returns (run: seq<Delivery.Step>)
    requires c.Valid() && Delivery.Inv(c, o, s) && !AllDone(s.flow)
    ensures OnlyOldCalls(run) && Delivery.Inv(c, o, Delivery.Exec(c, o, s, run))
    ensures 0 <= Rank(c, Delivery.Exec(c, o, s, run).flow) < Rank(c, s.flow)
  {
    hide AllDone, PipelineSafety.Inv, TasksOk, CountsOk, ContentOk, Pipeline.Enabled, Pipeline.Do, Idle, Rank;
    var step := SomethingAdvances(c, s.flow);
    run := AdvanceBy(c, o, s, step);
  }

  /** Every state that keeps the invariant can be brought to the end without new calls. */
  lemma {:induction false} FinishDelivery(c: FlowConfig, o: Outside, s: System) returns (run: seq<Delivery.Step>)
    requires c.Valid() && Delivery.Inv(c, o, s)
    ensures OnlyOldCalls(run) && AllDone(Delivery.Exec(c, o, s, run).flow)
    decreases Rank(c, s.flow)
  {
    hide AllDone, Delivery.Inv, Delivery.Enabled, Delivery.Do, Rank;
    run := [];
    if !AllDone(s.flow) {
      run := Advance(c, o, s);
      var rest := FinishDelivery(c, o, Delivery.Exec(c, o, s, run));
      RunConcat(c, o, s, run, rest);
      run := run + rest;
    }
  }

  /**
   Whatever fails outside and whatever a run has done so far: if callers stop coming, finitely many steps of the
   goroutines complete the shutdown.
   */
  lemma ShutdownDelivers(c: FlowConfig, o: Outside, run: seq<Delivery.Step>) returns (more: seq<Delivery.Step>)
    requires c.Valid() && o.Valid()
    ensures OnlyOldCalls(more) && AllDone(Delivery.Exec(c, o, Delivery.Init(c), run + more).flow)
  {
    hide Delivery.Inv, AllDone, Delivery.Enabled, Delivery.Do;
    Delivery.RunKeepsInv(c, o, run);
    more := FinishDelivery(c, o, Delivery.Exec(c, o, Delivery.Init(c), run));
    RunConcat(c, o, Delivery.Init(c), run, more);
  }

  // ---- An accepted payload that is lost ----

  lemma QuietGate(g: G.Gate<Bytes>, a: G.Step<Bytes>)
    requires G.NoReaders(g) && G.Enabled(g, a) && !a.Begin?
    ensures G.Do(g, a).calls == g.calls && G.Do(g, a).accepted == g.accepted
  {
  }

  /** Without calls under way and without new ones, nothing more is accepted. */
  lemma QuietStep(c: FlowConfig, s: Flow, step: Pipeline.Step)
    requires G.NoReaders(s.accGate) && Pipeline.Enabled(c, s, step) && !NewCall(step)
    ensures
      var g, h := s.accGate, Pipeline.Do(c, s, step).accGate;
      h.calls == g.calls && h.accepted == g.accepted
  {
    hide Produce, Packing.Append, Packing.Flush, G.Do, G.Enabled, G.NoReaders;
    match step
    case Client(call) => QuietGate(s.accGate, call);
    case Acc(acc) =>
      if acc != AccTick && acc != AccFinish && acc != AccExit {
        QuietGate(s.accGate, AccGateStep(acc));
      }
    case _ =>
  }

  lemma {:induction false} QuietRun(c: FlowConfig, o: Outside, s: System, run: seq<Delivery.Step>)
    requires G.NoReaders(s.flow.accGate) && OnlyOldCalls(run)
    ensures
      var g, h := s.flow.accGate, Delivery.Exec(c, o, s, run).flow.accGate;
      h.calls == g.calls && h.accepted == g.accepted
  {
    hide Pipeline.Enabled, Pipeline.Do, NewCall;
    if run != [] {
      var front, a := run[..|run| - 1], run[|run| - 1];
      QuietRun(c, o, s, front);
      var before := Delivery.Exec(c, o, s, front);
      if a.Plain? && Delivery.Enabled(c, o, before, a) {
        assert OnlyOldCalls(run) && run[|run| - 1] == a;
        QuietStep(c, before.flow, a.step);
      }
    }
  }

  /** One call of `Enqueue` from the start returns nil. */
  lemma OneCall(c: FlowConfig, o: Outside, p: Bytes) returns (run: seq<Delivery.Step>)
    requires c.Valid()
    ensures
      var g := Delivery.Exec(c, o, Delivery.Init(c), run).flow.accGate;
      g.calls == [G.Call(p, G.Returned(true))] && g.accepted == [0]
  {
    hide Delivery.Exec;
    InitOk(c);
    EnqueueReturns(c, Pipeline.Init(c), p);
    run := Plains(Clients(WholeCall(0, p)));
    PlainRun(c, o, Delivery.Init(c), Clients(WholeCall(0, p)));
    hide Pipeline.Exec, PipelineSafety.Inv;
  }

  /** A single payload makes a single group. */
  lemma SingleGroup(c: Packing.Config, gs: seq<Group>, p: Bytes)
    requires IsSplit(c, gs, [p])
    ensures gs == [[p]] && Blocks(c, gs) == [p]
  {
    assert forall i :: 0 <= i < |gs| ==> Feasible(c, gs[i]) && gs[i] != [];
    hide Feasible, IsSplit;
    FlattenLast(gs);
    assert gs[|gs| - 1] == [p];
    if |gs| > 1 {
      FlattenLast(gs[..|gs| - 1]);
    }
  }

  /**
   Whatever the configuration: when the world does not take the one payload accepted to storage `j`, a run exists in
   which `Enqueue` returned nil, the shutdown completed, the payload is the one work unit, and the storage is empty.
   */
  lemma AcceptedYetLost(c: FlowConfig, o: Outside, p: Bytes, j: nat) returns (run: seq<Delivery.Step>)
    requires c.Valid() && o.Valid() && |p| > 0 && j < o.storages
    requires o.compress(0, p) == None || o.answers(0).uploads[j] == None
    ensures
      var s := Delivery.Exec(c, o, Delivery.Init(c), run);
      && s.flow.accGate.calls == [G.Call(p, G.Returned(true))]
      && AllDone(s.flow)
      && Accepted(s.flow) == s.flow.units == [p]
      && (forall e :: e in s.stored ==> e.pair != j)
      && (forall e :: e in s.told ==> e.pair != j)
  {
    hide Delivery.Exec, Pipeline.Init, Count, IsSplit, Blocks;
    var call := OneCall(c, o, p);
    var more := ShutdownDelivers(c, o, call);
    run := call + more;
    RunConcat(c, o, Delivery.Init(c), call, more);
    QuietRun(c, o, Delivery.Exec(c, o, Delivery.Init(c), call), more);
    StoredExactlyOnce(c, o, run);
    var s := Delivery.Exec(c, o, Delivery.Init(c), run);
    assert Accepted(s.flow) == [p];
    assert NonEmpty([p]) == [p] by {
      assert [p][..0] == [];
    }
    SingleGroup(c.packing, s.flow.acc.core.groups, p);
    CountOfMembers(s.stored, 0, j);
    CountOfMembers(s.told, 0, j);
  }
}
