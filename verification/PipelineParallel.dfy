/** A flow with all its workers busy at once, for every configuration. */
module PipelineParallel {
  import opened Options
  import opened Packing
  import opened Pipeline
  import opened PipelineSafety
  import opened PipelineProgress
  import opened PipelineService
  import G = ShutdownGate
  import S = GateService

  lemma {:induction false} InvRun(c: FlowConfig, s: Flow, run: seq<Step>)
    requires c.Valid() && PipelineSafety.Inv(c, s)
    ensures PipelineSafety.Inv(c, Exec(c, s, run))
  {
    hide PipelineSafety.Inv, Enabled, Do;
    if run != [] {
      var front, a := run[..|run| - 1], run[|run| - 1];
      InvRun(c, s, front);
      if Enabled(c, Exec(c, s, front), a) {
        StepKeepsInv(c, Exec(c, s, front), a);
      }
    }
  }

  ghost function Clients(calls: seq<G.Step<Bytes>>): seq<Step> {
    seq(|calls|, i requires 0 <= i < |calls| => Client(calls[i]))
  }

  /** Steps of callers alone move the accumulator's queue as they move any gate, and nothing else. */
  lemma {:induction false} ClientRun(c: FlowConfig, s: Flow, calls: seq<G.Step<Bytes>>)
    requires forall i :: 0 <= i < |calls| ==> calls[i].Begin? || calls[i].Check? || calls[i].Send? || calls[i].Leave?
    ensures Exec(c, s, Clients(calls)) == s.(accGate := G.Exec(s.accGate, calls))
  {
    hide G.Enabled, G.Do;
    if calls != [] {
      var front, a := calls[..|calls| - 1], calls[|calls| - 1];
      ClientRun(c, s, front);
      assert Clients(calls) == Clients(front) + [Client(a)];
      AttemptLast(c, s, Clients(front), Client(a));
    }
  }

  ghost function WholeCall(n: nat, p: Bytes): seq<G.Step<Bytes>> {
    [G.Begin(p)] + [G.Check(n), G.Send(n), G.Leave(n)]
  }

  /**
   A call of `Enqueue` on a flow, while no shutdown holds or wants the lock: it returns nil exactly if the accumulator
   has not closed and its queue has room, whatever everybody else is at.
   */
  lemma EnqueueReturns(c: FlowConfig, s: Flow, p: Bytes)
    requires PipelineSafety.Inv(c, s) && s.accGate.closing !in {G.Waiting, G.Holding, G.Flagged}
    ensures
      var g, n := s.accGate, |s.accGate.calls|;
      Exec(c, s, Clients(WholeCall(n, p)))
      == s.(accGate := S.Answered(S.Joined(g, p), n, g.closing == G.Open && |g.queue| < g.capacity))
  {
    ClientRun(c, s, WholeCall(|s.accGate.calls|, p));
    S.CallReturns(s.accGate, p);
    hide Exec, G.Exec, G.Inv, EmptiedOk, WorkersOk, CallsOk, AccDataOk, UpDataOk, WorksOk;
  }

  // ---- One payload on its way from Enqueue to a worker ----

  /** The first `n` workers have a unit in hand, and all else is idle. */
  ghost predicate FirstBusy(s: Flow, n: nat) {
    && s.ctrl == Serving && s.accGate.queue == [] && s.acc.outbox == [] && s.acc.trying == None
    && s.acc.core.pending == [] && s.upGate.queue == [] && s.up.hand == None
    && s.taken == |s.units| == n <= |s.workers|
    && (forall w :: 0 <= w < |s.workers| ==> s.workers[w].unit == if w < n then Some(w) else None)
  }

  /** No worker comes to the end of a unit. */
  ghost predicate NothingEnds(run: seq<Step>) {
    forall i :: 0 <= i < |run| ==> !Ends(run[i])
  }

  /** Nothing of the flow but the accumulator's side has changed. */
  ghost predicate SameBehind(s: Flow, s': Flow) {
    s' == s.(accGate := s'.accGate, acc := s'.acc)
  }

  /** A payload of at least the limit is accepted and goes straight to the outbox. */
  lemma LargeArrives(c: FlowConfig, s: Flow, p: Bytes) returns (run: seq<Step>)
    requires c.Valid() && PipelineSafety.Inv(c, s) && FirstBusy(s, |s.units|) && |p| >= c.packing.limit
    requires s.accGate.capacity == c.accCapacity
    ensures NothingEnds(run)
    ensures
      var s' := Exec(c, s, run);
      && SameBehind(s, s') && s'.acc.outbox == [p] && s'.acc.trying == None && s'.acc.core.pending == []
      && s'.accGate.queue == [] && s'.accGate.capacity == c.accCapacity
  {
    var n := |s.accGate.calls|;
    var call := Clients(WholeCall(n, p));
    run := call + [Acc(AccReceive)];
    assert s.acc.phase == Running && s.accGate.closing == G.Open;
    EnqueueReturns(c, s, p);
    hide Exec, PipelineSafety.Inv, Attempt;
    AttemptLast(c, s, call, Acc(AccReceive));
    ReceivesLarge(c, Exec(c, s, call), p);
  }

  lemma ReceivesLarge(c: FlowConfig, s: Flow, p: Bytes)
    requires s.acc.phase == Running && s.acc.outbox == [] && s.acc.trying == None && s.acc.core.pending == []
    requires !s.accGate.panicked && |s.accGate.queue| == 1 && CallData(s.accGate, s.accGate.queue[0]) == p
    requires |p| >= c.packing.limit && |p| > 0
    ensures
      var s' := Attempt(c, s, Acc(AccReceive));
      && SameBehind(s, s') && s'.acc.outbox == [p] && s'.acc.trying == None && s'.acc.core.pending == []
      && s'.accGate.queue == [] && s'.accGate.capacity == s.accGate.capacity
  {
    assert [p][..0] == [];
  }

  /** The block goes from the outbox through the uploader's hand to the next worker. */
  lemma BlockReachesWorker(c: FlowConfig, s: Flow) returns (run: seq<Step>)
    requires c.Valid() && PipelineSafety.Inv(c, s) && |s.units| < c.workers == |s.workers|
    requires s.acc.outbox != [] && s.acc.trying == None && s.upGate.queue == [] && s.up.hand == None
    requires s.taken == |s.units| && s.workers[|s.units|].unit == None
    ensures NothingEnds(run)
    ensures
      var s', n := Exec(c, s, run), |s.units|;
      && s' == Tried(s, s'.upGate, true).(units := s.units + [s.acc.outbox[0]], taken := n + 1, workers := s'.workers)
      && s'.workers == s.workers[n := s.workers[n].(unit := Some(n))]
      && s'.upGate.queue == []
  {
    hide Exec, PipelineSafety.Inv, Attempt;
    var try := [Try(TryBegin), Try(TryCheck), Try(TryHandOff), Try(TryLeave)];
    HandOffEnds(c, s);
    InvRun(c, s, try);
    var forward, receive := Up(UpForward), Work(|s.units|, WorkerReceive);
    run := try + [forward] + [receive];
    AttemptLast(c, s, try, forward);
    AttemptLast(c, s, try + [forward], receive);
    HandOn(c, Exec(c, s, try));
  }

  lemma HandOn(c: FlowConfig, s: Flow)
    requires PipelineSafety.Inv(c, s) && |s.units| < c.workers == |s.workers|
    requires s.up.phase == Running && s.up.hand.Some? && s.taken == |s.units| && s.workers[|s.units|].unit == None
    ensures
      var n := |s.units|;
      Attempt(c, Attempt(c, s, Up(UpForward)), Work(n, WorkerReceive))
      == s.(up := s.up.(hand := None), units := s.units + [s.up.hand.value], taken := n + 1,
            workers := s.workers[n := s.workers[n].(unit := Some(n))])
  {
    hide GatesOk, EmptiedOk, CallsOk, AccDataOk, UpDataOk, WorksOk;
  }

  /** One more payload, one more worker with a unit in hand. */
  lemma OneMoreBusy(c: FlowConfig, s: Flow, p: Bytes) returns (run: seq<Step>)
    requires c.Valid() && PipelineSafety.Inv(c, s) && FirstBusy(s, |s.units|) && |p| >= c.packing.limit
    requires |s.units| < c.workers && s.accGate.capacity == c.accCapacity
    ensures NothingEnds(run)
    ensures
      var s' := Exec(c, s, run);
      && PipelineSafety.Inv(c, s') && FirstBusy(s', |s.units| + 1) && s'.units == s.units + [p]
      && s'.accGate.capacity == c.accCapacity && s'.works == s.works
  {
    var first := LargeArrives(c, s, p);
    InvRun(c, s, first);
    var next := BlockReachesWorker(c, Exec(c, s, first));
    run := first + next;
    ExecConcat(c, s, first, next);
    InvRun(c, s, run);
    hide Exec, PipelineSafety.Inv;
  }

  lemma InitIsIdle(c: FlowConfig)
    ensures FirstBusy(Init(c), 0)
  {
  }

  lemma {:induction false} ManyBusy(c: FlowConfig, ps: seq<Bytes>) returns (run: seq<Step>)
    requires c.Valid() && |ps| <= c.workers
    requires forall i :: 0 <= i < |ps| ==> |ps[i]| >= c.packing.limit
    ensures NothingEnds(run)
    ensures
      var s := Exec(c, Init(c), run);
      && PipelineSafety.Inv(c, s) && FirstBusy(s, |ps|) && s.units == ps && s.works == []
      && s.accGate.capacity == c.accCapacity
  {
    hide FirstBusy, PipelineSafety.Inv, NothingEnds;
    if ps == [] {
      run := [];
      InitOk(c);
      InitIsIdle(c);
      assert NothingEnds([]) by {
        NoneEnds();
      }
    } else {
      hide Exec;
      var front, p := ps[..|ps| - 1], ps[|ps| - 1];
      var before := ManyBusy(c, front);
      var more := OneMoreBusy(c, Exec(c, Init(c), before), p);
      run := before + more;
      ExecConcat(c, Init(c), before, more);
      NothingEndsConcat(before, more);
      assert ps == front + [p];
    }
  }

  lemma NoneEnds()
    ensures NothingEnds([])
  {
  }

  lemma NothingEndsConcat(a: seq<Step>, b: seq<Step>)
    requires NothingEnds(a) && NothingEnds(b)
    ensures NothingEnds(a + b)
  {
  }

  /**
   Work goes on in parallel: for every configuration, and any payloads of at least the limit, one for each worker,
   there is a run after which every worker has the unit of one of them in hand.
   */
  lemma AllWorkersBusy(c: FlowConfig, ps: seq<Bytes>) returns (run: seq<Step>)
    requires c.Valid() && |ps| == c.workers
    requires forall i :: 0 <= i < |ps| ==> |ps[i]| >= c.packing.limit
    ensures NothingEnds(run)
    ensures
      var s := Exec(c, Init(c), run);
      && |s.workers| == c.workers && s.units == ps && s.works == []
      && forall w :: 0 <= w < |s.workers| ==> s.workers[w].unit == Some(w)
  {
    run := ManyBusy(c, ps);
    hide Exec;
  }
}
