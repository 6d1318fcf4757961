/**
 What callers of `Enqueue` can count on: an error has a cause, callers do not hold each other up or make each other
 fail, and a shutdown neither waits forever nor keeps anybody waiting forever.
 */
module GateService {
  import opened ShutdownGate

  /** One attempted step. */
  ghost function Then<T>(g: Gate<T>, a: Step<T>): Gate<T> {
    if Enabled(g, a) then Do(g, a) else g
  }

  lemma ExecSnoc<T>(g: Gate<T>, run: seq<Step<T>>, a: Step<T>)
    ensures Exec(g, run + [a]) == Then(Exec(g, run), a)
  {
    hide Enabled, Do;
    assert (run + [a])[..|run|] == run;
  }

  lemma ExecThree<T>(g: Gate<T>, a: Step<T>, b: Step<T>, c: Step<T>)
    ensures Exec(g, [a]) == Then(g, a)
    ensures Exec(g, [a, b, c]) == Then(Then(Then(g, a), b), c)
  {
    hide Enabled, Do;
    assert [a][..0] == [] && [a, b][..1] == [a] && [a, b, c][..2] == [a, b];
  }

  lemma {:induction false} ExecConcat<T>(g: Gate<T>, run: seq<Step<T>>, more: seq<Step<T>>)
    ensures Exec(g, run + more) == Exec(Exec(g, run), more)
    decreases |more|
  {
    hide Enabled, Do;
    if more == [] {
      assert run + more == run;
    } else {
      var front, a := more[..|more| - 1], more[|more| - 1];
      assert run + more == (run + front) + [a];
      ExecConcat(g, run, front);
      ExecSnoc(g, run + front, a);
    }
  }

  // ---- An error has a cause ----

  ghost predicate Refused<T>(g: Gate<T>, id: nat) {
    At(g, id, Leaving(false)) || At(g, id, Returned(false))
  }

  /** The moment at which a call learns that it fails: the flag is set, or the queue is full. */
  ghost predicate Refuses<T>(g: Gate<T>, a: Step<T>, id: nat) {
    || (a == Check(id) && At(g, id, Locked) && g.shuttingDown)
    || (a == Send(id) && At(g, id, Checked) && |g.queue| >= g.capacity)
  }

  lemma StepRefuses<T>(g: Gate<T>, a: Step<T>, id: nat)
    requires Enabled(g, a) && !Refused(g, id)
    ensures Refused(Do(g, a), id) ==> Refuses(g, a, id)
  {
  }

  /** In every run, a call that fails took a step, at some time, with the flag set or the queue full. */
  lemma {:induction false} ErrorHasCause<T>(capacity: nat, run: seq<Step<T>>, id: nat) returns (k: nat)
    requires Refused(Exec(Init<T>(capacity), run), id)
    ensures k < |run| && Refuses(Exec(Init<T>(capacity), run[..k]), run[k], id)
  {
    hide Enabled, Do, Refused, Refuses;
    if run == [] {
      assert false by {
        NobodyYet<T>(capacity, id);
      }
    } else {
      var n := |run| - 1;
      var before := Exec(Init<T>(capacity), run[..n]);
      if Refused(before, id) {
        k := ErrorHasCause(capacity, run[..n], id);
        assert run[..n][..k] == run[..k];
      } else {
        k := n;
        StepRefuses(before, run[n], id);
      }
    }
  }

  lemma NobodyYet<T>(capacity: nat, id: nat)
    ensures !Refused(Init<T>(capacity), id)
  {
  }

  // ---- Callers do not stand in each other's way ----

  /** A call and its phase at the end, the queue with it if it got in; everything else as before. */
  ghost function Answered<T>(g: Gate<T>, id: nat, ok: bool): Gate<T>
    requires id < |g.calls|
  {
    var h := Move(g, id, Returned(ok));
    if ok then h.(queue := g.queue + [id], accepted := g.accepted + [id]) else h
  }

  /**
   From every state that keeps the invariant, whatever the other callers and the owner are at: a caller that has the
   read lock gets through without waiting, and succeeds exactly if nothing is shutting down and there is room.
   */
  lemma CallIsAnswered<T>(g: Gate<T>, id: nat)
    requires Inv(g) && At(g, id, Locked)
    ensures Exec(g, [Check(id), Send(id), Leave(id)]) == Answered(g, id, !g.shuttingDown && |g.queue| < g.capacity)
  {
    ExecThree(g, Check(id), Send(id), Leave(id));
    hide Exec, Recorded;
  }

  /** A caller past the check can also hand its payload to an owner that waits in a receive; it succeeds. */
  lemma HandOffSucceeds<T>(g: Gate<T>, id: nat)
    requires Inv(g) && At(g, id, Locked) && !g.shuttingDown && g.queue == []
    ensures
      Exec(g, [Check(id), HandOff(id), Leave(id)])
      == Move(g, id, Returned(true)).(accepted := g.accepted + [id], received := g.received + [id])
  {
    ExecThree(g, Check(id), HandOff(id), Leave(id));
    hide Exec, Recorded;
    var checked := Move(g, id, Checked);
    assert Then(g, Check(id)) == checked;
    var handed := Move(g, id, Leaving(true)).(accepted := g.accepted + [id], received := g.received + [id]);
    assert handed.calls == checked.calls[id := checked.calls[id].(phase := Leaving(true))];
    assert Then(checked, HandOff(id)) == handed;
  }

  /** A new caller. */
  ghost function Joined<T>(g: Gate<T>, data: T): Gate<T> {
    g.(calls := g.calls + [Call(data, Locked)])
  }

  lemma JoinedIsInv<T>(g: Gate<T>, data: T)
    requires Inv(g) && g.closing !in {Waiting, Holding, Flagged}
    ensures Then(g, Begin(data)) == Joined(g, data) && Inv(Joined(g, data))
  {
    StepKeepsInv(g, Begin(data));
    hide Recorded;
  }

  /**
   A whole call of `Enqueue`, from every state that keeps the invariant and in which no writer has or wants the lock,
   whatever the other callers are at: it returns, and returns nil exactly if nothing is shutting down and there is room.
   */
  lemma CallReturns<T>(g: Gate<T>, data: T)
    requires Inv(g) && g.closing !in {Waiting, Holding, Flagged}
    ensures
      var n := |g.calls|;
      Exec(g, [Begin(data)] + [Check(n), Send(n), Leave(n)])
      == Answered(Joined(g, data), n, g.closing == Open && |g.queue| < g.capacity)
  {
    var n := |g.calls|;
    ExecThree(g, Begin(data), Check(n), Send(n));
    ExecConcat(g, [Begin(data)], [Check(n), Send(n), Leave(n)]);
    JoinedIsInv(g, data);
    CallIsAnswered(Joined(g, data), n);
    hide Exec, Recorded;
  }

  // ---- A shutdown neither starves nor starves anybody ----

  /** Steps by which calls under way go on. */
  ghost predicate IsCallers<T>(a: Step<T>) {
    a.Check? || a.Send? || a.Leave?
  }

  ghost predicate OnlyCallers<T>(run: seq<Step<T>>) {
    forall i :: 0 <= i < |run| ==> IsCallers(run[i])
  }

  /** One call comes to its end; no other call moves, and the owner does not. */
  lemma CallEnds<T>(g: Gate<T>, id: nat)
    requires Inv(g) && id < |g.calls|
    ensures
      var h := Exec(g, [Check(id), Send(id), Leave(id)]);
      && Inv(h) && h.closing == g.closing && h.capacity == g.capacity
      && |h.calls| == |g.calls| && !InFlight(h.calls[id].phase)
      && forall i :: 0 <= i < |g.calls| && i != id ==> h.calls[i] == g.calls[i]
  {
    RunKeepsInv(g, [Check(id), Send(id), Leave(id)]);
    ExecThree(g, Check(id), Send(id), Leave(id));
    hide Exec, Recorded;
  }

  /** The first `n` calls come to their end by steps of their own. */
  lemma {:induction false} CallsEnd<T>(g: Gate<T>, n: nat) returns (run: seq<Step<T>>)
    requires Inv(g) && n <= |g.calls|
    ensures OnlyCallers(run)
    ensures
      var h := Exec(g, run);
      && Inv(h) && h.closing == g.closing && |h.calls| == |g.calls|
      && forall i :: 0 <= i < n ==> !InFlight(h.calls[i].phase)
  {
    hide Exec, Inv;
    if n == 0 {
      run := [];
      NoSteps(g);
    } else {
      run := CallsEnd(g, n - 1);
      var h, more := Exec(g, run), [Check(n - 1), Send(n - 1), Leave(n - 1)];
      CallEnds(h, n - 1);
      ExecConcat(g, run, more);
      run := run + more;
    }
  }

  lemma NoSteps<T>(g: Gate<T>)
    ensures Exec(g, []) == g
  {
  }

  /** The owner's steps, with no reader left. */
  lemma OwnerUnlocks<T>(g: Gate<T>)
    requires Inv(g) && NoReaders(g) && g.closing in {Waiting, Holding, Flagged}
    ensures Exec(g, [Acquire, Flag, Unlock]) == g.(closing := Released, shuttingDown := true)
  {
    ExecThree(g, Acquire, Flag, Unlock);
    hide Exec, Recorded;
  }

  /**
   From the moment the owner asks for the lock, whatever the callers are at, no call is added until it unlocks, and
   the calls under way only have to go on by themselves for it to get there.
   */
  lemma OwnerIsNotStarved<T>(g: Gate<T>) returns (run: seq<Step<T>>)
    requires Inv(g) && g.closing in {Waiting, Holding, Flagged}
    ensures OnlyCallers(run)
    ensures
      var h := Exec(g, run + [Acquire, Flag, Unlock]);
      Inv(h) && h.closing == Released && |h.calls| == |g.calls|
  {
    run := CallsEnd(g, |g.calls|);
    var all := run + [Acquire, Flag, Unlock];
    OwnerUnlocks(Exec(g, run));
    ExecConcat(g, run, [Acquire, Flag, Unlock]);
    RunKeepsInv(g, all);
  }

  /** After the owner's unlock a call returns an error as soon as it looks at the flag. */
  lemma ClosedCallFails<T>(g: Gate<T>, data: T)
    requires Inv(g) && g.closing in {Released, Closed}
    ensures
      var n := |g.calls|;
      Exec(g, [Begin(data), Check(n), Leave(n)]) == g.(calls := g.calls + [Call(data, Returned(false))])
  {
    var n := |g.calls|;
    ExecThree(g, Begin(data), Check(n), Leave(n));
    hide Exec, QueueInv;
    JoinedIsInv(g, data);
    CheckFails(Joined(g, data), n);
    assert Joined(g, data).calls[n := Call(data, Returned(false))] == g.calls + [Call(data, Returned(false))];
    hide Inv, Then;
  }

  lemma CheckFails<T>(g: Gate<T>, id: nat)
    requires LockInv(g) && At(g, id, Locked) && g.shuttingDown
    ensures Then(Then(g, Check(id)), Leave(id)) == Move(g, id, Returned(false))
  {
    assert Then(g, Check(id)) == Move(g, id, Leaving(false));
  }

  /** The owner receives, asks for the lock and closes the channel whatever the callers are at. */
  lemma OwnerGoesOn<T>(g: Gate<T>)
    requires Inv(g)
    ensures g.queue != [] ==>
      Exec(g, [Receive]) == g.(queue := g.queue[1..], received := g.received + [g.queue[0]])
    ensures g.closing == Open ==> Exec(g, [Lock]) == g.(closing := Waiting)
    ensures g.closing == Released ==> Exec(g, [Close]) == g.(closing := Closed, closed := true)
  {
    ExecThree(g, Receive, Receive, Receive);
    ExecThree(g, Lock, Lock, Lock);
    ExecThree(g, Close, Close, Close);
    hide Exec, Recorded;
  }

  /** Until the owner unlocks nobody joins. */
  lemma {:induction false} NobodyJoins<T>(g: Gate<T>, run: seq<Step<T>>)
    requires g.closing in {Waiting, Holding, Flagged}
    requires forall i :: 0 <= i < |run| ==> run[i] != Unlock
    ensures Exec(g, run).closing in {Waiting, Holding, Flagged} && |Exec(g, run).calls| == |g.calls|
  {
    if run != [] {
      NobodyJoins(g, run[..|run| - 1]);
    }
  }

  /**
   A caller who comes while a writer has or wants the lock waits, but not forever: the calls under way and the owner
   only have to go on, and the call then returns an error.
   */
  lemma LateCallReturns<T>(g: Gate<T>, data: T) returns (run: seq<Step<T>>)
    requires Inv(g) && g.closing in {Waiting, Holding, Flagged}
    ensures OnlyCallers(run) && Exec(g, [Begin(data)]) == g
    ensures
      var n := |g.calls|;
      var h := Exec(g, (run + [Acquire, Flag, Unlock]) + ([Begin(data)] + [Check(n), Send(n), Leave(n)]));
      |h.calls| == n + 1 && h.calls[n] == Call(data, Returned(false))
  {
    run := OwnerIsNotStarved(g);
    var n, first := |g.calls|, run + [Acquire, Flag, Unlock];
    CallReturns(Exec(g, first), data);
    ExecConcat(g, first, [Begin(data)] + [Check(n), Send(n), Leave(n)]);
    ExecThree(g, Begin(data), Acquire, Flag);
    hide Exec, Inv;
  }
}
