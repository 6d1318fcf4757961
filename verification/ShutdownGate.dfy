/**
 A component's input queue and its shutdown, as the accumulators and the uploader both have it: callers of `Enqueue`
 take a read lock, look at `shuttingDown` and try a non-blocking send; the owner takes the write lock, sets
 `shuttingDown`, unlocks, closes the channel and drains it. Every step of every goroutine is a step of the system,
 in any interleaving (pkg/accumulator/accumulator_by_size.go, pkg/uploader/uploader.go).
 */
module ShutdownGate {
  import opened Sequences

  /** Where one call of `Enqueue` is. */
  datatype Phase = Locked | Checked | Leaving(ok: bool) | Returned(ok: bool)

  datatype Call<T> = Call(data: T, phase: Phase)

  /** Where the owner is in its shutdown. */
  datatype Closing = Open | Waiting | Holding | Flagged | Released | Closed

  /** Calls are numbered in the order they take the read lock; the channel holds call numbers. */
  datatype Gate<T> = Gate(
    capacity: nat,
    calls: seq<Call<T>>,
    closing: Closing,
    shuttingDown: bool,
    closed: bool,
    panicked: bool,
    queue: seq<nat>,
    accepted: seq<nat>,
    received: seq<nat>)

  datatype Step<T> =
    | Begin(data: T)   // a caller takes the read lock
    | Check(id: nat)   // and looks at shuttingDown
    | Send(id: nat)    // and tries to send
    | HandOff(id: nat) // or sends to the owner waiting in a receive
    | Leave(id: nat)   // and unlocks and returns
    | Lock             // the owner asks for the write lock
    | Acquire          // and gets it
    | Flag             // and sets shuttingDown
    | Unlock
    | Close            // and closes the channel
    | Receive          // the owner receives

  ghost function Init<T>(capacity: nat): Gate<T> {
    Gate(capacity, [], Open, false, false, false, [], [], [])
  }

  ghost predicate InFlight(p: Phase) {
    !p.Returned?
  }

  ghost predicate NoReaders<T>(g: Gate<T>) {
    forall i :: 0 <= i < |g.calls| ==> !InFlight(g.calls[i].phase)
  }

  ghost predicate At<T>(g: Gate<T>, id: nat, p: Phase) {
    id < |g.calls| && g.calls[id].phase == p
  }

  /** New readers wait while a writer waits for the lock or holds it. */
  ghost predicate Enabled<T>(g: Gate<T>, a: Step<T>) {
    !g.panicked
    && match a
       case Begin(_) => g.closing !in {Waiting, Holding, Flagged}
       case Check(id) => At(g, id, Locked)
       case Send(id) => At(g, id, Checked)
       case HandOff(id) => At(g, id, Checked) && g.queue == [] && !g.closed
       case Leave(id) => At(g, id, Leaving(true)) || At(g, id, Leaving(false))
       case Lock => g.closing == Open
       case Acquire => g.closing == Waiting && NoReaders(g)
       case Flag => g.closing == Holding
       case Unlock => g.closing == Flagged
       case Close => g.closing == Released
       case Receive => g.queue != []
  }

  ghost function Move<T>(g: Gate<T>, id: nat, p: Phase): Gate<T>
    requires id < |g.calls|
  {
    g.(calls := g.calls[id := g.calls[id].(phase := p)])
  }

  ghost function Do<T>(g: Gate<T>, a: Step<T>): Gate<T>
    requires Enabled(g, a)
  {
    match a
    case Begin(data) => g.(calls := g.calls + [Call(data, Locked)])
    case Check(id) => Move(g, id, if g.shuttingDown then Leaving(false) else Checked)
    case Send(id) =>
      if g.closed then g.(panicked := true)
      else if |g.queue| < g.capacity then
        Move(g, id, Leaving(true)).(queue := g.queue + [id], accepted := g.accepted + [id])
      else Move(g, id, Leaving(false))
    case HandOff(id) =>
      Move(g, id, Leaving(true)).(accepted := g.accepted + [id], received := g.received + [id])
    case Leave(id) => Move(g, id, Returned(g.calls[id].phase.ok))
    case Lock => g.(closing := Waiting)
    case Acquire => g.(closing := Holding)
    case Flag => g.(closing := Flagged, shuttingDown := true)
    case Unlock => g.(closing := Released)
    case Close => g.(closing := Closed, closed := true)
    case Receive => g.(queue := g.queue[1..], received := g.received + [g.queue[0]])
  }

  /** Lock, flag and channel agree, and a caller that passed the check holds the shutdown up. */
  ghost predicate LockInv<T>(g: Gate<T>) {
    && !g.panicked
    && (g.shuttingDown <==> g.closing in {Flagged, Released, Closed})
    && (g.closed <==> g.closing == Closed)
    && (g.closing in {Holding, Flagged} ==> NoReaders(g))
    && (forall i :: 0 <= i < |g.calls| && g.calls[i].phase == Checked ==> g.closing in {Open, Waiting})
  }

  ghost predicate Succeeded(p: Phase) {
    p == Leaving(true) || p == Returned(true)
  }

  /** The calls that succeeded are on record, each once. */
  ghost predicate Recorded<T>(g: Gate<T>) {
    && Distinct(g.accepted)
    && (forall i :: i in g.accepted ==> i < |g.calls|)
    && (forall i :: 0 <= i < |g.calls| ==> (i in g.accepted <==> Succeeded(g.calls[i].phase)))
  }

  /** The channel is first-in first-out, and holds what succeeded and was not yet received. */
  ghost predicate QueueInv<T>(g: Gate<T>) {
    && |g.queue| <= g.capacity
    && g.accepted == g.received + g.queue
    && Recorded(g)
  }

  ghost predicate Inv<T>(g: Gate<T>) {
    LockInv(g) && QueueInv(g)
  }

  lemma StepKeepsLockInv<T>(g: Gate<T>, a: Step<T>)
    requires LockInv(g) && Enabled(g, a)
    ensures LockInv(Do(g, a))
  {
  }

  lemma AcceptIsRecorded<T>(g: Gate<T>, id: nat)
    requires Recorded(g) && id < |g.calls| && !Succeeded(g.calls[id].phase)
    ensures Recorded(Move(g, id, Leaving(true)).(accepted := g.accepted + [id]))
  {
    assert id !in g.accepted;
    assert Distinct(g.accepted + [id]);
  }

  lemma StepKeepsRecord<T>(g: Gate<T>, a: Step<T>)
    requires LockInv(g) && Recorded(g) && Enabled(g, a)
    ensures Recorded(Do(g, a))
  {
    if a.Send? || a.HandOff? {
      AcceptIsRecorded(g, a.id);
    }
  }

  lemma StepKeepsOrder<T>(g: Gate<T>, a: Step<T>)
    requires |g.queue| <= g.capacity && g.accepted == g.received + g.queue && Enabled(g, a)
    ensures var h := Do(g, a); |h.queue| <= h.capacity && h.accepted == h.received + h.queue
  {
    if a.Receive? {
      assert g.queue == [g.queue[0]] + g.queue[1..];
    }
  }

  lemma StepKeepsInv<T>(g: Gate<T>, a: Step<T>)
    requires Inv(g) && Enabled(g, a)
    ensures Inv(Do(g, a))
  {
    hide Recorded, LockInv, Enabled, Do;
    StepKeepsLockInv(g, a);
    StepKeepsRecord(g, a);
    StepKeepsOrder(g, a);
  }

  // ---- All interleavings ----

  /** The state after some attempted steps, in order; an attempt that is not enabled changes nothing. */
  ghost function Exec<T>(g: Gate<T>, run: seq<Step<T>>): Gate<T> {
    if run == [] then g
    else
      var before, a := Exec(g, run[..|run| - 1]), run[|run| - 1];
      if Enabled(before, a) then Do(before, a) else before
  }

  lemma {:induction false} RunKeepsInv<T>(g: Gate<T>, run: seq<Step<T>>)
    requires Inv(g)
    ensures Inv(Exec(g, run)) && Exec(g, run).capacity == g.capacity
  {
    hide Inv;
    if run != [] {
      var front, a := run[..|run| - 1], run[|run| - 1];
      RunKeepsInv(g, front);
      if Enabled(Exec(g, front), a) {
        StepKeepsInv(Exec(g, front), a);
      }
    }
  }

  /**
   In every interleaving of any number of callers with the shutdown: nobody sends on the closed channel; a call that
   returned nil put its payload in the queue exactly once and one that returned an error left no trace; and payloads
   are received in the order they were accepted.
   */
  lemma EnqueueAgainstShutdown<T>(capacity: nat, run: seq<Step<T>>)
    ensures
      var g := Exec(Init<T>(capacity), run);
      && !g.panicked
      && |g.queue| <= capacity
      && g.accepted == g.received + g.queue && Distinct(g.accepted)
      && (forall i :: 0 <= i < |g.calls| && g.calls[i].phase == Returned(true) ==> i in g.accepted)
      && (forall i :: 0 <= i < |g.calls| && g.calls[i].phase == Returned(false) ==> i !in g.accepted)
  {
    RunKeepsInv(Init<T>(capacity), run);
  }

  lemma StepAfterLock<T>(g: Gate<T>, a: Step<T>)
    requires LockInv(g) && g.closing !in {Open, Waiting} && Enabled(g, a)
    ensures Do(g, a).closing !in {Open, Waiting} && Do(g, a).accepted == g.accepted
  {
  }

  /** From the moment the owner has the write lock, nothing more is accepted, so draining the queue drains everything. */
  lemma {:induction false} NothingAcceptedAfterLock<T>(g: Gate<T>, run: seq<Step<T>>)
    requires Inv(g) && g.closing !in {Open, Waiting}
    ensures Exec(g, run).closing !in {Open, Waiting}
    ensures Exec(g, run).accepted == g.accepted
    ensures Exec(g, run).queue == [] ==> Exec(g, run).received == g.accepted
  {
    hide Recorded, LockInv, Enabled, Do;
    if run != [] {
      var front, a := run[..|run| - 1], run[|run| - 1];
      NothingAcceptedAfterLock(g, front);
      RunKeepsInv(g, front);
      if Enabled(Exec(g, front), a) {
        StepAfterLock(Exec(g, front), a);
      }
    }
    RunKeepsInv(g, run);
    assert Exec(g, run).received + [] == Exec(g, run).received;
  }
}
