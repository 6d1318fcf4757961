/**
 The accumulators' way out: the uploader's bounded queue (pkg/uploader/uploader.go) behind a circuit breaker that
 either refuses a call or makes it once and returns its result (pkg/circuitbreaker).
 */
module Downstream {
  import opened Packing

  datatype Error = UploaderShuttingDown | QueueFull | BreakerOpen

  datatype Outcome = Accepted | Failed(error: Error)

  class NonBlockingUploader {
    const capacity: nat
    var internalDataChan: seq<array<Byte>>
    var shuttingDown: bool
    /** The uploader's goroutine is blocked in a receive, so the next send goes straight to it. */
    var receiverWaiting: bool
    /** What the goroutine has received. */
    ghost var received: seq<array<Byte>>

    constructor (capacity: nat)
      ensures Valid() && !shuttingDown && Handed() == [] && this.capacity == capacity
    {
      this.capacity := capacity;
      internalDataChan := [];
      shuttingDown := false;
      receiverWaiting := false;
      received := [];
    }

    ghost predicate Valid()
      reads this
    {
      |internalDataChan| <= capacity && (receiverWaiting ==> internalDataChan == [])
    }

    /** Everything the uploader ever accepted, in order. */
    ghost function Handed(): seq<array<Byte>>
      reads this
    {
      received + internalDataChan
    }

    method Enqueue(data: array<Byte>) returns (outcome: Outcome)
      requires Valid()
      modifies this
      ensures Valid() && shuttingDown == old(shuttingDown)
      ensures outcome == (if shuttingDown then Failed(UploaderShuttingDown)
                          else if old(receiverWaiting || |internalDataChan| < capacity) then Accepted
                          else Failed(QueueFull))
      ensures Handed() == old(Handed()) + if outcome.Accepted? then [data] else []
    {
      if shuttingDown {
        return Failed(UploaderShuttingDown);
      }
      if receiverWaiting {
        received := received + [data];
        receiverWaiting := false;
      } else if |internalDataChan| < capacity {
        internalDataChan := internalDataChan + [data];
      } else {
        return Failed(QueueFull);
      }
      outcome := Accepted;
    }

    /** The uploader's goroutine receives up to `count` payloads and, if it finds the queue empty, may wait there. */
    method Receive(count: nat, wait: bool)
      requires Valid()
      modifies this
      ensures Valid() && shuttingDown == old(shuttingDown) && Handed() == old(Handed())
      ensures count >= old(|internalDataChan|) ==> internalDataChan == []
      ensures internalDataChan == [] && wait ==> receiverWaiting
    {
      var n := if count < |internalDataChan| then count else |internalDataChan|;
      received := received + internalDataChan[..n];
      internalDataChan := internalDataChan[n..];
      receiverWaiting := internalDataChan == [] && (receiverWaiting || wait);
    }
  }

  /** What happens between two tries: how far the uploader gets, and whether the breaker refuses the next call. */
  datatype Turn = Turn(received: nat, waiting: bool, open: bool)

  /** The breaker and everything else that decides how a try ends; after the last turn the uploader is idle and the breaker closed. */
  class CircuitBreaker {
    var turns: seq<Turn>

    constructor (turns: seq<Turn>)
      ensures this.turns == turns
    {
      this.turns := turns;
    }

    /** One try: a refused or failed call leaves the queue as it was. */
    method Execute(next: NonBlockingUploader, data: array<Byte>) returns (outcome: Outcome)
      requires next.Valid() && !next.shuttingDown
      modifies this, next
      ensures next.Valid() && !next.shuttingDown
      ensures next.Handed() == old(next.Handed()) + if outcome.Accepted? then [data] else []
      ensures turns == if old(turns) == [] then [] else old(turns)[1..]
      ensures old(turns) == [] ==> outcome.Accepted?
    {
      if turns == [] {
        next.Receive(|next.internalDataChan|, true);
        outcome := next.Enqueue(data);
      } else {
        var turn := turns[0];
        turns := turns[1..];
        next.Receive(turn.received, turn.waiting);
        if turn.open {
          return Failed(BreakerOpen);
        }
        outcome := next.Enqueue(data);
      }
    }
  }

  /**
   `enqueueOnNext`: tries until the call succeeds. Whatever finite series of refusals and full queues comes first,
   exactly one copy of the block is accepted, after everything accepted before.
   */
  method EnqueueOnNext(circBreaker: CircuitBreaker, next: NonBlockingUploader, data: array<Byte>)
    requires next.Valid() && !next.shuttingDown
    modifies circBreaker, next
    ensures next.Valid() && !next.shuttingDown
    ensures next.Handed() == old(next.Handed()) + [data]
  {
    var err := circBreaker.Execute(next, data);
    while err.Failed?
      invariant next.Valid() && !next.shuttingDown
      invariant next.Handed() == old(next.Handed()) + if err.Accepted? then [data] else []
      decreases |circBreaker.turns|, err.Failed?
    {
      err := circBreaker.Execute(next, data);
    }
  }
}
