/** The accumulator that also flushes on a timer (pkg/accumulator/accumulator_by_time_n_size.go), with its state updated in place. */
module ByTimeAndSizeAccumulator {
  import opened Packing
  import opened TimedPacking
  import opened Chunks
  import opened Downstream

  /** Payloads received at the given clock readings. */
  ghost function Arrivals(payloads: seq<Bytes>, clock: seq<int>): seq<Event>
    requires |payloads| == |clock|
  {
    seq(|payloads|, i requires 0 <= i < |payloads| => Arrive(payloads[i], clock[i]))
  }

  lemma ArriveOne(before: seq<Event>, queued: seq<Bytes>, clock: seq<int>, i: nat)
    requires |queued| == |clock| && i < |queued|
    ensures before + Arrivals(queued, clock)[..i] + [Arrive(queued[i], clock[i])]
         == before + Arrivals(queued, clock)[..i + 1]
  {
  }

  ghost function Buffered(s: TimedState, p: Bytes, now: int, full: bool): TimedState {
    var appended := TimedState(State(s.acc.groups, s.acc.pending + [p]), now);
    if full then TimedFlush(appended) else appended
  }

  class ByTimeAndSize {
    const config: Config
    const forceFlushAfter: int
    const queueCapacity: nat
    const next: NonBlockingUploader
    const circBreaker: CircuitBreaker
    var internalDataChan: seq<array<Byte>>
    const current: Slice
    var shuttingDown: bool
    var oldestDataTime: int
    /** The groups behind the blocks sent so far. */
    ghost var groups: seq<Group>
    /** The arrivals and ticks handled so far. */
    ghost var events: seq<Event>

    ghost predicate Valid()
      reads this, current, current.store, current.store[..], next, next.Handed()
    {
      config.Valid() && current.Valid() && next.Valid() && !next.shuttingDown
      && |internalDataChan| <= queueCapacity && InStep()
    }

    /** What the uploader accepted are the blocks of the groups on record. */
    ghost predicate InStep()
      reads this, next, next.Handed()
    {
      Contents(next.Handed()) == Blocks(config, groups)
    }

    ghost function Model(): TimedState
      reads this, current, current.store, current.store[..]
      requires current.Valid()
    {
      TimedState(State(groups, current.Group()), oldestDataTime)
    }

    /** Between two turns of the run loop: the state is the one the events handled so far lead to. */
    ghost predicate Accumulating()
      reads this, current, current.store, current.store[..], next, next.Handed()
    {
      Valid() && Model() == TimedPacking.Run(config, forceFlushAfter, events)
    }

    constructor (config: Config, queueCapacity: nat, next: NonBlockingUploader, circBreaker: CircuitBreaker, forceFlushAfter: int)
      requires config.Valid() && queueCapacity >= 2
      requires next.Valid() && !next.shuttingDown && next.Handed() == []
      ensures fresh(current) && fresh(current.store)
      ensures Accumulating() && !shuttingDown && events == [] && internalDataChan == []
      ensures this.config == config && this.next == next && this.circBreaker == circBreaker
      ensures this.forceFlushAfter == forceFlushAfter && this.queueCapacity == queueCapacity
    {
      this.config := config;
      this.forceFlushAfter := forceFlushAfter;
      this.next := next;
      this.circBreaker := circBreaker;
      this.queueCapacity := queueCapacity;
      internalDataChan := [];
      current := new Slice(1024);
      shuttingDown := false;
      oldestDataTime := ZERO_TIME;
      groups, events := [], [];
    }

    method Enqueue(data: array<Byte>) returns (ok: bool)
      requires Valid()
      modifies this`internalDataChan
      ensures Valid()
      ensures ok <==> !shuttingDown && old(|internalDataChan|) < queueCapacity
      ensures internalDataChan == old(internalDataChan) + if ok then [data] else []
    {
      if shuttingDown {
        return false;
      }
      if |internalDataChan| < queueCapacity {
        internalDataChan := internalDataChan + [data];
        return true;
      }
      ok := false;
    }

    /** The receive branch of the run loop: one payload, and `now` for when the accumulator reads its clock. */
    method Receive(now: int)
      requires Accumulating() && internalDataChan != []
      modifies this`internalDataChan, current, current.store, this`oldestDataTime, this`groups, this`events, next, circBreaker
      ensures current.SameOrNewStore()
      ensures Accumulating()
      ensures internalDataChan == old(internalDataChan)[1..]
      ensures events == old(events) + [Arrive(old(internalDataChan[0][..]), now)]
    {
      var data := internalDataChan[0];
      internalDataChan := internalDataChan[1..];
      ghost var before := Model();
      Append(data, now);
      Record(before, Arrive(data[..], now));
    }

    /** Puts one handled event on record. */
    ghost method Record(before: TimedState, e: Event)
      requires Valid() && before == TimedPacking.Run(config, forceFlushAfter, events)
      requires Model() == Handle(config, forceFlushAfter, before, e)
      modifies this`events
      ensures Accumulating() && events == old(events) + [e]
    {
      hide Handle, TimedPacking.Run;
      RunSnoc(config, forceFlushAfter, events, e);
      events := events + [e];
    }

    /** The tick branch of the run loop. */
    method HandleTick(now: int)
      requires Accumulating()
      modifies current, current.store, this`oldestDataTime, this`groups, this`events, next, circBreaker
      ensures current.SameOrNewStore()
      ensures Accumulating()
      ensures events == old(events) + [Tick(now)]
    {
      ghost var before := Model();
      if oldestDataTime != ZERO_TIME && now - oldestDataTime >= forceFlushAfter {
        Flush();
      }
      Record(before, Tick(now));
    }

    method Append(data: array<Byte>, now: int)
      requires Valid()
      modifies current, current.store, this`oldestDataTime, this`groups, next, circBreaker
      ensures current.SameOrNewStore()
      ensures Valid()
      ensures Model() == TimedAppend(config, old(Model()), data[..], now)
      ensures old(next.Handed()) <= next.Handed()
      ensures data.Length >= config.limit ==> next.Handed() != [] && next.Handed()[|next.Handed()| - 1] == data
      ensures forall k :: old(|next.Handed()|) <= k < |next.Handed()| ==> next.Handed()[k] == data || fresh(next.Handed()[k])
    {
      var dataLen := data.Length;
      if dataLen == 0 {
        return;
      }
      if dataLen >= config.limit {
        Flush();
        Send(data, [data[..]]);
        return;
      }
      AppendToBuffer(data, now);
    }

    /** The part of `Append` for payloads below the limit. */
    method AppendToBuffer(data: array<Byte>, now: int)
      requires 0 < data.Length < config.limit
      requires current.Valid() && next.Valid() && !next.shuttingDown && InStep()
      modifies current, current.store, this`oldestDataTime, this`groups, next, circBreaker
      ensures current.SameOrNewStore()
      ensures current.Valid() && next.Valid() && !next.shuttingDown && InStep()
      ensures Model() == TimedAppend(config, old(Model()), data[..], now)
      ensures old(next.Handed()) <= next.Handed()
      ensures forall k :: old(|next.Handed()|) <= k < |next.Handed()| ==> fresh(next.Handed()[k])
    {
      hide BufferLen, Join, Contents;
      var bufferLen := CurrentBufferLen(config, current);
      var bufferLenAfterAppend := bufferLen + |config.separator| + data.Length;
      if bufferLenAfterAppend > config.limit {
        Flush();
      }
      Buffer(data, now, bufferLenAfterAppend == config.limit);
    }

    /** The last part of `Append`: the payload joins what is buffered, which leaves if it is now full. */
    method Buffer(data: array<Byte>, now: int, full: bool)
      requires current.Valid() && next.Valid() && !next.shuttingDown && InStep()
      modifies current, current.store, this`oldestDataTime, this`groups, next, circBreaker
      ensures current.SameOrNewStore()
      ensures current.Valid() && next.Valid() && !next.shuttingDown && InStep()
      ensures Model() == Buffered(old(Model()), data[..], now, full)
      ensures old(next.Handed()) <= next.Handed()
      ensures forall k :: old(|next.Handed()|) <= k < |next.Handed()| ==> fresh(next.Handed()[k])
    {
      hide Contents;
      current.Add(data);
      oldestDataTime := now;
      if full {
        Flush();
      }
    }

    /** Sends the buffered payloads, if any, as one block and forgets their time. */
    method Flush()
      requires current.Valid() && next.Valid() && !next.shuttingDown && InStep()
      modifies current`len, this`oldestDataTime, this`groups, next, circBreaker
      ensures current.Valid() && next.Valid() && !next.shuttingDown && InStep()
      ensures Model() == TimedFlush(old(Model()))
      ensures old(next.Handed()) <= next.Handed()
      ensures forall k :: old(|next.Handed()|) <= k < |next.Handed()| ==> fresh(next.Handed()[k])
    {
      hide Contents, Join;
      if current.len == 0 {
        return;
      }
      var mergedData := Merge(config, current);
      Send(mergedData, current.Group());
      current.Truncate();
      oldestDataTime := ZERO_TIME;
    }

    /** Hands one block over: retries until accepted, and only then is the group on record. */
    method Send(data: array<Byte>, ghost g: Group)
      requires next.Valid() && !next.shuttingDown && InStep()
      requires data[..] == Join(config, g)
      modifies this`groups, next, circBreaker
      ensures next.Valid() && !next.shuttingDown && InStep()
      ensures next.Handed() == old(next.Handed()) + [data]
      ensures groups == old(groups) + [g]
    {
      ghost var handed := next.Handed();
      EnqueueOnNext(circBreaker, next, data);
      HandOver(config, handed, data, groups, g);
      groups := groups + [g];
    }

    /** The receive loop of a shutdown, with the clock readings of the run loop's last receives. */
    method Drain(clock: seq<int>)
      requires Accumulating() && |clock| == |internalDataChan|
      modifies this`internalDataChan, current, current.store, this`oldestDataTime, this`groups, this`events, next, circBreaker
      ensures current.SameOrNewStore()
      ensures Accumulating()
      ensures internalDataChan == []
      ensures events == old(events) + Arrivals(old(Contents(internalDataChan)), clock)
    {
      hide TimedPacking.Run;
      ghost var chan, queued := internalDataChan, Contents(internalDataChan);
      for i := 0 to |internalDataChan|
        invariant Accumulating() && current.SameOrNewStore()
        invariant internalDataChan == chan[i..]
        invariant Contents(chan) == queued
        invariant events == old(events) + Arrivals(queued, clock)[..i]
      {
        Receive(clock[i]);
        ArriveOne(old(events), queued, clock, i);
      }
    }

    /** Everything appended before and everything still queued leaves exactly as the complete timed run packs it. */
    method Shutdown(clock: seq<int>)
      requires !shuttingDown && Accumulating() && |clock| == |internalDataChan|
      modifies this, current, current.store, next, circBreaker
      ensures current.SameOrNewStore()
      ensures Valid() && shuttingDown && internalDataChan == [] && current.len == 0 && oldestDataTime == ZERO_TIME
      ensures events == old(events) + Arrivals(old(Contents(internalDataChan)), clock)
      ensures groups == TimedPack(config, forceFlushAfter, events)
      ensures Contents(next.Handed()) == Blocks(config, TimedPack(config, forceFlushAfter, events))
    {
      shuttingDown := true;
      Drain(clock);
      OldestIsLastStamp(config, forceFlushAfter, events);
      Flush();
      assert |current.Group()| == 0;
    }
  }
}
