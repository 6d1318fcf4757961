/** The accumulator that flushes by size only (pkg/accumulator/accumulator_by_size.go), with its state updated in place. */
module BySizeAccumulator {
  import opened Packing
  import opened Chunks
  import opened Downstream

  lemma TakeOne(before: seq<Bytes>, queued: seq<Bytes>, i: nat)
    requires i < |queued|
    ensures before + queued[..i] + [queued[i]] == before + queued[..i + 1]
  {
  }

  ghost function Buffered(s: State, p: Bytes, full: bool): State {
    var appended := s.(pending := s.pending + [p]);
    if full then Packing.Flush(appended) else appended
  }

  class BySize {
    const config: Config
    const queueCapacity: nat
    const next: NonBlockingUploader
    const circBreaker: CircuitBreaker
    var internalDataChan: seq<array<Byte>>
    const current: Slice
    var shuttingDown: bool
    /** The groups behind the blocks sent so far. */
    ghost var groups: seq<Group>
    /** The payloads appended so far. */
    ghost var taken: seq<Bytes>

    ghost predicate Valid()
      reads this, current, current.store, current.store[..], next, next.Handed()
    {
      && config.Valid()
      && current.Valid() && next.Valid() && !next.shuttingDown
      && |internalDataChan| <= queueCapacity
      && InStep()
    }

    /** What the uploader accepted are the blocks of the groups on record. */
    ghost predicate InStep()
      reads this, next, next.Handed()
    {
      Contents(next.Handed()) == Blocks(config, groups)
    }

    ghost function Model(): State
      reads this, current, current.store, current.store[..]
      requires current.Valid()
    {
      State(groups, current.Group())
    }

    /** Between two receives: the state is the one the payloads appended so far lead to. */
    ghost predicate Accumulating()
      reads this, current, current.store, current.store[..], next, next.Handed()
    {
      Valid() && Model() == AppendAll(config, EMPTY_STATE, taken)
    }

    constructor (config: Config, queueCapacity: nat, next: NonBlockingUploader, circBreaker: CircuitBreaker)
      requires config.Valid() && queueCapacity >= 2
      requires next.Valid() && !next.shuttingDown && next.Handed() == []
      ensures Accumulating() && !shuttingDown && fresh(current) && fresh(current.store)
      ensures taken == [] && internalDataChan == []
      ensures this.config == config && this.next == next && this.circBreaker == circBreaker
      ensures this.queueCapacity == queueCapacity
    {
      this.config := config;
      this.queueCapacity := queueCapacity;
      this.next := next;
      this.circBreaker := circBreaker;
      internalDataChan := [];
      current := new Slice(1024);
      shuttingDown := false;
      groups, taken := [], [];
    }

    method Enqueue(data: array<Byte>) returns (ok: bool)
      requires Valid()
      modifies this`internalDataChan
      ensures Valid()
      ensures ok <==> !shuttingDown && old(|internalDataChan|) < queueCapacity
      ensures internalDataChan == old(internalDataChan) + if ok then [data] else []
    {
      if shuttingDown {
        return false;
      }
      if |internalDataChan| < queueCapacity {
        internalDataChan := internalDataChan + [data];
        return true;
      }
      ok := false;
    }

    /** One payload; the blocks it sends are new arrays or the payload itself, and no array is ever written again. */
    method Append(data: array<Byte>)
      requires Valid()
      modifies current, current.store, this`groups, this`taken, next, circBreaker
      ensures current.SameOrNewStore()
      ensures Valid()
      ensures Model() == Packing.Append(config, old(Model()), data[..])
      ensures old(next.Handed()) <= next.Handed()
      ensures data.Length >= config.limit ==> next.Handed() != [] && next.Handed()[|next.Handed()| - 1] == data
      ensures forall k :: old(|next.Handed()|) <= k < |next.Handed()| ==> next.Handed()[k] == data || fresh(next.Handed()[k])
      ensures taken == old(taken) + [data[..]]
    {
      taken := taken + [data[..]];
      var dataLen := data.Length;
      if dataLen == 0 {
        return;
      }
      if dataLen >= config.limit {
        Flush();
        Send(data, [data[..]]);
        return;
      }
      AppendToBuffer(data);
    }

    /** The part of `Append` for payloads below the limit. */
    method AppendToBuffer(data: array<Byte>)
      requires 0 < data.Length < config.limit
      requires current.Valid() && next.Valid() && !next.shuttingDown && InStep()
      modifies current, current.store, this`groups, next, circBreaker
      ensures current.SameOrNewStore()
      ensures current.Valid() && next.Valid() && !next.shuttingDown && InStep()
      ensures Model() == Packing.Append(config, old(Model()), data[..])
      ensures old(next.Handed()) <= next.Handed()
      ensures forall k :: old(|next.Handed()|) <= k < |next.Handed()| ==> fresh(next.Handed()[k])
    {
      hide BufferLen, Join, Contents;
      var bufferLen := CurrentBufferLen(config, current);
      var bufferLenAfterAppend := bufferLen + |config.separator| + data.Length;
      if bufferLenAfterAppend > config.limit {
        Flush();
      }
      Buffer(data, bufferLenAfterAppend == config.limit);
    }

    /** The last part of `Append`: the payload joins what is buffered, which leaves if it is now full. */
    method Buffer(data: array<Byte>, full: bool)
      requires current.Valid() && next.Valid() && !next.shuttingDown && InStep()
      modifies current, current.store, this`groups, next, circBreaker
      ensures current.SameOrNewStore()
      ensures current.Valid() && next.Valid() && !next.shuttingDown && InStep()
      ensures Model() == Buffered(old(Model()), data[..], full)
      ensures old(next.Handed()) <= next.Handed()
      ensures forall k :: old(|next.Handed()|) <= k < |next.Handed()| ==> fresh(next.Handed()[k])
    {
      hide Contents;
      current.Add(data);
      if full {
        Flush();
      }
    }

    /** Sends the buffered payloads, if any, as one block. */
    method Flush()
      requires current.Valid() && next.Valid() && !next.shuttingDown
      requires InStep()
      modifies current`len, this`groups, next, circBreaker
      ensures current.Valid() && next.Valid() && !next.shuttingDown
      ensures Model() == Packing.Flush(old(Model()))
      ensures InStep()
      ensures old(next.Handed()) <= next.Handed()
      ensures forall k :: old(|next.Handed()|) <= k < |next.Handed()| ==> fresh(next.Handed()[k])
    {
      hide Contents, Join;
      if current.len == 0 {
        return;
      }
      var mergedData := Merge(config, current);
      Send(mergedData, current.Group());
      current.Truncate();
    }

    /** Hands one block over: retries until accepted, and only then is the group on record. */
    method Send(data: array<Byte>, ghost g: Group)
      requires next.Valid() && !next.shuttingDown
      requires InStep() && data[..] == Join(config, g)
      modifies this`groups, next, circBreaker
      ensures next.Valid() && !next.shuttingDown
      ensures next.Handed() == old(next.Handed()) + [data]
      ensures groups == old(groups) + [g]
      ensures InStep()
    {
      ghost var handed := next.Handed();
      EnqueueOnNext(circBreaker, next, data);
      HandOver(config, handed, data, groups, g);
      groups := groups + [g];
    }

    /** One receive of the run loop. */
    method Receive()
      requires Accumulating() && internalDataChan != []
      modifies this`internalDataChan, current, current.store, this`groups, this`taken, next, circBreaker
      ensures current.SameOrNewStore()
      ensures Accumulating()
      ensures internalDataChan == old(internalDataChan)[1..]
      ensures taken == old(taken) + [old(internalDataChan[0][..])]
    {
      var data := internalDataChan[0];
      internalDataChan := internalDataChan[1..];
      ghost var before := taken;
      hide Packing.Append, Contents, Blocks;
      Append(data);
      assert taken[..|before|] == before;
    }

    /** The receive loop of a shutdown: appends what the closed queue still holds, in order. */
    method Drain()
      requires Accumulating()
      modifies this`internalDataChan, current, current.store, this`groups, this`taken, next, circBreaker
      ensures current.SameOrNewStore()
      ensures Accumulating()
      ensures internalDataChan == []
      ensures taken == old(taken) + old(Contents(internalDataChan))
    {
      ghost var chan, queued := internalDataChan, Contents(internalDataChan);
      for i := 0 to |internalDataChan|
        invariant Accumulating() && current.SameOrNewStore()
        invariant internalDataChan == chan[i..]
        invariant Contents(chan) == queued
        invariant taken == old(taken) + queued[..i]
      {
        Receive();
        TakeOne(old(taken), queued, i);
      }
    }

    /**
     Everything appended before and everything still queued leaves exactly as one complete run packs it.
     */
    method Shutdown()
      requires !shuttingDown && Accumulating()
      modifies this, current, current.store, next, circBreaker
      ensures current.SameOrNewStore()
      ensures Valid() && shuttingDown && internalDataChan == [] && current.len == 0
      ensures taken == old(taken) + old(Contents(internalDataChan))
      ensures groups == Pack(config, taken)
      ensures Contents(next.Handed()) == Blocks(config, Pack(config, taken))
    {
      shuttingDown := true;
      Drain();
      Flush();
      assert |current.Group()| == 0;
    }
  }
}
