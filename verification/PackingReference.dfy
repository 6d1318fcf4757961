/**
 The accumulator against the one-string packer that the application's own tests compare it with
 (`assembleResult`, pkg/app/app_test.go): one growing buffer, no chunk list, no length offset.
 */
module PackingReference {
  import opened Sequences
  import opened Packing

  datatype Assembly = Assembly(buffer: Bytes, result: seq<Bytes>)

  ghost function Emit(a: Assembly): Assembly {
    if |a.buffer| > 0 then Assembly([], a.result + [a.buffer]) else a
  }

  ghost function AssembleStep(c: Config, a: Assembly, value: Bytes): Assembly {
    if |value| >= c.limit then
      Assembly([], Emit(a).result + [value])
    else
      var a1 :=
        if |a.buffer| + |c.separator| + |value| > c.limit then Assembly(value, Emit(a).result)
        else if |a.buffer| != 0 then a.(buffer := a.buffer + c.separator + value)
        else a.(buffer := value);
      if |a1.buffer| == c.limit then Emit(a1) else a1
  }

  ghost function AssembleLoop(c: Config, values: seq<Bytes>): Assembly {
    if values == [] then Assembly([], [])
    else AssembleStep(c, AssembleLoop(c, values[..|values| - 1]), values[|values| - 1])
  }

  ghost function AssembleResult(c: Config, values: seq<Bytes>): seq<Bytes> {
    Emit(AssembleLoop(c, values)).result
  }

  /** The string packer's view of an accumulator state. */
  ghost function View(c: Config, s: State): Assembly {
    Assembly(Join(c, s.pending), Blocks(c, s.groups))
  }

  lemma BlocksSnoc(c: Config, gs: seq<Group>, g: Group)
    ensures Blocks(c, gs + [g]) == Blocks(c, gs) + [Join(c, g)]
  {
  }

  lemma FlushIsEmit(c: Config, s: State)
    requires AllNonEmpty(s.pending)
    ensures View(c, Flush(s)) == Emit(View(c, s))
  {
    if s.pending != [] {
      BlockIsNonEmpty(c, s.pending);
      BlocksSnoc(c, s.groups, s.pending);
    }
  }

  lemma AppendIsAssembleStep(c: Config, s: State, p: Bytes)
    requires c.Valid() && Inv(c, s) && |p| > 0
    ensures View(c, Append(c, s, p)) == AssembleStep(c, View(c, s), p)
  {
    FlushIsEmit(c, s);
    BufferLenIsBlockLen(c, s.pending);
    if s.pending != [] {
      BlockIsNonEmpty(c, s.pending);
    }
    if |p| >= c.limit {
      BlocksSnoc(c, Flush(s).groups, [p]);
    } else {
      JoinSnoc(c, s.pending, p);
      assert [] + [p] == [p];
      var appended := s.(pending := s.pending + [p]);
      FlushIsEmit(c, appended);
    }
  }

  lemma {:induction false} RunIsAssembleLoop(c: Config, ps: seq<Bytes>)
    requires c.Valid() && AllNonEmpty(ps)
    ensures View(c, AppendAll(c, EMPTY_STATE, ps)) == AssembleLoop(c, ps)
  {
    if ps != [] {
      var front := ps[..|ps| - 1];
      RunIsAssembleLoop(c, front);
      RunInv(c, front);
      AppendIsAssembleStep(c, AppendAll(c, EMPTY_STATE, front), ps[|ps| - 1]);
    }
  }

  /** For any payloads, the blocks of a complete run are the string packer's result on the non-empty ones, in order. */
  lemma {:induction false} PackRefinesAssembleResult(c: Config, ps: seq<Bytes>)
    requires c.Valid()
    ensures Blocks(c, Pack(c, ps)) == AssembleResult(c, NonEmpty(ps))
  {
    PackIgnoresEmpty(c, ps);
    NonEmptyIsNonEmpty(ps);
    RunIsAssembleLoop(c, NonEmpty(ps));
    RunInv(c, NonEmpty(ps));
    FlushIsEmit(c, AppendAll(c, EMPTY_STATE, NonEmpty(ps)));
  }
}
