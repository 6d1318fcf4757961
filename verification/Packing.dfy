/**
 The accumulator's packing rule, on values: payloads arrive one at a time, wait in a pending group, and
 leave as groups whose members are joined by a separator (pkg/accumulator/accumulator_by_size.go).

 `Append` and `Flush` are the specification the imperative accumulators are proved against; the lemmas here
 say what every run of them keeps.
 */
module Packing {
  import opened Sequences

  newtype Byte = x: int | 0 <= x < 256

  type Bytes = seq<Byte>

  /** A group is a run of consecutive payloads that leave in one block. */
  type Group = seq<Bytes>

  /** What the constructor accepts; every other configuration panics. */
  datatype Config = Config(limit: int, separator: Bytes) {
    ghost predicate Valid() {
      limit > 1 && |separator| < limit
    }
  }

  datatype State = State(groups: seq<Group>, pending: Group)

  const EMPTY_STATE := State([], [])

  /** The block a group becomes: its members with a separator between neighbours. */
  ghost function Join(c: Config, g: Group): Bytes {
    if g == [] then []
    else if |g| == 1 then g[0]
    else Join(c, g[..|g| - 1]) + c.separator + g[|g| - 1]
  }

  /** The bytes of some payloads or blocks together. */
  ghost function TotalBytes(g: seq<Bytes>): nat {
    if g == [] then 0 else TotalBytes(g[..|g| - 1]) + |g[|g| - 1]|
  }

  /** The bytes of a group's payloads, each followed by a separator. */
  ghost function Span(c: Config, g: Group): nat {
    if g == [] then 0 else Span(c, g[..|g| - 1]) + |g[|g| - 1]| + |c.separator|
  }

  /** Length of the block of a group, in the accumulator's arithmetic: minus one separator when the group is empty. */
  ghost function BufferLen(c: Config, g: Group): int {
    Span(c, g) - |c.separator|
  }

  ghost function Blocks(c: Config, gs: seq<Group>): seq<Bytes> {
    seq(|gs|, i requires 0 <= i < |gs| => Join(c, gs[i]))
  }

  ghost function Flush(s: State): State {
    if s.pending == [] then s else State(s.groups + [s.pending], [])
  }

  ghost function Append(c: Config, s: State, p: Bytes): State {
    if |p| == 0 then s
    else if |p| >= c.limit then
      State(Flush(s).groups + [[p]], [])
    else
      var lenAfter := BufferLen(c, s.pending) + |c.separator| + |p|;
      var flushed := if lenAfter > c.limit then Flush(s) else s;
      var appended := flushed.(pending := flushed.pending + [p]);
      if lenAfter == c.limit then Flush(appended) else appended
  }

  ghost function AppendAll(c: Config, s: State, ps: seq<Bytes>): State {
    if ps == [] then s else Append(c, AppendAll(c, s, ps[..|ps| - 1]), ps[|ps| - 1])
  }

  /** The groups of a complete run: all payloads appended, then the flush of shutdown. */
  ghost function Pack(c: Config, ps: seq<Bytes>): seq<Group> {
    Flush(AppendAll(c, EMPTY_STATE, ps)).groups
  }

  ghost function NonEmpty(ps: seq<Bytes>): seq<Bytes> {
    if ps == [] then []
    else NonEmpty(ps[..|ps| - 1]) + if |ps[|ps| - 1]| == 0 then [] else [ps[|ps| - 1]]
  }

  ghost predicate AllNonEmpty(ps: seq<Bytes>) {
    forall i :: 0 <= i < |ps| ==> |ps[i]| > 0
  }

  /** A group that may leave as one block: a single payload, or a join within the limit. */
  ghost predicate Feasible(c: Config, g: Group) {
    g != [] && AllNonEmpty(g) && (|g| == 1 || BufferLen(c, g) <= c.limit)
  }

  /** What holds between any two calls of the accumulator, timeouts included. */
  ghost predicate Inv(c: Config, s: State) {
    && (forall i :: 0 <= i < |s.groups| ==> Feasible(c, s.groups[i]))
    && AllNonEmpty(s.pending)
    && (s.pending != [] ==> BufferLen(c, s.pending) < c.limit)
  }

  // ---- Lengths ----

  lemma TotalBytesSnoc(g: Group, p: Bytes)
    ensures TotalBytes(g + [p]) == TotalBytes(g) + |p|
  {
    assert (g + [p])[..|g|] == g;
  }

  lemma BufferLenSnoc(c: Config, g: Group, p: Bytes)
    ensures BufferLen(c, g + [p]) == BufferLen(c, g) + |c.separator| + |p|
  {
    assert (g + [p])[..|g|] == g;
  }

  lemma JoinSnoc(c: Config, g: Group, p: Bytes)
    ensures Join(c, g + [p]) == if g == [] then p else Join(c, g) + c.separator + p
  {
    assert (g + [p])[..|g|] == g;
  }

  /** The accumulator's length arithmetic is the length of the joined block, or minus a separator when empty. */
  lemma {:induction false} BufferLenIsBlockLen(c: Config, g: Group)
    ensures BufferLen(c, g) == if g == [] then -|c.separator| else |Join(c, g)|
  {
    if |g| == 1 {
      assert g[..0] == [];
    } else if |g| > 1 {
      SnocSplit(g);
      BufferLenIsBlockLen(c, g[..|g| - 1]);
      BufferLenSnoc(c, g[..|g| - 1], g[|g| - 1]);
    }
  }

  lemma {:induction false} TotalBytesConcat(a: Group, b: Group)
    ensures TotalBytes(a + b) == TotalBytes(a) + TotalBytes(b)
    decreases |b|
  {
    if b == [] {
      assert a + b == a;
    } else {
      SnocSplit(b);
      var front, last := b[..|b| - 1], b[|b| - 1];
      TotalBytesConcat(a, front);
      assert a + b == (a + front) + [last];
      TotalBytesSnoc(a + front, last);
    }
  }

  lemma {:induction false} SpanConcat(c: Config, a: Group, b: Group)
    ensures Span(c, a + b) == Span(c, a) + Span(c, b)
    decreases |b|
  {
    if b == [] {
      assert a + b == a;
    } else {
      SnocSplit(b);
      var front, last := b[..|b| - 1], b[|b| - 1];
      SpanConcat(c, a, front);
      assert a + b == (a + front) + [last];
      BufferLenSnoc(c, a + front, last);
    }
  }

  /** A part of a group is no longer than the group. */
  lemma BufferLenPart(c: Config, a: Group, b: Group)
    ensures BufferLen(c, a) <= BufferLen(c, a + b)
    ensures BufferLen(c, b) <= BufferLen(c, a + b)
  {
    SpanConcat(c, a, b);
  }

  // ---- What every step keeps ----

  lemma FlushKeepsInv(c: Config, s: State)
    requires Inv(c, s)
    ensures Inv(c, Flush(s))
  {
    if s.pending != [] {
      assert Feasible(c, s.pending);
    }
  }

  lemma PushKeepsInv(c: Config, s: State, p: Bytes)
    requires Inv(c, s) && |p| > 0 && BufferLen(c, s.pending + [p]) < c.limit
    ensures Inv(c, s.(pending := s.pending + [p]))
  {
  }

  lemma SingleLen(c: Config, p: Bytes)
    ensures BufferLen(c, [p]) == |p| && Feasible(c, [p]) == (|p| > 0)
  {
    BufferLenSnoc(c, [], p);
    assert [] + [p] == [p] && [p][0] == p;
  }

  lemma AppendKeepsInv(c: Config, s: State, p: Bytes)
    requires c.Valid() && Inv(c, s)
    ensures Inv(c, Append(c, s, p))
  {
    hide BufferLen;
    FlushKeepsInv(c, s);
    SingleLen(c, p);
    BufferLenSnoc(c, s.pending, p);
    if 0 < |p| < c.limit {
      var lenAfter := BufferLen(c, s.pending + [p]);
      if lenAfter > c.limit {
        assert [] + [p] == [p];
        PushKeepsInv(c, Flush(s), p);
      } else if lenAfter < c.limit {
        PushKeepsInv(c, s, p);
      } else {
        assert Feasible(c, s.pending + [p]);
      }
    }
  }

  /** The payloads a state holds, sent or pending, in order. */
  ghost function Held(s: State): seq<Bytes> {
    Flatten(s.groups) + s.pending
  }

  lemma FlushKeepsPayloads(s: State)
    ensures Held(Flush(s)) == Held(s) == Flatten(Flush(s).groups)
    ensures Flush(s).pending == []
  {
    FlattenSnoc(s.groups, s.pending);
  }

  lemma PushHolds(s: State, p: Bytes)
    ensures Held(s.(pending := s.pending + [p])) == Held(s) + [p]
  {
    assert Flatten(s.groups) + (s.pending + [p]) == Held(s) + [p];
  }

  /** Payloads are neither lost, duplicated nor reordered by one call. */
  lemma AppendKeepsPayloads(c: Config, s: State, p: Bytes)
    ensures Held(Append(c, s, p)) == Held(s) + NonEmpty([p])
  {
    assert [p][..0] == [];
    assert NonEmpty([p]) == if |p| == 0 then [] else [p];
    FlushKeepsPayloads(s);
    if |p| == 0 {
    } else if |p| >= c.limit {
      FlattenSnoc(Flush(s).groups, [p]);
    } else {
      var flushed := if BufferLen(c, s.pending) + |c.separator| + |p| > c.limit then Flush(s) else s;
      PushHolds(flushed, p);
      FlushKeepsPayloads(flushed.(pending := flushed.pending + [p]));
    }
  }

  lemma NonEmptySnoc(ps: seq<Bytes>, p: Bytes)
    ensures NonEmpty(ps + [p]) == NonEmpty(ps) + NonEmpty([p])
  {
    assert (ps + [p])[..|ps|] == ps;
    assert [p][..0] == [];
  }

  /** Every run keeps the size discipline, and holds exactly the non-empty payloads taken so far, in order. */
  lemma {:induction false} RunInv(c: Config, ps: seq<Bytes>)
    requires c.Valid()
    ensures Inv(c, AppendAll(c, EMPTY_STATE, ps))
    ensures Held(AppendAll(c, EMPTY_STATE, ps)) == NonEmpty(ps)
  {
    if ps != [] {
      SnocSplit(ps);
      var front, p := ps[..|ps| - 1], ps[|ps| - 1];
      RunInv(c, front);
      AppendKeepsInv(c, AppendAll(c, EMPTY_STATE, front), p);
      AppendKeepsPayloads(c, AppendAll(c, EMPTY_STATE, front), p);
      NonEmptySnoc(front, p);
    }
  }

  lemma FlushIsFeasible(c: Config, s: State)
    requires Inv(c, s)
    ensures forall i :: 0 <= i < |Flush(s).groups| ==> Feasible(c, Flush(s).groups[i])
  {
    if s.pending != [] {
      assert Feasible(c, s.pending);
    }
  }

  /** A complete run's groups are an order-preserving split of the non-empty payloads into feasible groups. */
  lemma {:induction false} PackIsSplit(c: Config, ps: seq<Bytes>)
    requires c.Valid()
    ensures IsSplit(c, Pack(c, ps), NonEmpty(ps))
  {
    RunInv(c, ps);
    FlushIsFeasible(c, AppendAll(c, EMPTY_STATE, ps));
    FlushKeepsPayloads(AppendAll(c, EMPTY_STATE, ps));
  }

  ghost predicate IsSplit(c: Config, gs: seq<Group>, ps: seq<Bytes>) {
    Flatten(gs) == ps && forall i :: 0 <= i < |gs| ==> Feasible(c, gs[i])
  }

  /** Empty payloads leave no trace. */
  lemma {:induction false} PackIgnoresEmpty(c: Config, ps: seq<Bytes>)
    ensures AppendAll(c, EMPTY_STATE, NonEmpty(ps)) == AppendAll(c, EMPTY_STATE, ps)
    ensures Pack(c, NonEmpty(ps)) == Pack(c, ps)
  {
    if ps != [] {
      SnocSplit(ps);
      var front, p := ps[..|ps| - 1], ps[|ps| - 1];
      PackIgnoresEmpty(c, front);
      if |p| == 0 {
        assert NonEmpty(ps) == NonEmpty(front);
      } else {
        assert NonEmpty(ps) == NonEmpty(front) + [p];
        assert (NonEmpty(front) + [p])[..|NonEmpty(front)|] == NonEmpty(front);
      }
    }
  }

  lemma {:induction false} NonEmptyIsNonEmpty(ps: seq<Bytes>)
    ensures AllNonEmpty(NonEmpty(ps))
    ensures AllNonEmpty(ps) ==> NonEmpty(ps) == ps
  {
    if ps != [] {
      SnocSplit(ps);
      NonEmptyIsNonEmpty(ps[..|ps| - 1]);
    }
  }

  // ---- Byte conservation ----

  /** The length of `n` separators. */
  ghost function SeparatorBytes(c: Config, n: nat): nat {
    if n == 0 then 0 else SeparatorBytes(c, n - 1) + |c.separator|
  }

  lemma {:induction false} SeparatorBytesAdd(c: Config, a: nat, b: nat)
    ensures SeparatorBytes(c, a + b) == SeparatorBytes(c, a) + SeparatorBytes(c, b)
  {
    if b != 0 {
      SeparatorBytesAdd(c, a, b - 1);
    }
  }

  lemma {:induction false} SpanBytes(c: Config, g: Group)
    ensures Span(c, g) == TotalBytes(g) + SeparatorBytes(c, |g|)
  {
    if g != [] {
      SpanBytes(c, g[..|g| - 1]);
    }
  }

  /** Joining adds one separator for every payload that is not the last of its group. */
  lemma {:induction false} BlockBytes(c: Config, gs: seq<Group>)
    requires forall i :: 0 <= i < |gs| ==> gs[i] != []
    ensures TotalBytes(Blocks(c, gs)) + SeparatorBytes(c, |gs|)
         == TotalBytes(Flatten(gs)) + SeparatorBytes(c, |Flatten(gs)|)
  {
    if gs != [] {
      var front, g := gs[..|gs| - 1], gs[|gs| - 1];
      BlockBytes(c, front);
      assert Blocks(c, gs) == Blocks(c, front) + [Join(c, g)];
      TotalBytesSnoc(Blocks(c, front), Join(c, g));
      BufferLenIsBlockLen(c, g);
      SpanBytes(c, g);
      TotalBytesConcat(Flatten(front), g);
      SeparatorBytesAdd(c, |Flatten(front)|, |g|);
    }
  }

  lemma FlushBytes(c: Config, s: State)
    ensures TotalBytes(Blocks(c, Flush(s).groups)) == TotalBytes(Blocks(c, s.groups)) + |Join(c, s.pending)|
  {
    if s.pending != [] {
      assert Blocks(c, Flush(s).groups) == Blocks(c, s.groups) + [Join(c, s.pending)];
      TotalBytesSnoc(Blocks(c, s.groups), Join(c, s.pending));
    }
  }

  /**
   Bytes out and bytes still pending account for every byte in, after any sequence of calls: every payload brings a
   separator and every group formed, the open one included, leaves one out.
   */
  lemma {:induction false} BytesConserved(c: Config, ps: seq<Bytes>)
    requires c.Valid()
    ensures
      var s := AppendAll(c, EMPTY_STATE, ps);
      TotalBytes(Blocks(c, s.groups)) + |Join(c, s.pending)| + SeparatorBytes(c, |Flush(s).groups|)
      == TotalBytes(NonEmpty(ps)) + SeparatorBytes(c, |NonEmpty(ps)|)
    ensures TotalBytes(Blocks(c, Pack(c, ps))) + SeparatorBytes(c, |Pack(c, ps)|)
         == TotalBytes(NonEmpty(ps)) + SeparatorBytes(c, |NonEmpty(ps)|)
  {
    PackIsSplit(c, ps);
    BlockBytes(c, Pack(c, ps));
    FlushBytes(c, AppendAll(c, EMPTY_STATE, ps));
  }

  /** Every emitted block is within the limit, or is a single payload unchanged; the pending bytes stay below the limit. */
  lemma SizeDiscipline(c: Config, ps: seq<Bytes>)
    requires c.Valid()
    ensures
      var s := AppendAll(c, EMPTY_STATE, ps);
      && (s.pending != [] ==> BufferLen(c, s.pending) == |Join(c, s.pending)| < c.limit)
      && (s.pending == [] ==> BufferLen(c, s.pending) == -|c.separator|)
    ensures
      var s := AppendAll(c, EMPTY_STATE, ps);
      forall i :: 0 <= i < |s.groups| ==>
        0 < |Blocks(c, s.groups)[i]| && (|Blocks(c, s.groups)[i]| <= c.limit || [Blocks(c, s.groups)[i]] == s.groups[i])
  {
    RunInv(c, ps);
    var s := AppendAll(c, EMPTY_STATE, ps);
    BufferLenIsBlockLen(c, s.pending);
    forall i | 0 <= i < |s.groups|
      ensures 0 < |Blocks(c, s.groups)[i]| && (|Blocks(c, s.groups)[i]| <= c.limit || [Blocks(c, s.groups)[i]] == s.groups[i])
    {
      BlockIsNonEmpty(c, s.groups[i]);
      assert Feasible(c, s.groups[i]);
      BufferLenIsBlockLen(c, s.groups[i]);
    }
  }

  lemma BlockIsNonEmpty(c: Config, g: Group)
    requires g != [] && AllNonEmpty(g)
    ensures |Join(c, g)| > 0
  {
    assert |g[|g| - 1]| > 0;
  }
}
