/**
 How good the packing is: a complete run forms as few blocks as any order-preserving split could, and
 neighbouring blocks are dense.
 */
module PackingOptimality {
  import opened Sequences
  import opened Packing

  /** The groups so far, counting the open one. */
  ghost function Formed(s: State): seq<Group> {
    Flush(s).groups
  }

  /** Without timeouts, a block leaves early only when nothing more could have joined it. */
  ghost predicate Tight(c: Config, s: State) {
    s.pending == [] && s.groups != [] ==> BufferLen(c, s.groups[|s.groups| - 1]) >= c.limit
  }

  /** Greedy packing: a payload joins the last group when it fits and opens a new group when it does not. */
  ghost function Place(c: Config, gs: seq<Group>, p: Bytes): seq<Group> {
    if gs != [] && BufferLen(c, gs[|gs| - 1] + [p]) <= c.limit
    then gs[..|gs| - 1] + [gs[|gs| - 1] + [p]]
    else gs + [[p]]
  }

  lemma PlaceInLast(c: Config, gs: seq<Group>, g: Group, p: Bytes)
    ensures Place(c, gs + [g], p) == if BufferLen(c, g + [p]) <= c.limit then gs + [g + [p]] else gs + [g] + [[p]]
  {
    assert (gs + [g])[..|gs|] == gs;
  }

  /** With nothing pending, the last group sent has no room for any payload. */
  lemma NothingFits(c: Config, s: State, p: Bytes)
    requires Tight(c, s) && s.pending == [] && |p| > 0
    ensures Place(c, s.groups, p) == s.groups + [[p]]
  {
    if s.groups != [] {
      BufferLenSnoc(c, s.groups[|s.groups| - 1], p);
    }
  }

  lemma AppendIsGreedy(c: Config, s: State, p: Bytes)
    requires c.Valid() && Inv(c, s) && Tight(c, s) && |p| > 0
    ensures Tight(c, Append(c, s, p))
    ensures Formed(Append(c, s, p)) == Place(c, Formed(s), p)
  {
    BufferLenSnoc(c, s.pending, p);
    SingleLen(c, p);
    assert [] + [p] == [p];
    if s.pending != [] {
      PlaceInLast(c, s.groups, s.pending, p);
      BufferLenIsBlockLen(c, s.pending);
      BlockIsNonEmpty(c, s.pending);
    } else {
      NothingFits(c, s, p);
    }
  }

  /** The accumulator with its early flushes and its pass-through of large payloads is greedy packing. */
  lemma {:induction false} RunIsGreedy(c: Config, ps: seq<Bytes>)
    requires c.Valid() && AllNonEmpty(ps)
    ensures Tight(c, AppendAll(c, EMPTY_STATE, ps))
    ensures ps != [] ==> Pack(c, ps) == Place(c, Pack(c, ps[..|ps| - 1]), ps[|ps| - 1])
  {
    if ps != [] {
      var front := ps[..|ps| - 1];
      RunIsGreedy(c, front);
      RunInv(c, front);
      AppendIsGreedy(c, AppendAll(c, EMPTY_STATE, front), ps[|ps| - 1]);
    }
  }

  ghost function LastLen(gs: seq<Group>): nat {
    if gs == [] then 0 else |gs[|gs| - 1]|
  }

  /** Dropping the last payload of a split leaves a split of the payloads before it. */
  lemma DropLast(c: Config, gs: seq<Group>, ps: seq<Bytes>) returns (shorter: seq<Group>)
    requires ps != [] && IsSplit(c, gs, ps)
    ensures IsSplit(c, shorter, ps[..|ps| - 1])
    ensures LastLen(gs) == 1 ==> |shorter| == |gs| - 1
    ensures LastLen(gs) > 1 ==> |shorter| == |gs| && LastLen(shorter) == LastLen(gs) - 1
    ensures LastLen(gs) >= 1
  {
    assert gs != [];
    var init, last := gs[..|gs| - 1], gs[|gs| - 1];
    assert Feasible(c, last);
    FlattenLast(gs);
    SnocSplit(last);
    if |last| == 1 {
      shorter := init;
      assert Flatten(init) == ps[..|ps| - 1];
    } else {
      var cut := last[..|last| - 1];
      shorter := init + [cut];
      BufferLenPart(c, cut, [last[|last| - 1]]);
      FlattenSnoc(init, cut);
      assert Flatten(shorter) == ps[..|ps| - 1];
      forall i | 0 <= i < |shorter| ensures Feasible(c, shorter[i]) {
        if i < |init| {
          assert shorter[i] == gs[i];
        }
      }
    }
  }

  /** One greedy step keeps the lead over a split `gs` that `shorter` came from. */
  lemma PlaceStaysAhead(c: Config, mine: seq<Group>, shorter: seq<Group>, gs: seq<Group>, ps: seq<Bytes>)
    requires ps != [] && IsSplit(c, gs, ps) && IsSplit(c, mine, ps[..|ps| - 1])
    requires LastLen(gs) == 1 ==> |shorter| == |gs| - 1
    requires LastLen(gs) > 1 ==> |shorter| == |gs| && LastLen(shorter) == LastLen(gs) - 1
    requires LastLen(gs) >= 1
    requires |mine| <= |shorter| && (|mine| == |shorter| ==> LastLen(mine) <= LastLen(shorter))
    ensures |Place(c, mine, ps[|ps| - 1])| <= |gs|
    ensures |Place(c, mine, ps[|ps| - 1])| == |gs| ==> LastLen(Place(c, mine, ps[|ps| - 1])) <= LastLen(gs)
  {
    if LastLen(gs) > 1 && |mine| == |gs| {
      LastGroupFits(c, gs, ps, mine);
    }
  }

  /** No split has fewer groups, and one with as many groups has a last group at least as long. */
  lemma {:induction false} GreedyStaysAhead(c: Config, ps: seq<Bytes>, gs: seq<Group>)
    requires c.Valid() && AllNonEmpty(ps) && IsSplit(c, gs, ps)
    ensures |Pack(c, ps)| <= |gs|
    ensures |Pack(c, ps)| == |gs| ==> LastLen(Pack(c, ps)) <= LastLen(gs)
    decreases |ps|
  {
    if ps != [] {
      var front := ps[..|ps| - 1];
      var shorter := DropLast(c, gs, ps);
      GreedyStaysAhead(c, front, shorter);
      PackIsSplit(c, front);
      NonEmptyIsNonEmpty(front);
      PlaceStaysAhead(c, Pack(c, front), shorter, gs, ps);
      RunIsGreedy(c, ps);
    }
  }

  /** If the last group of a split of `ps` is longer than that of `mine`, the last payload fits in `mine`. */
  lemma LastGroupFits(c: Config, gs: seq<Group>, ps: seq<Bytes>, mine: seq<Group>)
    requires ps != [] && IsSplit(c, gs, ps) && LastLen(gs) > 1
    requires mine != [] && IsSplit(c, mine, ps[..|ps| - 1]) && LastLen(mine) < LastLen(gs)
    ensures BufferLen(c, mine[|mine| - 1] + [ps[|ps| - 1]]) <= c.limit
  {
    var last, own := gs[|gs| - 1], mine[|mine| - 1];
    FlattenLast(gs);
    FlattenLast(mine);
    assert Feasible(c, last);
    var d := |last| - 1 - |own|;
    assert own + [ps[|ps| - 1]] == last[d..];
    assert last == last[..d] + last[d..];
    BufferLenPart(c, last[..d], last[d..]);
  }

  /**
   Greedy packing is optimal: whatever the payloads, a complete run hands over as few blocks as any way of cutting
   the non-empty payloads, in order, into single payloads and joins within the limit; and it is such a cut itself.
   */
  lemma {:induction false} PackIsOptimal(c: Config, ps: seq<Bytes>)
    requires c.Valid()
    ensures IsSplit(c, Pack(c, ps), NonEmpty(ps))
    ensures forall gs :: IsSplit(c, gs, NonEmpty(ps)) ==> |Pack(c, ps)| <= |gs|
  {
    PackIsSplit(c, ps);
    PackIgnoresEmpty(c, ps);
    NonEmptyIsNonEmpty(ps);
    forall gs | IsSplit(c, gs, NonEmpty(ps)) ensures |Pack(c, ps)| <= |gs| {
      GreedyStaysAhead(c, NonEmpty(ps), gs);
    }
  }

  // ---- Density ----

  ghost predicate Outgrown(c: Config, g: Group, next: Group) {
    next != [] && BufferLen(c, g + [next[0]]) > c.limit
  }

  /** Between neighbours, the first payload of the second did not fit in the first. */
  ghost predicate Dense(c: Config, gs: seq<Group>) {
    forall i, j :: 0 <= i && j == i + 1 < |gs| ==> Outgrown(c, gs[i], gs[j])
  }

  lemma PlaceKeepsDense(c: Config, gs: seq<Group>, p: Bytes)
    requires Dense(c, gs) && forall i :: 0 <= i < |gs| ==> gs[i] != []
    ensures Dense(c, Place(c, gs, p))
  {
  }

  lemma {:induction false} PackIsDense(c: Config, ps: seq<Bytes>)
    requires c.Valid() && AllNonEmpty(ps)
    ensures Dense(c, Pack(c, ps))
  {
    if ps != [] {
      var front := ps[..|ps| - 1];
      PackIsDense(c, front);
      PackIsSplit(c, front);
      RunIsGreedy(c, ps);
      PlaceKeepsDense(c, Pack(c, front), ps[|ps| - 1]);
    }
  }

  /** Neighbouring blocks with a separator between them would exceed the limit, already with the second's first payload. */
  lemma NeighboursExceedLimit(c: Config, ps: seq<Bytes>, i: nat)
    requires c.Valid() && i + 1 < |Pack(c, ps)|
    ensures
      var gs := Pack(c, ps);
      gs[i + 1] != [] && |Join(c, gs[i])| + |c.separator| + |gs[i + 1][0]| > c.limit
  {
    PackIgnoresEmpty(c, ps);
    NonEmptyIsNonEmpty(ps);
    PackIsDense(c, NonEmpty(ps));
    PackIsSplit(c, ps);
    var gs := Pack(c, ps);
    assert Feasible(c, gs[i]) && Outgrown(c, gs[i], gs[i + 1]);
    BufferLenSnoc(c, gs[i], gs[i + 1][0]);
    BufferLenIsBlockLen(c, gs[i]);
  }

  lemma FirstPayloadWithinBlock(c: Config, g: Group)
    requires g != []
    ensures |g[0]| <= |Join(c, g)|
  {
    assert g == [g[0]] + g[1..];
    BufferLenPart(c, [g[0]], g[1..]);
    BufferLenIsBlockLen(c, g);
    BufferLenIsBlockLen(c, [g[0]]);
  }

  /** `n` blocks of the limit, a separator short each. */
  ghost function Room(c: Config, n: int): int {
    n * (c.limit - |c.separator|)
  }

  lemma RoomStep(c: Config, n: int)
    ensures Room(c, n + 1) == Room(c, n) + c.limit - |c.separator|
    ensures Room(c, 0) == 0
  {
  }

  lemma NeighbourBytes(c: Config, g: Group, next: Group)
    requires g != [] && Outgrown(c, g, next)
    ensures c.limit - |c.separator| < |Join(c, g)| + |Join(c, next)|
  {
    BufferLenSnoc(c, g, next[0]);
    BufferLenIsBlockLen(c, g);
    FirstPayloadWithinBlock(c, next);
  }

  lemma {:induction false} DenseTotal(c: Config, gs: seq<Group>)
    requires Dense(c, gs) && gs != [] && forall i :: 0 <= i < |gs| ==> Feasible(c, gs[i])
    ensures Room(c, |gs| - 1) + |Join(c, gs[|gs| - 1])| <= 2 * TotalBytes(Blocks(c, gs))
    decreases |gs|
  {
    var front, g := gs[..|gs| - 1], gs[|gs| - 1];
    assert Blocks(c, gs) == Blocks(c, front) + [Join(c, g)];
    TotalBytesSnoc(Blocks(c, front), Join(c, g));
    RoomStep(c, |front| - 1);
    if front != [] {
      DenseTotal(c, front);
      var prev := front[|front| - 1];
      NeighbourBytes(c, prev, g);
    }
  }

  /** `m` blocks carry more than half of `(m - 1) * (limit - separator)` bytes. */
  lemma BlocksAreDense(c: Config, ps: seq<Bytes>)
    requires c.Valid()
    ensures Room(c, |Pack(c, ps)| - 1) < 2 * TotalBytes(Blocks(c, Pack(c, ps)))
  {
    PackIgnoresEmpty(c, ps);
    NonEmptyIsNonEmpty(ps);
    PackIsDense(c, NonEmpty(ps));
    PackIsSplit(c, ps);
    var gs := Pack(c, ps);
    RoomStep(c, -1);
    if gs != [] {
      DenseTotal(c, gs);
      assert Feasible(c, gs[|gs| - 1]);
      BlockIsNonEmpty(c, gs[|gs| - 1]);
    }
  }
}
