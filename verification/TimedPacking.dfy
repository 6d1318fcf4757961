/**
 The accumulator that also flushes on a timer (pkg/accumulator/accumulator_by_time_n_size.go), on values.
 Times are integers and 0 is Go's zero time.
 */
module TimedPacking {
  import opened Sequences
  import opened Packing
  import opened PackingOptimality

  datatype Event =
    | Arrive(payload: Bytes, now: int)
    | Tick(now: int)

  datatype TimedState = TimedState(acc: State, oldest: int)

  const ZERO_TIME: int := 0
  const EMPTY_TIMED := TimedState(EMPTY_STATE, ZERO_TIME)

  ghost function TimedFlush(s: TimedState): TimedState {
    if s.acc.pending == [] then s else TimedState(Flush(s.acc), ZERO_TIME)
  }

  ghost function TimedAppend(c: Config, s: TimedState, p: Bytes, now: int): TimedState {
    if |p| == 0 then s
    else if |p| >= c.limit then
      var flushed := TimedFlush(s);
      flushed.(acc := State(flushed.acc.groups + [[p]], flushed.acc.pending))
    else
      var lenAfter := BufferLen(c, s.acc.pending) + |c.separator| + |p|;
      var flushed := if lenAfter > c.limit then TimedFlush(s) else s;
      var appended := TimedState(State(flushed.acc.groups, flushed.acc.pending + [p]), now);
      if lenAfter == c.limit then TimedFlush(appended) else appended
  }

  ghost predicate Due(force: int, s: TimedState, now: int) {
    s.oldest != ZERO_TIME && now - s.oldest >= force
  }

  ghost function HandleTick(force: int, s: TimedState, now: int): TimedState {
    if Due(force, s, now) then TimedFlush(s) else s
  }

  ghost function Handle(c: Config, force: int, s: TimedState, e: Event): TimedState {
    match e
    case Arrive(p, now) => TimedAppend(c, s, p, now)
    case Tick(now) => HandleTick(force, s, now)
  }

  ghost function Run(c: Config, force: int, es: seq<Event>): TimedState {
    if es == [] then EMPTY_TIMED else Handle(c, force, Run(c, force, es[..|es| - 1]), es[|es| - 1])
  }

  /** The groups of a complete timed run: the events, then the flush of shutdown. */
  ghost function TimedPack(c: Config, force: int, es: seq<Event>): seq<Group> {
    TimedFlush(Run(c, force, es)).acc.groups
  }

  ghost function Payloads(es: seq<Event>): seq<Bytes> {
    if es == [] then []
    else Payloads(es[..|es| - 1]) + match es[|es| - 1] case Arrive(p, _) => [p] case Tick(_) => []
  }

  /** How many ticks sent something. */
  ghost function Timeouts(c: Config, force: int, es: seq<Event>): nat {
    if es == [] then 0
    else
      var before := Run(c, force, es[..|es| - 1]);
      Timeouts(c, force, es[..|es| - 1])
      + if es[|es| - 1].Tick? && Due(force, before, es[|es| - 1].now) && before.acc.pending != [] then 1 else 0
  }

  // ---- The timer only adds flushes ----

  lemma TimedAppendIsAppend(c: Config, s: TimedState, p: Bytes, now: int)
    ensures TimedAppend(c, s, p, now).acc == Append(c, s.acc, p)
  {
  }

  ghost function After(gs: seq<Group>, s: State): State {
    State(gs + s.groups, s.pending)
  }

  /** Groups already sent do not influence what happens next. */
  lemma AppendAfter(c: Config, gs: seq<Group>, s: State, p: Bytes)
    ensures Append(c, After(gs, s), p) == After(gs, Append(c, s, p))
    ensures Flush(After(gs, s)) == After(gs, Flush(s))
  {
    assert gs + (s.groups + [s.pending]) == gs + s.groups + [s.pending];
    assert gs + (s.groups + [[p]]) == gs + s.groups + [[p]];
    assert gs + ((s.groups + [s.pending]) + [[p]]) == gs + s.groups + [s.pending] + [[p]];
    assert gs + (s.groups + [s.pending + [p]]) == gs + s.groups + [s.pending + [p]];
    assert gs + ((s.groups + [s.pending]) + [[] + [p]]) == gs + s.groups + [s.pending] + [[] + [p]];
  }

  /** The groups of several complete runs, one after the other. */
  ghost function PackEach(c: Config, segments: seq<seq<Bytes>>): seq<Group> {
    if segments == [] then []
    else PackEach(c, segments[..|segments| - 1]) + Pack(c, segments[|segments| - 1])
  }

  /**
   A timed run is a series of untimed ones: each timeout that sends something closes a segment, and the open
   segment is being packed as if nothing had come before it.
   */
  lemma {:induction false} Segments(c: Config, force: int, es: seq<Event>)
    returns (closed: seq<seq<Bytes>>, open: seq<Bytes>)
    ensures |closed| == Timeouts(c, force, es)
    ensures Flatten(closed + [open]) == Payloads(es)
    ensures Run(c, force, es).acc == After(PackEach(c, closed), AppendAll(c, EMPTY_STATE, open))
  {
    if es == [] {
      closed, open := [], [];
      FlattenSnoc<Bytes>([], []);
    } else {
      var front, e := es[..|es| - 1], es[|es| - 1];
      var closed0, open0 := Segments(c, force, front);
      var s, gs, own := Run(c, force, front), PackEach(c, closed0), AppendAll(c, EMPTY_STATE, open0);
      FlattenSnoc(closed0, open0);
      match e
      case Arrive(p, now) =>
        closed, open := closed0, open0 + [p];
        TimedAppendIsAppend(c, s, p, now);
        AppendAfter(c, gs, own, p);
        assert open[..|open0|] == open0;
        FlattenSnoc(closed, open);
      case Tick(now) =>
        if Due(force, s, now) && s.acc.pending != [] {
          closed, open := closed0 + [open0], [];
          AppendAfter(c, gs, own, []);
          assert closed[..|closed0|] == closed0;
          FlattenSnoc(closed, open);
        } else {
          closed, open := closed0, open0;
        }
    }
  }

  // ---- What the timer costs ----

  lemma SplitSnoc(c: Config, gs: seq<Group>, g: Group, ps: seq<Bytes>)
    requires IsSplit(c, gs, ps) && Feasible(c, g)
    ensures IsSplit(c, gs + [g], ps + g)
  {
    FlattenSnoc(gs, g);
  }

  /** Both parts of a feasible group are feasible, unless empty. */
  lemma PartsFeasible(c: Config, a: Group, b: Group)
    requires Feasible(c, a + b)
    ensures a != [] ==> Feasible(c, a)
    ensures b != [] ==> Feasible(c, b)
  {
    BufferLenPart(c, a, b);
    assert forall i :: 0 <= i < |a| ==> a[i] == (a + b)[i];
    assert forall i :: 0 <= i < |b| ==> b[i] == (a + b)[|a| + i];
  }

  /** The cut falls inside the last group. */
  lemma CutLastGroup(c: Config, gs: seq<Group>, x: seq<Bytes>, y: seq<Bytes>)
    requires IsSplit(c, gs, x + y) && gs != [] && 0 < |y| < |gs[|gs| - 1]|
    ensures
      var init, last := gs[..|gs| - 1], gs[|gs| - 1];
      IsSplit(c, init + [last[..|last| - |y|]], x) && IsSplit(c, [y], y)
  {
    var init, last := gs[..|gs| - 1], gs[|gs| - 1];
    FlattenLast(gs);
    var head := last[..|last| - |y|];
    assert last == head + y;
    assert Feasible(c, last);
    PartsFeasible(c, head, y);
    assert x == Flatten(init) + head;
    SplitSnoc(c, init, head, Flatten(init));
    SplitSnoc(c, [], y, []);
    assert [] + [y] == [y] && [] + y == y;
  }

  /** The cut falls before the last group. */
  lemma CutBeforeLast(c: Config, gs: seq<Group>, x: seq<Bytes>, y: seq<Bytes>)
    requires IsSplit(c, gs, x + y) && gs != [] && |gs[|gs| - 1]| <= |y|
    ensures
      var init, last := gs[..|gs| - 1], gs[|gs| - 1];
      IsSplit(c, init, x + y[..|y| - |last|]) && y == y[..|y| - |last|] + last && Feasible(c, last)
  {
    FlattenLast(gs);
    assert Flatten(gs[..|gs| - 1]) == x + y[..|y| - |gs[|gs| - 1]|];
  }

  /** Cutting a split between two stretches of payloads takes at most one more group. */
  lemma {:induction false} CutSplit(c: Config, gs: seq<Group>, x: seq<Bytes>, y: seq<Bytes>)
    returns (gx: seq<Group>, gy: seq<Group>)
    requires IsSplit(c, gs, x + y)
    ensures IsSplit(c, gx, x) && IsSplit(c, gy, y)
    ensures |gx| + |gy| <= |gs| + 1
    decreases |gs|
  {
    if y == [] {
      gx, gy := gs, [];
      assert x + y == x;
    } else {
      var init, last := gs[..|gs| - 1], gs[|gs| - 1];
      if |last| <= |y| {
        CutBeforeLast(c, gs, x, y);
        var y0 := y[..|y| - |last|];
        var gy0;
        gx, gy0 := CutSplit(c, init, x, y0);
        SplitSnoc(c, gy0, last, y0);
        gy := gy0 + [last];
      } else {
        CutLastGroup(c, gs, x, y);
        gx, gy := init + [last[..|last| - |y|]], [y];
      }
    }
  }

  lemma {:induction false} NonEmptyConcat(a: seq<Bytes>, b: seq<Bytes>)
    ensures NonEmpty(a + b) == NonEmpty(a) + NonEmpty(b)
    decreases |b|
  {
    if b == [] {
      assert a + b == a;
    } else {
      assert (a + b)[..|a + b| - 1] == a + b[..|b| - 1];
      NonEmptyConcat(a, b[..|b| - 1]);
    }
  }

  /** Packing in two runs costs at most one block over packing in one. */
  lemma TwoRuns(c: Config, a: seq<Bytes>, b: seq<Bytes>)
    requires c.Valid()
    ensures |Pack(c, a)| + |Pack(c, b)| <= |Pack(c, a + b)| + 1
  {
    PackIsSplit(c, a + b);
    NonEmptyConcat(a, b);
    var ga, gb := CutSplit(c, Pack(c, a + b), NonEmpty(a), NonEmpty(b));
    PackIsOptimal(c, a);
    PackIsOptimal(c, b);
  }

  lemma {:induction false} ManyRuns(c: Config, closed: seq<seq<Bytes>>, open: seq<Bytes>)
    requires c.Valid()
    ensures |PackEach(c, closed)| + |Pack(c, open)| <= |Pack(c, Flatten(closed + [open]))| + |closed|
    decreases |closed|
  {
    FlattenSnoc(closed, open);
    if closed != [] {
      var front, last := closed[..|closed| - 1], closed[|closed| - 1];
      SnocSplit(closed);
      ManyRuns(c, front, last);
      TwoRuns(c, Flatten(closed), open);
    } else {
      assert [] + open == open;
    }
  }

  lemma {:induction false} TimedRunInv(c: Config, force: int, es: seq<Event>)
    requires c.Valid()
    ensures Inv(c, Run(c, force, es).acc)
    ensures Held(Run(c, force, es).acc) == NonEmpty(Payloads(es))
  {
    if es != [] {
      var front, e := es[..|es| - 1], es[|es| - 1];
      TimedRunInv(c, force, front);
      var s := Run(c, force, front);
      match e
      case Arrive(p, now) =>
        TimedAppendIsAppend(c, s, p, now);
        AppendKeepsInv(c, s.acc, p);
        AppendKeepsPayloads(c, s.acc, p);
        NonEmptySnoc(Payloads(front), p);
      case Tick(now) =>
        FlushKeepsPayloads(s.acc);
        FlushKeepsInv(c, s.acc);
        assert Payloads(es) == Payloads(front);
    }
  }

  /** A timed run, too, sends every non-empty payload once, in order, in single payloads and joins within the limit. */
  lemma TimedPackIsSplit(c: Config, force: int, es: seq<Event>)
    requires c.Valid()
    ensures IsSplit(c, TimedPack(c, force, es), NonEmpty(Payloads(es)))
  {
    TimedRunInv(c, force, es);
    FlushIsFeasible(c, Run(c, force, es).acc);
    FlushKeepsPayloads(Run(c, force, es).acc);
  }

  /** Packing a series of segments costs at most one block for every cut. */
  lemma SegmentsCost(c: Packing.Config, closed: seq<seq<Bytes>>, open: seq<Bytes>)
    requires c.Valid()
    ensures
      var groups := Flush(After(PackEach(c, closed), AppendAll(c, EMPTY_STATE, open))).groups;
      && |groups| <= |Pack(c, Flatten(closed + [open]))| + |closed|
      && (closed == [] ==> groups == Pack(c, Flatten(closed + [open])))
  {
    AppendAfter(c, PackEach(c, closed), AppendAll(c, EMPTY_STATE, open), []);
    ManyRuns(c, closed, open);
    FlattenSnoc(closed, open);
    assert closed == [] ==> Flatten(closed) + open == open;
  }

  /**
   What timeouts cost: at least as many blocks as packing by size alone, at most one more for every timeout that
   sent something, and exactly the same blocks when none did.
   */
  lemma TimeoutCost(c: Config, force: int, es: seq<Event>)
    requires c.Valid()
    ensures |Pack(c, Payloads(es))| <= |TimedPack(c, force, es)|
    ensures |TimedPack(c, force, es)| <= |Pack(c, Payloads(es))| + Timeouts(c, force, es)
    ensures Timeouts(c, force, es) == 0 ==> TimedPack(c, force, es) == Pack(c, Payloads(es))
  {
    TimedPackIsSplit(c, force, es);
    PackIsOptimal(c, Payloads(es));
    var closed, open := Segments(c, force, es);
    SegmentsCost(c, closed, open);
  }

  // ---- The timer's clock ----

  /** Arrival times of the pending payloads after one more event, from those before it. */
  ghost function NextStamps(c: Config, before: TimedState, earlier: seq<int>, e: Event, after: TimedState): seq<int> {
    if after.acc.pending == [] then []
    else if e.Tick? || |e.payload| == 0 then earlier
    else if BufferLen(c, before.acc.pending + [e.payload]) > c.limit then [e.now]
    else earlier + [e.now]
  }

  ghost function Stamps(c: Config, force: int, es: seq<Event>): seq<int> {
    if es == [] then []
    else
      var front := es[..|es| - 1];
      NextStamps(c, Run(c, force, front), Stamps(c, force, front), es[|es| - 1], Run(c, force, es))
  }

  /** Every pending payload has the stamp of its arrival, and the clock field is the newest stamp, or zero. */
  ghost predicate Stamped(s: TimedState, stamps: seq<int>, es: seq<Event>) {
    && |stamps| == |s.acc.pending|
    && (forall k :: 0 <= k < |stamps| ==> Arrive(s.acc.pending[k], stamps[k]) in es)
    && s.oldest == if stamps == [] then ZERO_TIME else stamps[|stamps| - 1]
  }

  lemma StampsStay(s: TimedState, stamps: seq<int>, es: seq<Event>, e: Event)
    requires Stamped(s, stamps, es)
    ensures Stamped(s, stamps, es + [e])
  {
    forall k | 0 <= k < |stamps| ensures Arrive(s.acc.pending[k], stamps[k]) in es + [e] {
      assert Arrive(s.acc.pending[k], stamps[k]) in es;
    }
  }

  lemma StampAdded(gs: seq<Group>, pending: Group, stamps: seq<int>, es: seq<Event>, p: Bytes, now: int)
    requires |stamps| == |pending| && forall k :: 0 <= k < |stamps| ==> Arrive(pending[k], stamps[k]) in es
    ensures Stamped(TimedState(State(gs, pending + [p]), now), stamps + [now], es + [Arrive(p, now)])
  {
    var all := es + [Arrive(p, now)];
    assert all[|es|] == Arrive(p, now);
    forall k | 0 <= k <= |stamps| ensures Arrive((pending + [p])[k], (stamps + [now])[k]) in all {
      if k < |stamps| {
        assert Arrive(pending[k], stamps[k]) in es;
      }
    }
  }

  lemma NothingStamped(gs: seq<Group>, es: seq<Event>)
    ensures Stamped(TimedState(State(gs, []), ZERO_TIME), [], es)
  {
  }

  lemma StampArrival(c: Config, s: TimedState, stamps: seq<int>, es: seq<Event>, p: Bytes, now: int)
    requires Stamped(s, stamps, es) && 0 < |p| < c.limit
    ensures
      var s' := TimedAppend(c, s, p, now);
      Stamped(s', NextStamps(c, s, stamps, Arrive(p, now), s'), es + [Arrive(p, now)])
  {
    BufferLenSnoc(c, s.acc.pending, p);
    hide BufferLen;
    var s' := TimedAppend(c, s, p, now);
    if BufferLen(c, s.acc.pending + [p]) > c.limit {
      StampAdded(Flush(s.acc).groups, [], [], es, p, now);
      assert [] + [p] == [p] && [] + [now] == [now];
    } else if BufferLen(c, s.acc.pending + [p]) < c.limit {
      StampAdded(s.acc.groups, s.acc.pending, stamps, es, p, now);
    } else {
      NothingStamped(s'.acc.groups, es + [Arrive(p, now)]);
    }
  }

  lemma StampStep(c: Config, force: int, s: TimedState, stamps: seq<int>, es: seq<Event>, e: Event)
    requires Stamped(s, stamps, es)
    ensures Stamped(Handle(c, force, s, e), NextStamps(c, s, stamps, e, Handle(c, force, s, e)), es + [e])
  {
    hide Stamped;
    StampsStay(s, stamps, es, e);
    if e.Arrive? && 0 < |e.payload| < c.limit {
      StampArrival(c, s, stamps, es, e.payload, e.now);
    } else {
      NothingStamped(Handle(c, force, s, e).acc.groups, es + [e]);
      PendingMatchesStamps(s, stamps, es);
    }
  }

  lemma PendingMatchesStamps(s: TimedState, stamps: seq<int>, es: seq<Event>)
    requires Stamped(s, stamps, es)
    ensures |stamps| == |s.acc.pending| && (stamps == [] ==> s.oldest == ZERO_TIME)
  {
  }

  /** The clock field is the arrival of the newest pending payload, despite its name, and zero when nothing is pending. */
  lemma {:induction false} StampIsNewest(c: Config, force: int, es: seq<Event>)
    requires c.Valid()
    ensures Stamped(Run(c, force, es), Stamps(c, force, es), es)
  {
    if es != [] {
      var front := es[..|es| - 1];
      StampIsNewest(c, force, front);
      SnocSplit(es);
      StampStep(c, force, Run(c, force, front), Stamps(c, force, front), front, es[|es| - 1]);
    }
  }

  ghost predicate ClockRuns(es: seq<Event>) {
    forall i :: 0 <= i < |es| && es[i].Arrive? ==> es[i].now != ZERO_TIME
  }

  lemma {:induction false} StampsAreSet(c: Config, force: int, es: seq<Event>, k: nat)
    requires c.Valid() && ClockRuns(es) && k < |Stamps(c, force, es)|
    ensures Stamps(c, force, es)[k] != ZERO_TIME
  {
    StampIsNewest(c, force, es);
    var i :| 0 <= i < |es| && es[i] == Arrive(Run(c, force, es).acc.pending[k], Stamps(c, force, es)[k]);
  }

  lemma {:induction false} OldestIsLastStamp(c: Config, force: int, es: seq<Event>)
    requires c.Valid()
    ensures |Stamps(c, force, es)| == |Run(c, force, es).acc.pending|
    ensures Run(c, force, es).oldest
         == if Stamps(c, force, es) == [] then ZERO_TIME else Stamps(c, force, es)[|Stamps(c, force, es)| - 1]
  {
    StampIsNewest(c, force, es);
  }

  /** The clock field is zero exactly when nothing is pending, and otherwise the newest pending payload's arrival. */
  lemma {:induction false} TimerInvariant(c: Config, force: int, es: seq<Event>)
    requires c.Valid() && ClockRuns(es)
    ensures
      var s, stamps := Run(c, force, es), Stamps(c, force, es);
      && (s.oldest == ZERO_TIME <==> s.acc.pending == [])
      && |stamps| == |s.acc.pending|
      && (stamps != [] ==> s.oldest == stamps[|stamps| - 1])
  {
    OldestIsLastStamp(c, force, es);
    if Stamps(c, force, es) != [] {
      StampsAreSet(c, force, es, |Stamps(c, force, es)| - 1);
    }
  }

  lemma {:induction false} RunSnoc(c: Config, force: int, es: seq<Event>, e: Event)
    ensures Run(c, force, es + [e]) == Handle(c, force, Run(c, force, es), e)
  {
    assert (es + [e])[..|es|] == es;
  }

  /** A tick sends the pending payloads exactly when the newest of them has waited long enough. */
  lemma {:induction false} TickFlushesWhenNewestIsDue(c: Config, force: int, es: seq<Event>, now: int)
    requires c.Valid() && ClockRuns(es)
    ensures
      var s, stamps := Run(c, force, es), Stamps(c, force, es);
      |stamps| == |s.acc.pending|
      && Run(c, force, es + [Tick(now)])
         == (if s.acc.pending != [] && now - stamps[|stamps| - 1] >= force
             then TimedState(Flush(s.acc), ZERO_TIME) else s)
  {
    TimerInvariant(c, force, es);
    RunSnoc(c, force, es, Tick(now));
  }

  /** After a tick, either nothing is pending or the newest pending payload is younger than the time limit. */
  lemma {:induction false} AfterTick(c: Config, force: int, es: seq<Event>, now: int)
    requires c.Valid() && ClockRuns(es)
    ensures
      var s := Run(c, force, es + [Tick(now)]);
      s.acc.pending == [] || now - s.oldest < force
  {
    TimerInvariant(c, force, es);
    RunSnoc(c, force, es, Tick(now));
  }

  /**
   The documented rule, a flush once the oldest pending payload is older than the limit (config_example.yaml), is
   not what a tick does: with the oldest payload that old, everything stays pending exactly when a newer payload
   is not.
   */
  lemma {:induction false} OldestMayOverstay(c: Config, force: int, es: seq<Event>, now: int)
    requires c.Valid() && ClockRuns(es)
    requires Stamps(c, force, es) != [] && now - Stamps(c, force, es)[0] >= force
    ensures Run(c, force, es + [Tick(now)]).acc.pending != []
       <==> now - Stamps(c, force, es)[|Stamps(c, force, es)| - 1] < force
  {
    TickFlushesWhenNewestIsDue(c, force, es, now);
  }

  /** An instance, for every separator and time limit: the first payload is as old as the limit and still pending. */
  lemma OverstayInstance(c: Config, force: int, b: Byte)
    requires c.Valid() && |c.separator| + 2 < c.limit && force > 0
    ensures
      var es := [Arrive([b], 1), Arrive([b], force + 1), Tick(force + 1)];
      && ClockRuns(es)
      && Stamps(c, force, es) == [1, force + 1]
      && Run(c, force, es).acc == State([], [[b], [b]])
  {
    var e1, e2, e3 := Arrive([b], 1), Arrive([b], force + 1), Tick(force + 1);
    var p: Bytes := [b];
    BufferLenSnoc(c, [], p);
    BufferLenSnoc(c, [p], p);
    assert [e1][..0] == [] && [e1, e2][..1] == [e1] && [e1, e2, e3][..2] == [e1, e2];
    assert [] + [p] == [p] && [p] + [p] == [p, p];
    assert Run(c, force, [e1]) == TimedState(State([], [p]), 1);
    assert Run(c, force, [e1, e2]) == TimedState(State([], [p, p]), force + 1);
    assert Stamps(c, force, [e1]) == [1];
    assert Stamps(c, force, [e1, e2]) == [1, force + 1];
  }
}
