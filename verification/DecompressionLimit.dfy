/**
 The limit on concurrent decompressions of one ingestion route: a channel filled with tokens, or a closed channel when
 there is no limit (`newIngestionRoute` and `ServeHTTP`, pkg/adapters/httpin/ingest_routes.go). Any number of requests
 run at once; every interleaving of their steps is a run.
 */
module DecompressionLimit {

  /** A request that has to decompress its body. */
  datatype Phase = Waiting | Decompressing(token: bool) | Returning | Past

  datatype Route = Route(capacity: nat, tokens: nat, closed: bool, panicked: bool, requests: seq<Phase>)

  datatype Step =
    | Arrive
    | Take(i: nat)        // receives from the channel
    | Decompressed(i: nat) // `decompress` returns, with or without an error
    | GiveBack(i: nat)    // sends the token back

  ghost function Init(limit: nat): Route {
    Route(limit, limit, limit == 0, false, [])
  }

  /** Setting up the channel: filled one token at a time, or closed at once. */
  method NewSemaphore(limit: nat) returns (r: Route)
    ensures r == Init(limit)
  {
    if limit != 0 {
      r := Route(limit, 0, false, false, []);
      for i := 0 to limit
        invariant r == Route(limit, i, false, false, [])
      {
        r := r.(tokens := r.tokens + 1);
      }
    } else {
      r := Route(0, 0, false, false, []);
      r := r.(closed := true);
    }
  }

  ghost predicate At(r: Route, i: nat) {
    i < |r.requests|
  }

  /** A receive waits for a token or a closed channel; a send waits for room, and panics on a closed channel. */
  ghost predicate Enabled(r: Route, a: Step) {
    match a
    case Arrive => true
    case Take(i) => At(r, i) && r.requests[i] == Waiting && (r.tokens > 0 || r.closed)
    case Decompressed(i) => At(r, i) && r.requests[i].Decompressing?
    case GiveBack(i) => At(r, i) && r.requests[i] == Returning && (r.closed || r.tokens < r.capacity)
  }

  ghost function Move(r: Route, i: nat, p: Phase): Route
    requires At(r, i)
  {
    r.(requests := r.requests[i := p])
  }

  ghost function Do(r: Route, a: Step): Route
    requires Enabled(r, a)
  {
    match a
    case Arrive => r.(requests := r.requests + [Waiting])
    case Take(i) =>
      if r.tokens > 0 then Move(r, i, Decompressing(true)).(tokens := r.tokens - 1)
      else Move(r, i, Decompressing(false))
    case Decompressed(i) => Move(r, i, if r.requests[i].token then Returning else Past)
    case GiveBack(i) =>
      if r.closed then r.(panicked := true) else Move(r, i, Past).(tokens := r.tokens + 1)
  }

  /** The state after some attempted steps, in order; an attempt that is not enabled changes nothing. */
  ghost function Exec(r: Route, run: seq<Step>): Route {
    if run == [] then r
    else
      var before, a := Exec(r, run[..|run| - 1]), run[|run| - 1];
      if Enabled(before, a) then Do(before, a) else before
  }

  ghost predicate HoldsToken(p: Phase) {
    p == Decompressing(true) || p == Returning
  }

  ghost function Holders(ps: seq<Phase>): nat {
    if ps == [] then 0 else Holders(ps[..|ps| - 1]) + if HoldsToken(ps[|ps| - 1]) then 1 else 0
  }

  /** How many requests decompress at once. */
  ghost function InUse(ps: seq<Phase>): nat {
    if ps == [] then 0 else InUse(ps[..|ps| - 1]) + if ps[|ps| - 1].Decompressing? then 1 else 0
  }

  lemma {:induction false} HoldersMove(ps: seq<Phase>, i: nat, p: Phase)
    requires i < |ps|
    ensures Holders(ps[i := p]) == Holders(ps) - (if HoldsToken(ps[i]) then 1 else 0) + if HoldsToken(p) then 1 else 0
  {
    var n := |ps| - 1;
    if i == n {
      assert ps[i := p][..n] == ps[..n];
    } else {
      HoldersMove(ps[..n], i, p);
      assert ps[i := p][..n] == ps[..n][i := p];
    }
  }

  lemma HoldersSnoc(ps: seq<Phase>, p: Phase)
    ensures Holders(ps + [p]) == Holders(ps) + if HoldsToken(p) then 1 else 0
  {
    assert (ps + [p])[..|ps|] == ps;
  }

  /** Tokens are never made, lost or held twice. */
  ghost predicate Inv(r: Route) {
    && !r.panicked
    && (r.closed <==> r.capacity == 0)
    && r.tokens + Holders(r.requests) == r.capacity
    && (r.capacity > 0 ==> forall i :: 0 <= i < |r.requests| ==> r.requests[i] != Decompressing(false))
  }

  lemma {:induction false} HolderCounts(ps: seq<Phase>, i: nat)
    requires i < |ps| && HoldsToken(ps[i])
    ensures Holders(ps) > 0
  {
    if i < |ps| - 1 {
      HolderCounts(ps[..|ps| - 1], i);
    }
  }

  lemma StepKeepsInv(r: Route, a: Step)
    requires Inv(r) && Enabled(r, a)
    ensures Inv(Do(r, a)) && Do(r, a).capacity == r.capacity
  {
    hide Holders;
    match a
    case Arrive => HoldersSnoc(r.requests, Waiting);
    case Take(i) => HoldersMove(r.requests, i, Do(r, a).requests[i]);
    case Decompressed(i) => HoldersMove(r.requests, i, Do(r, a).requests[i]);
    case GiveBack(i) =>
      HolderCounts(r.requests, i);
      HoldersMove(r.requests, i, Past);
  }

  lemma {:induction false} RunKeepsInv(limit: nat, run: seq<Step>)
    ensures Inv(Exec(Init(limit), run)) && Exec(Init(limit), run).capacity == limit
  {
    hide Inv, Enabled, Do;
    if run == [] {
      InitOk(limit);
    } else {
      var front, a := run[..|run| - 1], run[|run| - 1];
      RunKeepsInv(limit, front);
      if Enabled(Exec(Init(limit), front), a) {
        StepKeepsInv(Exec(Init(limit), front), a);
      }
    }
  }

  lemma InitOk(limit: nat)
    ensures Inv(Init(limit))
  {
  }

  lemma {:induction false} DecompressingHold(ps: seq<Phase>)
    requires forall i :: 0 <= i < |ps| ==> ps[i] != Decompressing(false)
    ensures InUse(ps) <= Holders(ps)
  {
    if ps != [] {
      DecompressingHold(ps[..|ps| - 1]);
    }
  }

  /**
   In every run: with a limit, the tokens in the channel and the tokens held are as many as the limit, so at most that
   many requests decompress at once, and giving a token back never waits; without one, nobody waits and nobody sends
   on the closed channel.
   */
  lemma LimitHolds(limit: nat, run: seq<Step>, i: nat)
    ensures
      var r := Exec(Init(limit), run);
      && !r.panicked
      && r.tokens + Holders(r.requests) == limit
      && (limit > 0 ==> InUse(r.requests) <= limit)
      && (At(r, i) && r.requests[i] == Returning ==> limit > 0 && Enabled(r, GiveBack(i)))
      && (limit == 0 && At(r, i) && r.requests[i] == Waiting ==> Enabled(r, Take(i)))
  {
    hide Exec;
    RunKeepsInv(limit, run);
    var r := Exec(Init(limit), run);
    if limit > 0 {
      DecompressingHold(r.requests);
    }
    if At(r, i) && r.requests[i] == Returning {
      HolderCounts(r.requests, i);
    }
  }

  lemma {:induction false} SomebodyHolds(ps: seq<Phase>) returns (i: nat)
    requires Holders(ps) > 0
    ensures i < |ps| && HoldsToken(ps[i])
  {
    if HoldsToken(ps[|ps| - 1]) {
      i := |ps| - 1;
    } else {
      i := SomebodyHolds(ps[..|ps| - 1]);
    }
  }

  /** A request that waits is not stuck: it can take a token, or some request that holds one can go on. */
  lemma WaitingIsNotStuck(limit: nat, run: seq<Step>, i: nat) returns (a: Step)
    requires var r := Exec(Init(limit), run); At(r, i) && r.requests[i] == Waiting
    ensures Enabled(Exec(Init(limit), run), a)
    ensures a == Take(i) || (!a.Arrive? && !a.Take? && HoldsToken(Exec(Init(limit), run).requests[a.i]))
  {
    hide Exec;
    RunKeepsInv(limit, run);
    var r := Exec(Init(limit), run);
    if r.tokens > 0 || r.closed {
      a := Take(i);
    } else {
      var j := SomebodyHolds(r.requests);
      a := if r.requests[j] == Returning then GiveBack(j) else Decompressed(j);
    }
  }

  // ---- Every request decompresses, and nobody waits without need ----

  lemma ExecSnoc(r: Route, run: seq<Step>, a: Step)
    ensures
      var before := Exec(r, run);
      Exec(r, run + [a]) == if Enabled(before, a) then Do(before, a) else before
  {
    hide Enabled, Do;
    assert (run + [a])[..|run|] == run;
  }

  ghost predicate Finished(r: Route, i: nat) {
    At(r, i) && (r.requests[i] == Returning || r.requests[i] == Past)
  }

  /** A request takes no step past its decompression but from it. */
  lemma StepFinishes(r: Route, a: Step, i: nat)
    requires Enabled(r, a) && !Finished(r, i) && Finished(Do(r, a), i)
    ensures a == Decompressed(i) && At(r, i) && r.requests[i].Decompressing?
  {
  }

  /** In every run, a request that is past its decompression was decompressing before, with a token if there is a limit. */
  lemma {:induction false} FinishedHasDecompressed(limit: nat, run: seq<Step>, i: nat) returns (k: nat)
    requires Finished(Exec(Init(limit), run), i)
    ensures k < |run| && run[k] == Decompressed(i)
    ensures
      var r := Exec(Init(limit), run[..k]);
      At(r, i) && r.requests[i] == Decompressing(limit > 0)
  {
    hide Enabled, Do, Inv;
    if run == [] {
      assert false;
    } else {
      var n := |run| - 1;
      var before := Exec(Init(limit), run[..n]);
      if Finished(before, i) {
        k := FinishedHasDecompressed(limit, run[..n], i);
        assert run[..n][..k] == run[..k];
      } else {
        k := n;
        RunKeepsInv(limit, run[..n]);
        StepFinishes(before, run[n], i);
        TokenWhenLimited(before, i);
      }
    }
  }

  lemma TokenWhenLimited(r: Route, i: nat)
    requires Inv(r) && At(r, i) && r.requests[i].Decompressing?
    ensures r.requests[i] == Decompressing(r.capacity > 0)
  {
    if r.requests[i].token {
      HolderCounts(r.requests, i);
    }
  }

  /**
   A request that waits and tries to take a token is left waiting exactly if there is a limit and that many requests
   hold a token; otherwise it decompresses, whatever the others are at.
   */
  lemma WaitsIffAllHeld(limit: nat, run: seq<Step>, i: nat)
    requires var r := Exec(Init(limit), run); At(r, i) && r.requests[i] == Waiting
    ensures
      var r := Exec(Init(limit), run);
      Exec(Init(limit), run + [Take(i)]).requests
      == if limit > 0 && Holders(r.requests) == limit then r.requests else r.requests[i := Decompressing(limit > 0)]
  {
    RunKeepsInv(limit, run);
    ExecSnoc(Init(limit), run, Take(i));
    hide Exec, Holders;
  }

  /** A request that decompresses comes to its end by itself, and the route has as many tokens as without it. */
  lemma DecompressingEnds(limit: nat, run: seq<Step>, i: nat)
    requires var r := Exec(Init(limit), run); At(r, i) && r.requests[i].Decompressing?
    ensures
      var r := Exec(Init(limit), run);
      Exec(Init(limit), run + [Decompressed(i)] + [GiveBack(i)])
      == r.(requests := r.requests[i := Past], tokens := r.tokens + if limit > 0 then 1 else 0)
  {
    var r := Exec(Init(limit), run);
    RunKeepsInv(limit, run);
    TokenWhenLimited(r, i);
    if r.requests[i].token {
      HolderCounts(r.requests, i);
    }
    ExecSnoc(Init(limit), run, Decompressed(i));
    ExecSnoc(Init(limit), run + [Decompressed(i)], GiveBack(i));
    hide Exec, Holders;
  }

  /** One more request comes, and decompresses if not all tokens are held. */
  lemma OneMore(limit: nat, run: seq<Step>)
    requires limit == 0 || |Exec(Init(limit), run).requests| < limit
    ensures
      var ps := Exec(Init(limit), run).requests;
      Exec(Init(limit), run + [Arrive] + [Take(|ps|)]).requests == ps + [Decompressing(limit > 0)]
  {
    var ps := Exec(Init(limit), run).requests;
    ExecSnoc(Init(limit), run, Arrive);
    HoldersAtMost(ps);
    HoldersSnoc(ps, Waiting);
    WaitsIffAllHeld(limit, run + [Arrive], |ps|);
    hide Exec, Holders;
  }

  /** The limit can be used up: any number of requests up to it, and without a limit any number, decompress at once. */
  lemma {:induction false} LimitIsAttained(limit: nat, n: nat) returns (run: seq<Step>)
    requires limit == 0 || n <= limit
    ensures
      var r := Exec(Init(limit), run);
      |r.requests| == InUse(r.requests) == n && forall i :: 0 <= i < n ==> r.requests[i] == Decompressing(limit > 0)
  {
    if n == 0 {
      run := [];
    } else {
      var before := LimitIsAttained(limit, n - 1);
      hide Exec;
      OneMore(limit, before);
      run := before + [Arrive] + [Take(n - 1)];
      assert Exec(Init(limit), run).requests[..n - 1] == Exec(Init(limit), before).requests;
    }
  }

  lemma {:induction false} HoldersAtMost(ps: seq<Phase>)
    ensures Holders(ps) <= |ps|
  {
    if ps != [] {
      HoldersAtMost(ps[..|ps| - 1]);
    }
  }
}
