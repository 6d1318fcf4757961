/** The goroutines of one fan-out side by side: all uploads can be under way at once, and may end in any order. */
module FanOutParallel {
  import opened Options
  import opened Sequences
  import opened FanOut

  /** One attempted step. */
  ghost function Then<R>(w: World<R>, s: State<R>, a: Step): State<R> {
    if Enabled(w, s, a) then Do(w, s, a) else s
  }

  lemma ExecSnoc<R>(w: World<R>, s: State<R>, run: seq<Step>, a: Step)
    ensures Exec(w, s, run + [a]) == Then(w, Exec(w, s, run), a)
  {
    hide Enabled, Do;
    assert (run + [a])[..|run|] == run;
  }

  lemma {:induction false} ExecConcat<R>(w: World<R>, s: State<R>, run: seq<Step>, more: seq<Step>)
    ensures Exec(w, s, run + more) == Exec(w, Exec(w, s, run), more)
    decreases |more|
  {
    hide Enabled, Do;
    if more == [] {
      assert run + more == run;
    } else {
      var front, a := more[..|more| - 1], more[|more| - 1];
      assert run + more == (run + front) + [a];
      ExecConcat(w, s, run, front);
      ExecSnoc(w, s, run + front, a);
    }
  }

  lemma ExecFour<R>(w: World<R>, s: State<R>, a: Step, b: Step, c: Step, d: Step)
    ensures Exec(w, s, [a]) == Then(w, s, a)
    ensures Exec(w, s, [a, b, c, d]) == Then(w, Then(w, Then(w, Then(w, s, a), b), c), d)
  {
    hide Enabled, Do;
    assert [a][..0] == [] && [a, b][..1] == [a] && [a, b, c][..2] == [a, b];
    ExecSnoc(w, s, [a, b, c], d);
    assert [a, b, c] + [d] == [a, b, c, d];
  }

  // ---- All at once ----

  /** The loop has started the first `n` goroutines, and nothing else has happened. */
  ghost function Spawned<R>(w: World<R>, n: nat): State<R> {
    var s := Init(w);
    s.(pairs := seq(|w.uploads|, i => if i < n then Uploading else NotStarted), main := Spawning(n))
  }

  /** The loop starts its goroutines one after the other, without waiting for any of them. */
  lemma {:induction false} SpawnsAtOnce<R>(w: World<R>, n: nat)
    requires w.Valid() && n <= |w.uploads|
    ensures Exec(w, Init(w), seq(n, _ => Spawn)) == Spawned(w, n)
  {
    if n == 0 {
      assert Init(w).pairs == Spawned(w, 0).pairs;
    } else {
      SpawnsAtOnce(w, n - 1);
      assert seq(n, _ => Spawn) == seq(n - 1, _ => Spawn) + [Spawn];
      ExecSnoc(w, Init(w), seq(n - 1, _ => Spawn), Spawn);
      assert Spawned(w, n).pairs == Spawned(w, n - 1).pairs[n - 1 := Uploading];
    }
  }

  /** For every work unit there is a run after which all its uploads are under way at once. */
  lemma AllUploadAtOnce<R>(w: World<R>) returns (run: seq<Step>)
    requires w.Valid()
    ensures
      var s := Exec(w, Init(w), run);
      |s.pairs| == |w.uploads| && forall i :: 0 <= i < |s.pairs| ==> s.pairs[i] == Uploading
  {
    run := seq(|w.uploads|, _ => Spawn);
    SpawnsAtOnce(w, |w.uploads|);
    hide Exec;
  }

  // ---- Each by itself ----

  /** What the error channel gets of pair `i`. */
  ghost function ErrorOf<R>(w: World<R>, i: nat): seq<Error>
    requires w.Valid() && i < |w.uploads|
  {
    match Expected(w, i) case Some(f) => [Error(i, f)] case None => []
  }

  /** Pair `i` is through: its storage was called once and its queue told of a success; everything else as before. */
  ghost function Through<R>(w: World<R>, s: State<R>, i: nat): State<R>
    requires w.Valid() && i < |w.uploads| && |s.pairs| == |s.uploads| == |s.messages| == |w.uploads|
  {
    var told := match w.uploads[i] case Some(r) => [r] case None => [];
    s.(pairs := s.pairs[i := Left], uploads := s.uploads[i := 1], messages := s.messages[i := told],
       errorChan := s.errorChan + ErrorOf(w, i))
  }

  /** The loop and the uploads go on whatever the other goroutines are at. */
  lemma GoesOn<R>(w: World<R>, s: State<R>, i: nat)
    requires Inv(w, s)
    ensures s.main.Spawning? && s.main.next < |s.pairs| ==>
      Exec(w, s, [Spawn]) == s.(pairs := s.pairs[s.main.next := Uploading], main := Spawning(s.main.next + 1))
    ensures i < |s.pairs| && s.pairs[i] == Uploading ==>
      var s' := Exec(w, s, [Upload(i)]);
      && s'.uploads == s.uploads[i := 1]
      && s'.pairs == s.pairs[i := match w.uploads[i] case Some(r) => Uploaded(r) case None => Failing(UploadFailed)]
  {
    ExecFour(w, s, Spawn, Spawn, Spawn, Spawn);
    ExecFour(w, s, Upload(i), Upload(i), Upload(i), Upload(i));
    if i < |s.pairs| && s.pairs[i] == Uploading {
      assert PairOk(w, s.pairs[i], s.uploads[i], s.messages[i], i);
    }
    hide Exec, ErrorsOk;
  }

  /** Pair `i` after its upload and its message. */
  ghost function Served<R>(w: World<R>, s: State<R>, i: nat): State<R>
    requires w.Valid() && i < |w.uploads| && |s.pairs| == |s.uploads| == |s.messages| == |w.uploads|
  {
    var p := match Expected(w, i) case Some(f) => Failing(f) case None => Leaving;
    Through(w, s, i).(pairs := s.pairs[i := p], errorChan := s.errorChan)
  }

  lemma PairIsServed<R>(w: World<R>, s: State<R>, i: nat)
    requires Inv(w, s) && i < |s.pairs| && s.pairs[i] == Uploading
    ensures Then(w, Then(w, s, Upload(i)), Notify(i)) == Served(w, s, i)
  {
    hide ErrorsOk, MainOk;
    assert PairOk(w, s.pairs[i], s.uploads[i], s.messages[i], i);
    assert s.messages[i := []] == s.messages;
    match w.uploads[i] {
      case Some(r) => assert [] + [r] == [r];
      case None =>
    }
    var after, served := Then(w, Then(w, s, Upload(i)), Notify(i)), Served(w, s, i);
    assert after.pairs == served.pairs && after.uploads == served.uploads && after.messages == served.messages;
  }

  lemma ServedPairLeaves<R>(w: World<R>, s: State<R>, i: nat)
    requires PairsOk(w, s) && i < |s.pairs| && !s.closed && |s.errorChan| < |s.pairs|
    ensures Then(w, Then(w, Served(w, s, i), Report(i)), Leave(i)) == Through(w, s, i)
  {
    hide PairOk;
    var s', through := Then(w, Then(w, Served(w, s, i), Report(i)), Leave(i)), Through(w, s, i);
    assert s'.pairs == through.pairs && s'.errorChan == through.errorChan;
  }

  /**
   From every state that keeps the invariant, a goroutine that uploads comes to its end by its own steps alone: nobody
   has to move for it, and it moves nobody.
   */
  lemma PairGoesAlone<R>(w: World<R>, s: State<R>, i: nat)
    requires Inv(w, s) && i < |s.pairs| && s.pairs[i] == Uploading
    ensures Exec(w, s, [Upload(i), Notify(i), Report(i), Leave(i)]) == Through(w, s, i)
  {
    ExecFour(w, s, Upload(i), Notify(i), Report(i), Leave(i));
    RoomToReport(w, s, i);
    PairIsServed(w, s, i);
    ServedPairLeaves(w, s, i);
    hide Exec, Inv, Then;
  }

  lemma RoomToReport<R>(w: World<R>, s: State<R>, i: nat)
    requires Inv(w, s) && i < |s.pairs| && s.pairs[i] == Uploading
    ensures !s.closed && |s.errorChan| < |s.pairs|
  {
    var numbers := Numbers(Reported(s));
    DistinctBelow(numbers, |s.pairs|, i);
    assert |s.errorChan| <= |numbers|;
  }

  /** All steps of some goroutines, one goroutine after the other. */
  ghost function OneByOne(order: seq<nat>): seq<Step> {
    if order == [] then []
    else
      var i := order[|order| - 1];
      OneByOne(order[..|order| - 1]) + [Upload(i), Notify(i), Report(i), Leave(i)]
  }

  /** Uploads that are under way may end in any order, each for itself, whatever the other goroutines are at. */
  lemma {:induction false} AnyOrder<R>(w: World<R>, s: State<R>, order: seq<nat>)
    requires Inv(w, s) && Distinct(order)
    requires forall k :: 0 <= k < |order| ==> order[k] < |s.pairs| && s.pairs[order[k]] == Uploading
    ensures
      var s' := Exec(w, s, OneByOne(order));
      && Inv(w, s') && s'.main == s.main && |s'.pairs| == |s.pairs|
      && (forall i: nat :: i < |s.pairs| ==> s'.pairs[i] == if i in order then Left else s.pairs[i])
      && (forall i: nat :: i < |s.pairs| && i in order ==> s'.uploads[i] == 1)
  {
    hide Inv, Exec;
    if order == [] {
      NoSteps(w, s);
    } else {
      var front, i := order[..|order| - 1], order[|order| - 1];
      AnyOrder(w, s, front);
      var before, last := Exec(w, s, OneByOne(front)), [Upload(i), Notify(i), Report(i), Leave(i)];
      LastIsNew(order);
      NextThrough(w, before, i);
      ExecConcat(w, s, OneByOne(front), last);
    }
  }

  lemma LastIsNew(order: seq<nat>)
    requires Distinct(order) && order != []
    ensures order[|order| - 1] !in order[..|order| - 1]
  {
  }

  lemma NoSteps<R>(w: World<R>, s: State<R>)
    ensures Exec(w, s, []) == s
  {
  }

  lemma NextThrough<R>(w: World<R>, s: State<R>, i: nat)
    requires Inv(w, s) && i < |s.pairs| && s.pairs[i] == Uploading
    ensures
      var s' := Exec(w, s, [Upload(i), Notify(i), Report(i), Leave(i)]);
      && Inv(w, s') && |s.uploads| == |s'.uploads| == |s'.pairs| == |s.pairs| && s'.main == s.main
      && s'.pairs == s.pairs[i := Left] && s'.uploads == s.uploads[i := 1]
  {
    InvRun(w, s, [Upload(i), Notify(i), Report(i), Leave(i)]);
    PairGoesAlone(w, s, i);
    hide Exec;
  }

  lemma {:induction false} InvRun<R>(w: World<R>, s: State<R>, run: seq<Step>)
    requires Inv(w, s)
    ensures Inv(w, Exec(w, s, run))
  {
    hide Inv, Enabled, Do;
    if run != [] {
      var front, a := run[..|run| - 1], run[|run| - 1];
      InvRun(w, s, front);
      if Enabled(w, Exec(w, s, front), a) {
        StepKeepsInv(w, Exec(w, s, front), a);
      }
    }
  }
}
