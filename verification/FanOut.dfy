/**
 A worker sending one work unit to all its storages in parallel and telling each storage's queue about the result
 (`sendDataAndNotify`, pkg/worker/worker.go): one goroutine per storage and queue pair, an error channel with room for
 one error per pair, a wait group, and a loop that joins the errors. Any interleaving is a run.
 */
module FanOut {
  import opened Options
  import opened Sequences

  /** How the outside world will answer: what each storage returns, if it succeeds, and whether each queue accepts. */
  datatype World<R> = World(uploads: seq<Option<R>>, accepts: seq<bool>) {
    /** A worker is not created with different numbers of storages and queues. */
    ghost predicate Valid() {
      |uploads| == |accepts|
    }
  }

  datatype Failure = UploadFailed | EnqueueFailed

  datatype Error = Error(pair: nat, failure: Failure)

  datatype Phase<R> = NotStarted | Uploading | Uploaded(result: R) | Failing(failure: Failure) | Leaving | Left

  datatype Main = Spawning(next: nat) | Waiting | Collecting(joined: seq<Error>) | Returned(joined: seq<Error>)

  datatype State<R> = State(
    pairs: seq<Phase<R>>,
    uploads: seq<nat>,         // calls of each storage
    messages: seq<seq<R>>,     // messages sent to each queue
    errorChan: seq<Error>,
    closed: bool,
    panicked: bool,
    main: Main)

  datatype Step = Spawn | SpawnedAll | Upload(i: nat) | Notify(i: nat) | Report(i: nat) | Leave(i: nat) | Close | Collect | Return

  ghost function Init<R>(w: World<R>): State<R> {
    var n := |w.uploads|;
    State(seq(n, _ => NotStarted), seq(n, _ => 0), seq(n, _ => []), [], false, false, Spawning(0))
  }

  ghost predicate At<R>(s: State<R>, i: nat) {
    i < |s.pairs|
  }

  ghost predicate AllLeft<R>(s: State<R>) {
    forall i :: 0 <= i < |s.pairs| ==> s.pairs[i] == Left
  }

  /** A send on the error channel waits for room; sending on it once closed panics. */
  ghost predicate Enabled<R>(w: World<R>, s: State<R>, a: Step) {
    match a
    case Spawn => s.main.Spawning? && s.main.next < |s.pairs|
    case SpawnedAll => s.main.Spawning? && s.main.next == |s.pairs|
    case Upload(i) => At(s, i) && i < |w.uploads| && i < |s.uploads| && s.pairs[i] == Uploading
    case Notify(i) => At(s, i) && i < |w.accepts| && i < |s.messages| && s.pairs[i].Uploaded?
    case Report(i) => At(s, i) && s.pairs[i].Failing? && (s.closed || |s.errorChan| < |s.pairs|)
    case Leave(i) => At(s, i) && s.pairs[i] == Leaving
    case Close => s.main == Waiting && AllLeft(s)
    case Collect => s.main.Collecting? && s.errorChan != []
    case Return => s.main.Collecting? && s.errorChan == []
  }

  ghost function Move<R>(s: State<R>, i: nat, p: Phase<R>): State<R>
    requires At(s, i)
  {
    s.(pairs := s.pairs[i := p])
  }

  ghost function Do<R>(w: World<R>, s: State<R>, a: Step): State<R>
    requires Enabled(w, s, a)
  {
    match a
    case Spawn => Move(s, s.main.next, Uploading).(main := Spawning(s.main.next + 1))
    case SpawnedAll => s.(main := Waiting)
    case Upload(i) =>
      var p := match w.uploads[i] case Some(r) => Uploaded(r) case None => Failing(UploadFailed);
      Move(s, i, p).(uploads := s.uploads[i := s.uploads[i] + 1])
    case Notify(i) =>
      Move(s, i, if w.accepts[i] then Leaving else Failing(EnqueueFailed))
        .(messages := s.messages[i := s.messages[i] + [s.pairs[i].result]])
    case Report(i) =>
      if s.closed then s.(panicked := true)
      else Move(s, i, Leaving).(errorChan := s.errorChan + [Error(i, s.pairs[i].failure)])
    case Leave(i) => Move(s, i, Left)
    case Close => s.(closed := true, main := Collecting([]))
    case Collect => s.(errorChan := s.errorChan[1..], main := Collecting(s.main.joined + [s.errorChan[0]]))
    case Return => s.(main := Returned(s.main.joined))
  }

  // ---- What every run keeps ----

  /** What goes wrong with a pair, if anything does. */
  ghost function Expected<R>(w: World<R>, i: nat): Option<Failure>
    requires w.Valid() && i < |w.uploads|
  {
    if w.uploads[i] == None then Some(UploadFailed)
    else if !w.accepts[i] then Some(EnqueueFailed)
    else None
  }

  ghost predicate PairOk<R>(w: World<R>, p: Phase<R>, uploads: nat, messages: seq<R>, i: nat)
    requires w.Valid() && i < |w.uploads|
  {
    var up := w.uploads[i];
    var told := if up.Some? then [up.value] else [];
    match p
    case NotStarted => uploads == 0 && messages == []
    case Uploading => uploads == 0 && messages == []
    case Uploaded(r) => uploads == 1 && messages == [] && up == Some(r)
    case Failing(f) => uploads == 1 && messages == told && Expected(w, i) == Some(f)
    case _ => uploads == 1 && messages == told
  }

  ghost predicate PairsOk<R>(w: World<R>, s: State<R>) {
    && w.Valid() && |s.pairs| == |s.uploads| == |s.messages| == |w.uploads|
    && forall i :: 0 <= i < |s.pairs| ==> PairOk(w, s.pairs[i], s.uploads[i], s.messages[i], i)
  }

  ghost predicate MainOk<R>(s: State<R>) {
    && !s.panicked
    && (s.closed <==> s.main.Collecting? || s.main.Returned?)
    && (s.closed ==> AllLeft(s))
    && (s.main.Returned? ==> s.errorChan == [])
    && (s.main.Spawning? ==>
          s.main.next <= |s.pairs|
          && forall i :: s.main.next <= i < |s.pairs| ==> s.pairs[i] == NotStarted)
    && (forall i :: 0 <= i < |s.pairs| && s.pairs[i] == NotStarted ==> s.main.Spawning? && s.main.next <= i)
  }

  /** Every error reported so far, collected or still in the channel. */
  ghost function Reported<R>(s: State<R>): seq<Error> {
    (if s.main.Collecting? || s.main.Returned? then s.main.joined else []) + s.errorChan
  }

  ghost function Numbers(errors: seq<Error>): seq<nat> {
    seq(|errors|, k requires 0 <= k < |errors| => errors[k].pair)
  }

  ghost predicate Gone<R>(p: Phase<R>) {
    p.Leaving? || p.Left?
  }

  /** Exactly the pairs that failed and are past reporting it are on record, each once, with its own failure. */
  ghost predicate ErrorsOk<R>(w: World<R>, s: State<R>) {
    var errors := Reported(s);
    && w.Valid() && |s.pairs| == |w.uploads|
    && Distinct(Numbers(errors))
    && (forall k :: 0 <= k < |errors| ==>
          errors[k].pair < |s.pairs| && Gone(s.pairs[errors[k].pair])
          && Expected(w, errors[k].pair) == Some(errors[k].failure))
    && (forall i :: 0 <= i < |s.pairs| && Gone(s.pairs[i]) && Expected(w, i).Some? ==> i in Numbers(errors))
  }

  ghost predicate Inv<R>(w: World<R>, s: State<R>) {
    PairsOk(w, s) && MainOk(s) && ErrorsOk(w, s)
  }

  lemma KeepsPairs<R>(w: World<R>, s: State<R>, a: Step)
    requires PairsOk(w, s) && MainOk(s) && Enabled(w, s, a)
    ensures PairsOk(w, Do(w, s, a))
  {
    if a.Spawn? {
      assert PairOk(w, s.pairs[s.main.next], s.uploads[s.main.next], s.messages[s.main.next], s.main.next);
    }
  }

  lemma KeepsMain<R>(w: World<R>, s: State<R>, a: Step)
    requires MainOk(s) && Enabled(w, s, a)
    ensures MainOk(Do(w, s, a))
  {
  }

  lemma ReportKeepsErrors<R>(w: World<R>, s: State<R>, i: nat)
    requires PairsOk(w, s) && MainOk(s) && ErrorsOk(w, s) && Enabled(w, s, Report(i))
    ensures ErrorsOk(w, Do(w, s, Report(i)))
  {
    var s', e := Do(w, s, Report(i)), Error(i, s.pairs[i].failure);
    assert !s.closed;
    assert Reported(s') == Reported(s) + [e];
    assert Numbers(Reported(s')) == Numbers(Reported(s)) + [i];
    assert i !in Numbers(Reported(s));
    assert PairOk(w, s.pairs[i], s.uploads[i], s.messages[i], i);
    assert (Numbers(Reported(s)) + [i])[|Reported(s)|] == i;
  }

  /** A pair that moves on without reporting had nothing to report, and is none of those that reported. */
  lemma MoveKeepsErrors<R>(w: World<R>, s: State<R>, i: nat, s': State<R>)
    requires ErrorsOk(w, s) && i < |s.pairs|
    requires |s'.pairs| == |s.pairs| && forall k :: 0 <= k < |s.pairs| && k != i ==> s'.pairs[k] == s.pairs[k]
    requires Reported(s') == Reported(s)
    requires Gone(s.pairs[i]) ==> Gone(s'.pairs[i])
    requires Gone(s'.pairs[i]) && !Gone(s.pairs[i]) ==> Expected(w, i) == None
    ensures ErrorsOk(w, s')
  {
  }

  lemma KeepsErrors<R>(w: World<R>, s: State<R>, a: Step)
    requires PairsOk(w, s) && MainOk(s) && ErrorsOk(w, s) && Enabled(w, s, a)
    ensures ErrorsOk(w, Do(w, s, a))
  {
    hide ErrorsOk;
    match a
    case Report(i) => ReportKeepsErrors(w, s, i);
    case Spawn => MoveKeepsErrors(w, s, s.main.next, Do(w, s, a));
    case Upload(i) => MoveKeepsErrors(w, s, i, Do(w, s, a));
    case Notify(i) =>
      assert PairOk(w, s.pairs[i], s.uploads[i], s.messages[i], i);
      MoveKeepsErrors(w, s, i, Do(w, s, a));
    case Leave(i) => MoveKeepsErrors(w, s, i, Do(w, s, a));
    case Collect =>
      assert s.errorChan == [s.errorChan[0]] + s.errorChan[1..];
      QuietErrors(w, s, Do(w, s, a));
    case _ => QuietErrors(w, s, Do(w, s, a));
  }

  lemma QuietErrors<R>(w: World<R>, s: State<R>, s': State<R>)
    requires ErrorsOk(w, s) && s'.pairs == s.pairs && Reported(s') == Reported(s)
    ensures ErrorsOk(w, s')
  {
  }

  lemma StepKeepsInv<R>(w: World<R>, s: State<R>, a: Step)
    requires Inv(w, s) && Enabled(w, s, a)
    ensures Inv(w, Do(w, s, a))
  {
    hide PairsOk, MainOk, ErrorsOk, Enabled, Do;
    KeepsPairs(w, s, a);
    KeepsMain(w, s, a);
    KeepsErrors(w, s, a);
  }

  /** The state after some attempted steps, in order; an attempt that is not enabled changes nothing. */
  ghost function Exec<R>(w: World<R>, s: State<R>, run: seq<Step>): State<R> {
    if run == [] then s
    else
      var before, a := Exec(w, s, run[..|run| - 1]), run[|run| - 1];
      if Enabled(w, before, a) then Do(w, before, a) else before
  }

  lemma {:induction false} RunKeepsInv<R>(w: World<R>, run: seq<Step>)
    requires w.Valid()
    ensures Inv(w, Exec(w, Init(w), run))
  {
    hide Inv, Enabled, Do;
    if run == [] {
      InitOk(w);
    } else {
      var front, a := run[..|run| - 1], run[|run| - 1];
      RunKeepsInv(w, front);
      var s := Exec(w, Init(w), front);
      if Enabled(w, s, a) {
        StepKeepsInv(w, s, a);
      }
    }
  }

  lemma InitOk<R>(w: World<R>)
    requires w.Valid()
    ensures Inv(w, Init(w))
  {
  }

  // ---- Nobody blocks, and the run ends ----

  /** A goroutine with an error to report finds room in the channel, and the channel open. */
  lemma ReportNeverBlocks<R>(w: World<R>, s: State<R>, i: nat)
    requires Inv(w, s) && i < |s.pairs| && s.pairs[i].Failing?
    ensures Enabled(w, s, Report(i)) && !s.closed
  {
    var numbers := Numbers(Reported(s));
    DistinctBelow(numbers, |s.pairs|, i);
    assert |s.errorChan| <= |numbers|;
  }

  ghost function PairWeight<R>(p: Phase<R>): nat {
    match p
    case NotStarted => 6 case Uploading => 5 case Uploaded(_) => 4 case Failing(_) => 3 case Leaving => 1 case Left => 0
  }

  ghost function PairsWeight<R>(ps: seq<Phase<R>>): nat {
    if ps == [] then 0 else PairsWeight(ps[..|ps| - 1]) + PairWeight(ps[|ps| - 1])
  }

  lemma {:induction false} PairsWeightMove<R>(ps: seq<Phase<R>>, i: nat, p: Phase<R>)
    requires i < |ps|
    ensures PairsWeight(ps[i := p]) == PairsWeight(ps) - PairWeight(ps[i]) + PairWeight(p)
  {
    var n := |ps| - 1;
    if i == n {
      assert ps[i := p][..n] == ps[..n];
    } else {
      PairsWeightMove(ps[..n], i, p);
      assert ps[i := p][..n] == ps[..n][i := p];
    }
  }

  ghost function WorkLeft<R>(s: State<R>): nat {
    PairsWeight(s.pairs) + |s.errorChan|
    + match s.main case Spawning(_) => 3 case Waiting => 2 case Collecting(_) => 1 case Returned(_) => 0
  }

  /** Every step leaves less to do, so no run goes on forever. */
  lemma StepDescends<R>(w: World<R>, s: State<R>, a: Step)
    requires Inv(w, s) && Enabled(w, s, a)
    ensures WorkLeft(Do(w, s, a)) < WorkLeft(s)
  {
    hide PairsWeight, PairsOk, ErrorsOk;
    match a
    case Spawn => PairsWeightMove(s.pairs, s.main.next, Uploading);
    case Upload(i) => PairsWeightMove(s.pairs, i, Do(w, s, a).pairs[i]);
    case Notify(i) => PairsWeightMove(s.pairs, i, Do(w, s, a).pairs[i]);
    case Report(i) => PairsWeightMove(s.pairs, i, Leaving);
    case Leave(i) => PairsWeightMove(s.pairs, i, Left);
    case _ =>
  }

  /** Until it has returned, some step can be taken. */
  lemma NoDeadlock<R>(w: World<R>, s: State<R>) returns (a: Step)
    requires Inv(w, s) && !s.main.Returned?
    ensures Enabled(w, s, a)
  {
    if i: nat :| i < |s.pairs| && s.pairs[i] != NotStarted && s.pairs[i] != Left {
      match s.pairs[i]
      case Uploading => a := Upload(i);
      case Uploaded(_) => a := Notify(i);
      case Failing(_) => ReportNeverBlocks(w, s, i); a := Report(i);
      case Leaving => a := Leave(i);
    } else {
      match s.main
      case Spawning(next) => a := if next < |s.pairs| then Spawn else SpawnedAll;
      case Waiting => a := Close;
      case Collecting(_) => a := if s.errorChan != [] then Collect else Return;
    }
  }

  // ---- The result ----

  /** The pairs for which something goes wrong. */
  ghost function Failed<R>(w: World<R>): set<nat>
    requires w.Valid()
  {
    set i: nat | i < |w.uploads| && Expected(w, i).Some?
  }

  /**
   Whatever the interleaving, once the call has returned: each storage was called once; a queue got one message
   exactly when its storage succeeded, with that storage's result; and there is one error for each pair that failed
   and none for the others, so that the result is nil exactly when everything succeeded.
   */
  lemma FanOutResult<R>(w: World<R>, run: seq<Step>)
    requires w.Valid() && Exec(w, Init(w), run).main.Returned?
    ensures
      var s := Exec(w, Init(w), run);
      && !s.panicked
      && |s.uploads| == |s.messages| == |w.uploads|
      && (forall i :: 0 <= i < |w.uploads| ==>
            s.uploads[i] == 1 && s.messages[i] == match w.uploads[i] case Some(r) => [r] case None => [])
      && Elements(Numbers(s.main.joined)) == Failed(w) && |s.main.joined| == |Failed(w)|
      && (forall e :: e in s.main.joined ==> e.pair < |w.uploads| && Expected(w, e.pair) == Some(e.failure))
      && (s.main.joined == [] <==> forall i :: 0 <= i < |w.uploads| ==> w.uploads[i].Some? && w.accepts[i])
  {
    var s := Exec(w, Init(w), run);
    RunKeepsInv(w, run);
    forall i | 0 <= i < |w.uploads|
      ensures s.uploads[i] == 1 && s.messages[i] == match w.uploads[i] case Some(r) => [r] case None => []
    {
      assert PairOk(w, s.pairs[i], s.uploads[i], s.messages[i], i);
    }
    ErrorsAreFailures(w, s);
  }

  lemma ErrorsAreFailures<R>(w: World<R>, s: State<R>)
    requires Inv(w, s) && s.main.Returned?
    ensures Elements(Numbers(s.main.joined)) == Failed(w) && |s.main.joined| == |Failed(w)|
    ensures forall e :: e in s.main.joined ==> e.pair < |w.uploads| && Expected(w, e.pair) == Some(e.failure)
    ensures s.main.joined == [] <==> forall i :: 0 <= i < |w.uploads| ==> w.uploads[i].Some? && w.accepts[i]
  {
    var errors := s.main.joined;
    assert Reported(s) == errors + [] == errors;
    assert Elements(Numbers(errors)) == Failed(w);
    DistinctSize(Numbers(errors));
    if errors == [] {
      forall i | 0 <= i < |w.uploads| ensures w.uploads[i].Some? && w.accepts[i] {
        assert i !in Failed(w);
      }
    } else {
      assert Expected(w, errors[0].pair).Some?;
    }
  }
}
