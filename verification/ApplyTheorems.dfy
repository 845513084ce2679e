/** What holds in every schedule of the participants of a dispatch_apply. */
module ApplyTheorems {
  import opened Common
  import opened ApplyProtocol

  /** The participants named in `run` take their next step, in that order. */
  ghost predicate Runs(s: State, run: seq<nat>)
    decreases |run|
  {
    run == [] || (Enabled(s, run[0]) && Runs(Step(s, run[0]), run[1..]))
  }

  ghost function After(s: State, run: seq<nat>): State
    requires Runs(s, run)
    decreases |run|
  {
    if run == [] then s else After(Step(s, run[0]), run[1..])
  }

  lemma {:induction false} RunInv(s: State, run: seq<nat>)
    requires Inv(s) && Runs(s, run)
    ensures Inv(After(s, run)) && |After(s, run).pcs| == |s.pcs| && After(s, run).iterations == s.iterations
    decreases |run|
  {
    hide Inv;
    hide Enabled;
    hide Step;
    if run != [] {
      StepInv(s, run[0]);
      StepShape(s, run[0]);
      RunInv(Step(s, run[0]), run[1..]);
    }
  }

  ghost predicate Reachable(s: State) {
    exists iterations: nat, participants: nat, run ::
      && iterations >= 1 && participants >= 1
      && Runs(Init(iterations, participants), run) && After(Init(iterations, participants), run) == s
  }

  lemma ReachableInv(s: State)
    requires Reachable(s)
    ensures Inv(s)
  {
    hide Inv;
    var iterations: nat, participants: nat, run :|
      && iterations >= 1 && participants >= 1
      && Runs(Init(iterations, participants), run) && After(Init(iterations, participants), run) == s;
    InitInv(iterations, participants);
    RunInv(Init(iterations, participants), run);
  }

  ghost predicate AllFinished(s: State) {
    forall p :: 0 <= p < |s.pcs| ==> s.pcs[p].Finished?
  }

  lemma NothingLeft(s: State)
    requires Inv(s) && s.todo == 0
    ensures forall i :: 0 <= i < s.iterations ==> i in s.flushed
  {
    forall i: nat | i < s.iterations ensures i in s.flushed {
      if i !in s.flushed {
        SubsetSize(s.flushed + {i}, Upto(s.iterations));
      }
    }
  }

  /** No index is called twice, none that was not asked for, and none returns uncalled. */
  lemma CalledAtMostOnce(s: State)
    requires Reachable(s)
    ensures NoDup(s.calls) && NoDup(s.returned)
    ensures forall i :: i in s.calls ==> i < s.iterations
    ensures forall i :: i in s.returned ==> i in s.calls
  {
    ReachableInv(s);
    forall i | i in s.returned ensures i in s.calls {
      assert i in s.owner;
    }
  }

  /** The event is signalled at most once, and by then every callout has returned. */
  lemma SignalledOnceAfterAll(s: State)
    requires Reachable(s)
    ensures s.signals <= 1
    ensures s.signals == 1 || (exists p :: 0 <= p < |s.pcs| && s.pcs[p].Signalling?) ==>
      forall i :: 0 <= i < s.iterations ==> i in s.returned
  {
    ReachableInv(s);
    if s.todo == 0 {
      NothingLeft(s);
      hide Begun;
      hide Mine;
      assert forall i :: 0 <= i < s.iterations ==> i in s.owner;
    }
  }

  /** When all have finished: each index was called exactly once, da freed once, the event signalled once. */
  lemma FinishedMeansDone(s: State)
    requires Reachable(s) && AllFinished(s)
    ensures NoDup(s.calls) && (forall i: nat :: i in s.calls <==> i < s.iterations)
    ensures s.freed == 1 && s.signals == 1 && s.thrCnt == 0 && s.todo == 0
  {
    ReachableInv(s);
    CalledAtMostOnce(s);
    SignalledOnceAfterAll(s);
    assert s.pcs[0].Finished?;
    assert Active(s.pcs) == {};
  }

  /** da_dc, on the caller's stack, is read only while the caller is still to be signalled. */
  lemma CallerInsideWhenRead(s: State, p: nat)
    requires Reachable(s) && p < |s.pcs| && s.pcs[p].Loading?
    ensures s.todo > 0 && s.signals == 0
    ensures !s.pcs[0].Leaving? && !s.pcs[0].Freeing? && !s.pcs[0].Finished?
  {
    ReachableInv(s);
    ReadInside(s, p);
  }

  lemma ReadInside(s: State, p: nat)
    requires Inv(s) && p < |s.pcs| && s.pcs[p].Loading?
    ensures s.todo > 0 && s.signals == 0
    ensures !s.pcs[0].Leaving? && !s.pcs[0].Freeing? && !s.pcs[0].Finished?
  {
    assert ClaimOk(s, p);
    var idx := s.pcs[p].idx;
    assert idx in s.owner && idx !in s.flushed;
    assert s.flushed <= Upto(s.iterations);
    SubsetSize(s.flushed, Upto(s.iterations));
    if s.todo == 0 {
      NothingLeft(s);
      assert false;
    }
  }

  /** Nobody touches da after it is freed, and it is freed once. */
  lemma NoUseAfterFree(s: State, p: nat)
    requires Reachable(s) && Enabled(s, p)
    ensures s.freed == 0
    ensures Step(s, p).freed == 1 ==> forall q :: 0 <= q < |s.pcs| && q != p ==> s.pcs[q].Finished?
  {
    ReachableInv(s);
    if s.thrCnt == 0 {
      ActiveEmpty(s);
    }
    hide Active;
    hide Step;
    hide ClaimsOk;
    hide CallsOk;
    hide EventOk;
    FreedBy(s, p);
  }

  lemma FreedBy(s: State, p: nat)
    requires Enabled(s, p) && s.freed == 0
    ensures Step(s, p).freed == 1 <==> s.pcs[p].Freeing?
  {
  }

  lemma ActiveEmpty(s: State)
    requires CountOk(s) && s.thrCnt == 0
    ensures forall q :: 0 <= q < |s.pcs| ==> Past(s.pcs[q])
  {
    assert Active(s.pcs) == {};
    forall q | 0 <= q < |s.pcs| ensures Past(s.pcs[q]) {
      assert q !in Active(s.pcs);
    }
  }

  /** Started, and sure to take an index off da_todo or to signal without waiting for anyone. */
  ghost predicate Working(s: State, p: nat) {
    && p < |s.pcs| && !s.pcs[p].Start?
    && (Claimed(s.pcs[p], s.iterations) != {} || s.pcs[p].Signalling?)
  }

  /** The caller never waits for a participant that has not started. */
  lemma WaitsOnlyForStarted(s: State)
    requires Reachable(s) && |s.pcs| >= 1 && s.pcs[0].Waiting? && s.signals == 0
    ensures exists p :: Working(s, p) && Enabled(s, p)
  {
    ReachableInv(s);
    var p := Worker(s);
  }

  lemma Worker(s: State) returns (p: nat)
    requires Inv(s) && s.pcs[0].Waiting? && s.signals == 0
    ensures Working(s, p) && Enabled(s, p) && p != 0
  {
    if s.todo == 0 {
      p := s.signaller.value;
    } else {
      var i := Unflushed(s);
      assert i in Claimed(s.pcs[s.owner[i]], s.iterations);
      p := s.owner[i];
    }
  }

  lemma Unflushed(s: State) returns (i: nat)
    requires Inv(s) && s.todo != 0 && s.index >= s.iterations
    ensures i in s.owner && i !in s.flushed
  {
    assert s.flushed != Upto(s.iterations);
    assert s.flushed <= Upto(s.iterations);
    i :| i in Upto(s.iterations) && i !in s.flushed;
  }

  /** Until all have finished, somebody can take a step. */
  lemma NoDeadlock(s: State)
    requires Reachable(s) && !AllFinished(s)
    ensures exists p :: Enabled(s, p)
  {
    ReachableInv(s);
    var p :| 0 <= p < |s.pcs| && !s.pcs[p].Finished?;
    if s.pcs[p].Waiting? && s.signals == 0 {
      assert p == 0;
      WaitsOnlyForStarted(s);
    } else {
      assert Enabled(s, p);
    }
  }

  /** How many steps a participant can still take without getting another index below n. */
  function Rank(pc: Pc, n: nat): nat {
    match pc
    case Start => 8
    case Got(idx, _, _) => if idx < n then 12 else 7
    case Loading(_) => 11
    case Calling(_, _, _) => 10
    case Next(_, _) => 8
    case Flush(_, _) => 6
    case Signalling => 5
    case Out => 4
    case Waiting => 3
    case Leaving => 2
    case Freeing => 1
    case Finished => 0
  }

  function Total(pcs: seq<Pc>, n: nat): nat {
    if pcs == [] then 0 else Rank(pcs[0], n) + Total(pcs[1..], n)
  }

  function Measure(s: State): nat {
    5 * (if s.index < s.iterations then s.iterations - s.index else 0) + Total(s.pcs, s.iterations)
  }

  lemma {:induction false} TotalUpdate(pcs: seq<Pc>, p: nat, pc: Pc, n: nat)
    requires p < |pcs|
    ensures Total(pcs[p := pc], n) == Total(pcs, n) - Rank(pcs[p], n) + Rank(pc, n)
  {
    if p == 0 {
      assert pcs[0 := pc][1..] == pcs[1..];
    } else {
      assert pcs[p := pc][1..] == pcs[1..][p - 1 := pc];
      TotalUpdate(pcs[1..], p - 1, pc, n);
    }
  }

  /** Every step uses up some of a bounded amount. */
  lemma StepDecreases(s: State, p: nat)
    requires Enabled(s, p) && PcOk(s.pcs[p], s.iterations)
    ensures Measure(Step(s, p)) < Measure(s)
  {
    StepShape(s, p);
    TotalUpdate(s.pcs, p, Step(s, p).pcs[p], s.iterations);
  }

  /** No run is longer than five steps an index and eight a participant, whoever is scheduled. */
  lemma {:induction false} RunsAreBounded(s: State, run: seq<nat>)
    requires Inv(s) && Runs(s, run)
    ensures |run| + Measure(After(s, run)) <= Measure(s)
    decreases |run|
  {
    hide Step;
    hide Measure;
    if run != [] {
      assert ClaimOk(s, run[0]);
      hide Inv;
      StepInv(s, run[0]);
      StepDecreases(s, run[0]);
      RunsAreBounded(Step(s, run[0]), run[1..]);
    }
  }

  lemma {:induction false} InitTotal(participants: nat, n: nat)
    ensures Total(seq(participants, _ => Start), n) == 8 * participants
  {
    if participants > 0 {
      assert seq(participants, _ => Start)[1..] == seq(participants - 1, _ => Start);
      InitTotal(participants - 1, n);
    }
  }

  /** Every schedule stops, and it can only stop with every index called exactly once and da freed. */
  lemma EveryScheduleCompletes(iterations: nat, participants: nat, run: seq<nat>)
    requires iterations >= 1 && participants >= 1 && Runs(Init(iterations, participants), run)
    ensures |run| <= 5 * iterations + 8 * participants
    ensures var s := After(Init(iterations, participants), run);
      (forall p :: !Enabled(s, p)) ==>
        NoDup(s.calls) && (forall i: nat :: i in s.calls <==> i < iterations) && s.freed == 1 && s.signals == 1
  {
    var s0 := Init(iterations, participants);
    InitInv(iterations, participants);
    RunsAreBounded(s0, run);
    InitTotal(participants, iterations);
    hide Inv;
    RunInv(s0, run);
    var s := After(s0, run);
    assert Reachable(s);
    if forall p :: !Enabled(s, p) {
      if !AllFinished(s) {
        NoDeadlock(s);
      }
      FinishedMeansDone(s);
    }
  }
}
