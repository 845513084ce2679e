/**
  The participants of one dispatch_apply fan-out, as a state machine with one step per access
  to the shared dispatch_apply_s.  Participant 0 is the thread that called dispatch_apply; the
  others start whenever their continuation gets a thread.
*/
module ApplyProtocol {
  import opened Common

  /** Where a participant is; `mine` are the indices it has called and not yet taken off da_todo. */
  datatype Pc =
    | Start                                              // before the first increment of da_index
    | Got(idx: nat, done: nat, mine: set<nat>)           // before the test of idx
    | Loading(idx: nat)                                  // before the reads through da_dc
    | Calling(idx: nat, done: nat, mine: set<nat>)       // inside the callout
    | Next(done: nat, mine: set<nat>)                    // before a later increment
    | Flush(done: nat, mine: set<nat>)                   // before the subtraction from da_todo
    | Signalling                                         // before the signal of da_event
    | Out                                                // at the label out
    | Waiting                                            // on da_event
    | Leaving                                            // before the decrement of da_thr_cnt
    | Freeing                                            // before da is freed
    | Finished

  datatype State = State(
    iterations: nat,
    index: nat,          // da_index
    todo: int,           // da_todo
    thrCnt: int,         // da_thr_cnt
    signals: nat,        // how often da_event was signalled
    freed: nat,          // how often da was freed
    pcs: seq<Pc>,
    // history
    owner: map<nat, nat>,     // who got an index below iterations
    flushed: set<nat>,        // indices taken off da_todo
    calls: seq<nat>,          // callouts in the order they began
    returned: seq<nat>,       // ... in the order they returned
    signaller: Option<nat>,   // who brought da_todo to zero
    freer: Option<nat>)       // who brought da_thr_cnt to zero

  /** What dispatch_apply_f and _dispatch_apply_f2 set up. */
  function Init(iterations: nat, participants: nat): State {
    State(iterations, 0, iterations, participants, 0, 0, seq(participants, _ => Start),
          map[], {}, [], [], None, None)
  }

  function Move(s: State, p: nat, pc: Pc): State
    requires p < |s.pcs|
  {
    s.(pcs := s.pcs[p := pc])
  }

  predicate Enabled(s: State, p: nat) {
    p < |s.pcs| && !s.pcs[p].Finished? && (s.pcs[p].Waiting? ==> s.signals > 0)
  }

  /** os_atomic_inc_orig2o(da, da_index) */
  function TakeIndex(s: State, p: nat, done: nat, mine: set<nat>): State
    requires p < |s.pcs|
  {
    Move(s, p, Got(s.index, done, mine))
    .(index := s.index + 1, owner := if s.index < s.iterations then s.owner[s.index := p] else s.owner)
  }

  /** The next step of participant p. */
  function Step(s: State, p: nat): State
    requires Enabled(s, p)
  {
    match s.pcs[p]
    case Start => TakeIndex(s, p, 0, {})
    case Got(idx, done, mine) =>
      if idx < s.iterations then
        if done == 0 then Move(s, p, Loading(idx))
        else Move(s, p, Calling(idx, done, mine)).(calls := s.calls + [idx])
      else if done == 0 then Move(s, p, Out)
      else Move(s, p, Flush(done, mine))
    case Loading(idx) => Move(s, p, Calling(idx, 0, {})).(calls := s.calls + [idx])
    case Calling(idx, done, mine) =>
      Move(s, p, Next(done + 1, mine + {idx})).(returned := s.returned + [idx])
    case Next(done, mine) => TakeIndex(s, p, done, mine)
    case Flush(done, mine) =>
      Move(s, p, if s.todo - done == 0 then Signalling else Out)
      .(todo := s.todo - done, flushed := s.flushed + mine,
        signaller := if s.todo - done == 0 then Some(p) else s.signaller)
    case Signalling => Move(s, p, Out).(signals := s.signals + 1)
    case Out => Move(s, p, if p == 0 then Waiting else Leaving)
    case Waiting => Move(s, p, Leaving)
    case Leaving =>
      Move(s, p, if s.thrCnt - 1 == 0 then Freeing else Finished)
      .(thrCnt := s.thrCnt - 1, freer := if s.thrCnt - 1 == 0 then Some(p) else s.freer)
    case Freeing => Move(s, p, Finished).(freed := s.freed + 1)
  }

  // ---------------------------------------------------------------- invariant

  /** Indices below n that p has got and not yet taken off da_todo. */
  function Claimed(pc: Pc, n: nat): set<nat> {
    match pc
    case Got(idx, _, mine) => if idx < n then mine + {idx} else mine
    case Loading(idx) => {idx}
    case Calling(idx, _, mine) => mine + {idx}
    case Next(_, mine) => mine
    case Flush(_, mine) => mine
    case _ => {}
  }

  /** ... whose callout has returned. */
  function Mine(pc: Pc): set<nat> {
    if pc.Got? || pc.Calling? || pc.Next? || pc.Flush? then pc.mine else {}
  }

  /** ... whose callout has begun. */
  function Begun(pc: Pc): set<nat> {
    if pc.Calling? then pc.mine + {pc.idx} else Mine(pc)
  }

  predicate PcOk(pc: Pc, n: nat) {
    match pc
    case Got(idx, done, mine) => done == |mine| && idx !in mine
    case Loading(idx) => idx < n
    case Calling(idx, done, mine) => idx < n && done == |mine| && idx !in mine
    case Next(done, mine) => done == |mine| >= 1
    case Flush(done, mine) => done == |mine| >= 1
    case _ => true
  }

  predicate Past(pc: Pc) { pc.Freeing? || pc.Finished? }

  function Active(pcs: seq<Pc>): set<nat> {
    set p | p in Upto(|pcs|) && !Past(pcs[p])
  }

  /** Every index handed out is with its owner, or off da_todo, never both. */
  ghost predicate ClaimsOk(s: State) {
    && (forall i: nat :: i in s.owner <==> i < s.index && i < s.iterations)
    && (forall i :: i in s.owner ==> s.owner[i] < |s.pcs|)
    && s.flushed <= s.owner.Keys
    && (forall i :: i in s.owner ==> (i in s.flushed <==> i !in Claimed(s.pcs[s.owner[i]], s.iterations)))
    && (forall p :: 0 <= p < |s.pcs| ==> ClaimOk(s, p))
  }

  ghost predicate ClaimOk(s: State, p: nat)
    requires p < |s.pcs|
  {
    && PcOk(s.pcs[p], s.iterations)
    && (s.pcs[p].Got? ==> s.pcs[p].idx < s.index)
    && forall i :: i in Claimed(s.pcs[p], s.iterations) ==> i in s.owner && s.owner[i] == p
  }

  ghost predicate TodoOk(s: State) {
    s.todo == s.iterations - |s.flushed|
  }

  /** Callouts: each begun at most once, and returned ones are the flushed and the unflushed. */
  ghost predicate CallsOk(s: State)
    requires ClaimsOk(s)
  {
    && NoDup(s.calls) && NoDup(s.returned)
    && (forall i :: i in s.calls ==> i in s.owner)
    && (forall i :: i in s.returned ==> i in s.owner)
    && (forall i :: i in s.owner ==> (i in s.calls <==> i in s.flushed || i in Begun(s.pcs[s.owner[i]])))
    && (forall i :: i in s.owner ==> (i in s.returned <==> i in s.flushed || i in Mine(s.pcs[s.owner[i]])))
  }

  ghost predicate EventOk(s: State) {
    && (s.signaller.Some? <==> s.todo == 0)
    && (s.signaller.Some? ==> s.signaller.value < |s.pcs|)
    && (forall p :: 0 <= p < |s.pcs| && s.pcs[p].Signalling? ==> s.signaller == Some(p))
    && s.signals == (if s.signaller.Some? && !s.pcs[s.signaller.value].Signalling? then 1 else 0)
    && (forall p :: 1 <= p < |s.pcs| ==> !s.pcs[p].Waiting?)
    && (|s.pcs| > 0 && (s.pcs[0].Leaving? || Past(s.pcs[0])) ==> s.signals == 1)
  }

  ghost predicate CountOk(s: State) {
    && s.thrCnt == |Active(s.pcs)|
    && (s.freer.Some? <==> s.thrCnt == 0)
    && (s.freer.Some? ==> s.freer.value < |s.pcs|)
    && (forall p :: 0 <= p < |s.pcs| && s.pcs[p].Freeing? ==> s.freer == Some(p))
    && s.freed == (if s.freer.Some? && !s.pcs[s.freer.value].Freeing? then 1 else 0)
  }

  /** Left the loop: only after da_index has run past the iterations. */
  predicate Spent(pc: Pc) {
    pc.Flush? || pc.Signalling? || pc.Out? || pc.Waiting? || pc.Leaving? || Past(pc)
  }

  ghost predicate SpentOk(s: State) {
    forall p :: 0 <= p < |s.pcs| && Spent(s.pcs[p]) ==> s.index >= s.iterations
  }

  ghost predicate Inv(s: State) {
    && s.iterations >= 1 && |s.pcs| >= 1 && SpentOk(s)
    && ClaimsOk(s) && TodoOk(s) && CallsOk(s) && EventOk(s) && CountOk(s)
  }

  lemma InitInv(iterations: nat, participants: nat)
    requires iterations >= 1 && participants >= 1
    ensures Inv(Init(iterations, participants))
  {
    InitClaims(iterations, participants);
    InitCount(iterations, participants);
    InitRest(iterations, participants);
    hide ClaimsOk;
    hide CountOk;
    hide EventOk;
    hide CallsOk;
  }

  lemma InitRest(iterations: nat, participants: nat)
    requires iterations >= 1 && participants >= 1 && ClaimsOk(Init(iterations, participants))
    ensures EventOk(Init(iterations, participants)) && CallsOk(Init(iterations, participants))
  {
  }

  lemma InitClaims(iterations: nat, participants: nat)
    ensures ClaimsOk(Init(iterations, participants))
  {
    var s := Init(iterations, participants);
    forall p | 0 <= p < |s.pcs| ensures ClaimOk(s, p) {
      assert s.pcs[p] == Start;
    }
    assert s.flushed <= s.owner.Keys;
  }

  lemma InitCount(iterations: nat, participants: nat)
    requires participants >= 1
    ensures CountOk(Init(iterations, participants))
  {
    var s := Init(iterations, participants);
    assert forall p :: 0 <= p < |s.pcs| ==> s.pcs[p] == Start;
    assert Active(s.pcs) == Upto(participants);
    assert |Active(s.pcs)| == participants;
    hide Active;
    hide Upto;
    assert s.thrCnt == |Active(s.pcs)|;
    assert s.freer.None? && s.freed == 0;
  }

  // Each part of the invariant is kept by every step.

  lemma StepShape(s: State, p: nat)
    requires Enabled(s, p)
    ensures var s' := Step(s, p);
      s'.iterations == s.iterations && |s'.pcs| == |s.pcs| && s'.pcs == s.pcs[p := s'.pcs[p]]
  {
  }

  /** Only p moves, and what it no longer claims goes to flushed. */
  ghost predicate Reclaims(s: State, s': State, p: nat) {
    && p < |s.pcs| == |s'.pcs| && s'.pcs == s.pcs[p := s'.pcs[p]]
    && s'.iterations == s.iterations && s'.index == s.index && s'.owner == s.owner
    && Claimed(s'.pcs[p], s.iterations) <= Claimed(s.pcs[p], s.iterations)
    && s'.flushed == s.flushed + (Claimed(s.pcs[p], s.iterations) - Claimed(s'.pcs[p], s.iterations))
    && PcOk(s'.pcs[p], s.iterations) && !s'.pcs[p].Got?
  }

  lemma ReclaimsOk(s: State, s': State, p: nat)
    requires ClaimsOk(s) && Reclaims(s, s', p)
    ensures ClaimsOk(s')
  {
    hide PcOk;
    hide Claimed;
    assert ClaimOk(s, p);
    forall q | 0 <= q < |s'.pcs| ensures ClaimOk(s', q) {
      assert ClaimOk(s, q);
    }
  }

  lemma GotReclaims(s: State, p: nat)
    requires Enabled(s, p) && s.pcs[p].Got? && PcOk(s.pcs[p], s.iterations)
    ensures Reclaims(s, Step(s, p), p)
  {
  }

  lemma CallReclaims(s: State, p: nat)
    requires Enabled(s, p) && (s.pcs[p].Calling? || s.pcs[p].Loading?) && PcOk(s.pcs[p], s.iterations)
    ensures Reclaims(s, Step(s, p), p)
  {
  }

  lemma RestReclaims(s: State, p: nat)
    requires Enabled(s, p) && PcOk(s.pcs[p], s.iterations)
    requires !s.pcs[p].Got? && !s.pcs[p].Calling? && !s.pcs[p].Loading? && !s.pcs[p].Start? && !s.pcs[p].Next?
    ensures Reclaims(s, Step(s, p), p)
  {
  }

  lemma TakeIndexOk(s: State, p: nat, done: nat, mine: set<nat>)
    requires ClaimsOk(s) && p < |s.pcs| && done == |mine| && mine == Claimed(s.pcs[p], s.iterations)
    ensures ClaimsOk(TakeIndex(s, p, done, mine))
  {
    var s' := TakeIndex(s, p, done, mine);
    assert ClaimOk(s, p);
    assert Claimed(s'.pcs[p], s.iterations) == if s.index < s.iterations then mine + {s.index} else mine;
    hide Claimed;
    forall q | 0 <= q < |s'.pcs| ensures ClaimOk(s', q) {
      assert ClaimOk(s, q);
    }
  }

  lemma StepClaims(s: State, p: nat)
    requires ClaimsOk(s) && Enabled(s, p)
    ensures ClaimsOk(Step(s, p))
  {
    assert ClaimOk(s, p);
    hide ClaimsOk;
    if s.pcs[p].Start? {
      TakeIndexOk(s, p, 0, {});
    } else if s.pcs[p].Next? {
      TakeIndexOk(s, p, s.pcs[p].done, s.pcs[p].mine);
    } else {
      if s.pcs[p].Got? {
        GotReclaims(s, p);
      } else if s.pcs[p].Calling? || s.pcs[p].Loading? {
        CallReclaims(s, p);
      } else {
        RestReclaims(s, p);
      }
      hide Step;
      ReclaimsOk(s, Step(s, p), p);
    }
  }

  lemma StepTodo(s: State, p: nat)
    requires ClaimsOk(s) && TodoOk(s) && Enabled(s, p)
    ensures TodoOk(Step(s, p))
  {
    assert ClaimOk(s, p);
    if s.pcs[p].Flush? {
      assert s.flushed !! s.pcs[p].mine;
    }
  }

  lemma StepSpent(s: State, p: nat)
    requires ClaimsOk(s) && SpentOk(s) && Enabled(s, p)
    ensures SpentOk(Step(s, p))
  {
    assert ClaimOk(s, p);
    hide ClaimsOk;
    StepShape(s, p);
    var s' := Step(s, p);
    assert s'.index >= s.index && s'.iterations == s.iterations;
    assert Spent(s'.pcs[p]) ==> Spent(s.pcs[p]) || s.index >= s.iterations;
    hide Step;
  }

  lemma SubsetSize(a: set<nat>, b: set<nat>)
    requires a <= b
    ensures |a| <= |b|
  {
    assert b == a + (b - a);
  }

  /** Before a subtraction da_todo still counts what is about to be taken off. */
  lemma FlushBound(s: State, p: nat)
    requires ClaimsOk(s) && TodoOk(s) && p < |s.pcs| && s.pcs[p].Flush?
    ensures s.todo >= s.pcs[p].done >= 1
  {
    assert ClaimOk(s, p);
    var mine := s.pcs[p].mine;
    assert s.flushed !! mine;
    assert s.flushed + mine <= Upto(s.iterations);
    SubsetSize(s.flushed + mine, Upto(s.iterations));
  }

  /** One callout of p begins (first) or returns (second list), and nothing else. */
  ghost predicate OneCall(s: State, s': State, p: nat, began: set<nat>, back: set<nat>) {
    && p < |s.pcs| == |s'.pcs| && s'.pcs == s.pcs[p := s'.pcs[p]]
    && s'.owner == s.owner && s'.flushed == s.flushed
    && Begun(s'.pcs[p]) == Begun(s.pcs[p]) + began && Mine(s'.pcs[p]) == Mine(s.pcs[p]) + back
    && (forall i :: i in s'.calls <==> i in s.calls || i in began)
    && (forall i :: i in s'.returned <==> i in s.returned || i in back)
  }

  lemma OneCallOk(s: State, s': State, p: nat, began: set<nat>, back: set<nat>)
    requires ClaimsOk(s) && CallsOk(s) && ClaimsOk(s') && OneCall(s, s', p, began, back)
    requires forall i :: i in began || i in back ==> i in s.owner && s.owner[i] == p
    requires NoDup(s'.calls) && NoDup(s'.returned)
    ensures CallsOk(s')
  {
    assert forall i :: i in s.owner ==> s.owner[i] < |s.pcs|;
    hide ClaimsOk;
    hide Begun;
    hide Mine;
    hide NoDup;
  }

  lemma NoDupExtended(q: seq<nat>, x: nat)
    requires NoDup(q) && x !in q
    ensures NoDup(q + [x])
  {
  }

  lemma BeginCalls(s: State, p: nat)
    requires Enabled(s, p) && Step(s, p).pcs[p].Calling? && (s.pcs[p].Got? || s.pcs[p].Loading?)
    ensures OneCall(s, Step(s, p), p, {s.pcs[p].idx}, {}) && Step(s, p).calls == s.calls + [s.pcs[p].idx]
    ensures Step(s, p).returned == s.returned
  {
  }

  lemma ReturnCalls(s: State, p: nat)
    requires Enabled(s, p) && s.pcs[p].Calling?
    ensures OneCall(s, Step(s, p), p, {}, {s.pcs[p].idx}) && Step(s, p).returned == s.returned + [s.pcs[p].idx]
    ensures Step(s, p).calls == s.calls
  {
  }

  lemma TakeCalls(s: State, p: nat)
    requires ClaimsOk(s) && CallsOk(s) && Enabled(s, p) && ClaimsOk(Step(s, p))
    requires s.pcs[p].Start? || s.pcs[p].Next?
    ensures CallsOk(Step(s, p))
  {
    var s' := Step(s, p);
    assert Begun(s'.pcs[p]) == Begun(s.pcs[p]) && Mine(s'.pcs[p]) == Mine(s.pcs[p]) == Begun(s.pcs[p]);
    assert ClaimOk(s, p) && Begun(s.pcs[p]) == Claimed(s.pcs[p], s.iterations);
    assert s.index !in Begun(s.pcs[p]) && s.index !in s.owner;
    hide Begun;
    hide Mine;
    hide ClaimOk;
    hide ClaimsOk;
    hide Claimed;
  }

  /** No callout begins or returns: p's may move to flushed. */
  ghost predicate SameCalls(s: State, s': State, p: nat) {
    && p < |s.pcs| == |s'.pcs| && s'.pcs == s.pcs[p := s'.pcs[p]]
    && s'.owner == s.owner && s'.calls == s.calls && s'.returned == s.returned
    && s'.flushed + Begun(s'.pcs[p]) == s.flushed + Begun(s.pcs[p])
    && s'.flushed + Mine(s'.pcs[p]) == s.flushed + Mine(s.pcs[p])
    && s.flushed <= s'.flushed && s'.flushed <= s.flushed + Mine(s.pcs[p])
  }

  lemma SameCallsOk(s: State, s': State, p: nat)
    requires ClaimsOk(s) && CallsOk(s) && ClaimsOk(s') && SameCalls(s, s', p)
    requires forall i :: i in Mine(s.pcs[p]) ==> i in s.owner && s.owner[i] == p
    ensures CallsOk(s')
  {
    assert forall i :: i in s.owner ==> s.owner[i] < |s.pcs|;
    hide ClaimsOk;
    hide Begun;
    hide Mine;
    forall i | i in s.owner
      ensures i in s'.calls <==> i in s'.flushed || i in Begun(s'.pcs[s.owner[i]])
      ensures i in s'.returned <==> i in s'.flushed || i in Mine(s'.pcs[s.owner[i]])
    {
      if s.owner[i] == p {
        assert i in s.flushed + Begun(s.pcs[p]) <==> i in s'.flushed + Begun(s'.pcs[p]);
        assert i in s.flushed + Mine(s.pcs[p]) <==> i in s'.flushed + Mine(s'.pcs[p]);
      }
    }
  }

  lemma FlushCalls(s: State, p: nat)
    requires Enabled(s, p) && s.pcs[p].Flush?
    ensures SameCalls(s, Step(s, p), p)
  {
  }

  lemma OtherCalls(s: State, p: nat)
    requires Enabled(s, p) && !Step(s, p).pcs[p].Calling? && PcOk(s.pcs[p], s.iterations)
    requires !s.pcs[p].Start? && !s.pcs[p].Next? && !s.pcs[p].Flush? && !s.pcs[p].Calling?
    ensures SameCalls(s, Step(s, p), p)
  {
    assert s.pcs[p].Got? ==> (s.pcs[p].done == 0 ==> s.pcs[p].mine == {});
  }

  /** An index whose callout is about to begin or to return has not done so before. */
  lemma FreshCall(s: State, p: nat)
    requires ClaimsOk(s) && CallsOk(s) && p < |s.pcs|
    ensures PcOk(s.pcs[p], s.iterations)
    ensures (s.pcs[p].Got? && s.pcs[p].idx < s.iterations) || s.pcs[p].Loading? ==>
      s.pcs[p].idx in s.owner && s.owner[s.pcs[p].idx] == p && s.pcs[p].idx !in s.calls
    ensures s.pcs[p].Calling? ==>
      s.pcs[p].idx in s.owner && s.owner[s.pcs[p].idx] == p && s.pcs[p].idx !in s.returned
    ensures forall i :: i in Mine(s.pcs[p]) ==> i in s.owner && s.owner[i] == p
    ensures NoDup(s.calls) && NoDup(s.returned)
  {
    assert ClaimOk(s, p);
  }

  lemma StepCalls(s: State, p: nat)
    requires ClaimsOk(s) && CallsOk(s) && Enabled(s, p) && ClaimsOk(Step(s, p))
    ensures CallsOk(Step(s, p))
  {
    FreshCall(s, p);
    hide ClaimsOk;
    hide CallsOk;
    hide SameCalls;
    hide OneCall;
    hide Begun;
    hide NoDup;
    if s.pcs[p].Start? || s.pcs[p].Next? {
      TakeCalls(s, p);
    } else if s.pcs[p].Flush? {
      FlushCalls(s, p);
      SameCallsOk(s, Step(s, p), p);
    } else if s.pcs[p].Calling? {
      var idx := s.pcs[p].idx;
      ReturnCalls(s, p);
      NoDupExtended(s.returned, idx);
      OneCallOk(s, Step(s, p), p, {}, {idx});
    } else if Step(s, p).pcs[p].Calling? {
      var idx := s.pcs[p].idx;
      BeginCalls(s, p);
      NoDupExtended(s.calls, idx);
      OneCallOk(s, Step(s, p), p, {idx}, {});
    } else {
      OtherCalls(s, p);
      SameCallsOk(s, Step(s, p), p);
    }
  }

  lemma FlushEvent(s: State, p: nat)
    requires EventOk(s) && Enabled(s, p) && s.pcs[p].Flush? && s.todo >= s.pcs[p].done >= 1
    ensures EventOk(Step(s, p))
  {
  }

  lemma SignalEvent(s: State, p: nat)
    requires EventOk(s) && Enabled(s, p) && s.pcs[p].Signalling?
    ensures EventOk(Step(s, p))
  {
  }

  /** A step that neither flushes nor signals, seen by the event. */
  ghost predicate LeavesEvent(s: State, s': State, p: nat) {
    && p < |s.pcs| == |s'.pcs| && s'.pcs == s.pcs[p := s'.pcs[p]] && !s'.pcs[p].Signalling?
    && s'.todo == s.todo && s'.signaller == s.signaller && s'.signals == s.signals
    && (s'.pcs[p].Waiting? ==> p == 0) && (s'.pcs[p].Leaving? && p == 0 ==> s.pcs[p].Waiting?)
    && (Past(s'.pcs[p]) ==> s.pcs[p].Leaving? || Past(s.pcs[p]))
  }

  lemma OtherLeaves(s: State, p: nat)
    requires Enabled(s, p) && !s.pcs[p].Flush? && !s.pcs[p].Signalling?
    ensures LeavesEvent(s, Step(s, p), p)
  {
  }

  lemma OtherEvent(s: State, p: nat)
    requires EventOk(s) && Enabled(s, p) && !s.pcs[p].Flush? && !s.pcs[p].Signalling?
    ensures EventOk(Step(s, p))
  {
    OtherLeaves(s, p);
    hide Step;
    hide Enabled;
  }

  lemma StepEvent(s: State, p: nat)
    requires EventOk(s) && Enabled(s, p) && (s.pcs[p].Flush? ==> s.todo >= s.pcs[p].done >= 1)
    ensures EventOk(Step(s, p))
  {
    hide EventOk;
    hide Step;
    if s.pcs[p].Flush? {
      FlushEvent(s, p);
    } else if s.pcs[p].Signalling? {
      SignalEvent(s, p);
    } else {
      OtherEvent(s, p);
    }
  }

  lemma StepActive(s: State, p: nat)
    requires Enabled(s, p)
    ensures Active(Step(s, p).pcs) == if s.pcs[p].Leaving? then Active(s.pcs) - {p} else Active(s.pcs)
    ensures s.pcs[p].Leaving? ==> p in Active(s.pcs)
  {
    var s' := Step(s, p);
    assert |s'.pcs| == |s.pcs| && s'.pcs == s.pcs[p := s'.pcs[p]];
    assert Past(s'.pcs[p]) <==> s.pcs[p].Leaving? || Past(s.pcs[p]);
    hide Step;
    hide Upto;
  }

  lemma LeaveCount(s: State, p: nat)
    requires CountOk(s) && Enabled(s, p) && s.pcs[p].Leaving?
    ensures CountOk(Step(s, p))
  {
    StepActive(s, p);
    hide Active;
  }

  lemma FreeCount(s: State, p: nat)
    requires CountOk(s) && Enabled(s, p) && s.pcs[p].Freeing?
    ensures CountOk(Step(s, p))
  {
  }

  lemma OtherCount(s: State, p: nat)
    requires CountOk(s) && Enabled(s, p) && !s.pcs[p].Leaving? && !s.pcs[p].Freeing?
    ensures CountOk(Step(s, p))
  {
    StepActive(s, p);
    StepShape(s, p);
    var s' := Step(s, p);
    assert !s'.pcs[p].Freeing?;
    assert s'.thrCnt == s.thrCnt && s'.freer == s.freer && s'.freed == s.freed;
    hide Step;
    hide Active;
  }

  lemma StepInv(s: State, p: nat)
    requires Inv(s) && Enabled(s, p)
    ensures Inv(Step(s, p))
  {
    StepShape(s, p);
    hide Step;
    hide ClaimsOk;
    hide CallsOk;
    hide EventOk;
    hide CountOk;
    hide TodoOk;
    hide SpentOk;
    StepClaims(s, p);
    StepSpent(s, p);
    StepTodo(s, p);
    StepCalls(s, p);
    if s.pcs[p].Flush? {
      FlushBound(s, p);
    }
    StepEvent(s, p);
    if s.pcs[p].Leaving? {
      LeaveCount(s, p);
    } else if s.pcs[p].Freeing? {
      FreeCount(s, p);
    } else {
      OtherCount(s, p);
    }
  }
}
