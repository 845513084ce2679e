/**
  _dispatch_apply_invoke2 as code over the shared dispatch_apply_s.  Between any two accesses
  the other participants may take any number of steps: that is what a call of Others stands for.
*/
module ApplyInvoke {
  import opened Common
  import opened ApplyProtocol
  import opened ApplyTheorems

  /** Owners never change, and a step makes nobody but its participant an owner. */
  lemma StepOwner(s: State, q: nat)
    requires Inv(s) && Enabled(s, q)
    ensures forall i :: i in s.owner ==> i in Step(s, q).owner && Step(s, q).owner[i] == s.owner[i]
    ensures forall i :: i in Step(s, q).owner && i !in s.owner ==> Step(s, q).owner[i] == q
    ensures forall i :: i in Step(s, q).owner && i !in s.owner ==>
      i == s.index < s.iterations && (s.pcs[q].Start? || s.pcs[q].Next?)
  {
    hide CallsOk;
    hide EventOk;
    hide CountOk;
    hide SpentOk;
    hide TodoOk;
    assert s.index !in s.owner;
    hide ClaimsOk;
  }

  /** Nothing but participants' places, da_index and the history of owners and callouts changes. */
  ghost predicate SameWords(s: State, s': State) {
    && s'.iterations == s.iterations && s'.todo == s.todo && s'.thrCnt == s.thrCnt
    && s'.signals == s.signals && s'.freed == s.freed && |s'.pcs| == |s.pcs|
  }

  lemma TakeStep(s: State, p: nat, done: nat, mine: set<nat>)
    requires Inv(s) && p < |s.pcs| && (s.pcs[p] == Next(done, mine) || (s.pcs[p] == Start && done == 0 && mine == {}))
    ensures var s1 := Step(s, p);
      && Inv(s1) && SameWords(s, s1) && s1.index == s.index + 1 && s1.pcs[p] == Got(s.index, done, mine)
      && s1.owner == if s.index < s.iterations then s.owner[s.index := p] else s.owner
    ensures s.index !in s.owner && Measure(Step(s, p)) < Measure(s)
  {
    StepInv(s, p);
    assert ClaimOk(s, p);
    StepDecreases(s, p);
    hide Measure;
    hide Inv;
  }

  lemma TestStep(s: State, p: nat, idx: nat, done: nat, mine: set<nat>)
    requires Inv(s) && p < |s.pcs| && s.pcs[p] == Got(idx, done, mine)
    ensures var s1 := Step(s, p);
      && Inv(s1) && SameWords(s, s1) && s1.index == s.index && s1.owner == s.owner
      && s1.pcs[p] == (if idx >= s.iterations then if done == 0 then Out else Flush(done, mine)
                       else if done == 0 then Loading(idx) else Calling(idx, done, mine))
      && Measure(s1) < Measure(s)
  {
    StepInv(s, p);
    assert ClaimOk(s, p);
    StepDecreases(s, p);
    hide Measure;
    hide Inv;
  }

  lemma TakeSteps(s: State, p: nat, done: nat, mine: set<nat>)
    requires Inv(s) && p < |s.pcs| && (s.pcs[p] == Next(done, mine) || (s.pcs[p] == Start && done == 0 && mine == {}))
    ensures Enabled(s, p) && Enabled(Step(s, p), p) && s.index !in s.owner
    ensures var s2 := Step(Step(s, p), p);
      && Inv(s2) && SameWords(s, s2) && s2.index == s.index + 1
      && (s2.owner == if s.index < s.iterations then s.owner[s.index := p] else s.owner)
      && s2.pcs[p] == (if s.index >= s.iterations then if done == 0 then Out else Flush(done, mine)
                       else if done == 0 then Loading(s.index) else Calling(s.index, done, mine))
      && Measure(s2) < Measure(s)
  {
    hide Measure;
    TakeStep(s, p, done, mine);
    hide Inv;
    hide Step;
    TestStep(Step(s, p), p, s.index, done, mine);
  }

  lemma ReadStep(s: State, p: nat)
    requires Inv(s) && p < |s.pcs| && s.pcs[p].Loading?
    ensures var s1 := Step(s, p);
      && Inv(s1) && SameWords(s, s1) && s1.index == s.index && s1.owner == s.owner
      && s1.pcs[p] == Calling(s.pcs[p].idx, 0, {})
  {
    StepInv(s, p);
    hide Inv;
  }

  lemma CallStep(s: State, p: nat)
    requires Inv(s) && p < |s.pcs| && s.pcs[p].Calling?
    ensures var (s1, pc) := (Step(s, p), s.pcs[p]);
      && Inv(s1) && SameWords(s, s1) && s1.index == s.index && s1.owner == s.owner
      && s1.pcs[p] == Next(pc.done + 1, pc.mine + {pc.idx}) && s1.returned == s.returned + [pc.idx]
      && Measure(s1) < Measure(s)
  {
    StepInv(s, p);
    assert ClaimOk(s, p);
    StepDecreases(s, p);
    hide Measure;
    hide Inv;
  }

  lemma FlushStep(s: State, p: nat)
    requires Inv(s) && p < |s.pcs| && s.pcs[p].Flush?
    ensures var s1 := Step(s, p);
      && Inv(s1) && s1.todo == s.todo - s.pcs[p].done && SameWords(s.(todo := s1.todo), s1)
      && s1.index == s.index && s1.owner == s.owner && s1.pcs[p] == if s1.todo == 0 then Signalling else Out
  {
    StepInv(s, p);
    hide Inv;
  }

  lemma SignalStep(s: State, p: nat)
    requires Inv(s) && p < |s.pcs| && s.pcs[p].Signalling?
    ensures var s1 := Step(s, p);
      && Inv(s1) && s.signals == 0 && s1.signals == 1 && SameWords(s.(signals := 1), s1)
      && s1.index == s.index && s1.owner == s.owner && s1.pcs[p] == Out
  {
    StepInv(s, p);
    assert EventOk(s);
    hide Inv;
  }

  /** At the label out, and, for the caller, once the event is signalled. */
  lemma WaitStep(s: State, p: nat)
    requires Inv(s) && p < |s.pcs| && (s.pcs[p].Out? || (s.pcs[p].Waiting? && s.signals > 0))
    ensures var s1 := Step(s, p);
      && Inv(s1) && SameWords(s, s1) && s1.index == s.index && s1.owner == s.owner
      && s1.pcs[p] == if s.pcs[p].Out? && p == 0 then Waiting else Leaving
    ensures s.signals <= 1
  {
    StepInv(s, p);
    assert EventOk(s);
    hide Inv;
  }

  lemma LeaveStep(s: State, p: nat)
    requires Inv(s) && p < |s.pcs| && s.pcs[p].Leaving?
    ensures var s1 := Step(s, p);
      && Inv(s1) && s1.thrCnt == s.thrCnt - 1 && SameWords(s.(thrCnt := s1.thrCnt), s1)
      && s1.index == s.index && s1.owner == s.owner && s1.pcs[p] == if s1.thrCnt == 0 then Freeing else Finished
  {
    StepInv(s, p);
    hide Inv;
  }

  lemma FreeStep(s: State, p: nat)
    requires Inv(s) && p < |s.pcs| && s.pcs[p].Freeing?
    ensures var s1 := Step(s, p);
      && Inv(s1) && s.freed == 0 && s1.freed == 1 && SameWords(s.(freed := 1), s1)
      && s1.index == s.index && s1.owner == s.owner && s1.pcs[p] == Finished
  {
    StepInv(s, p);
    assert CountOk(s);
    hide Inv;
  }

  /** A step of somebody else, seen by p. */
  lemma TurnStep(s: State, q: nat, p: nat)
    requires Inv(s) && Enabled(s, q) && q != p && p < |s.pcs|
    ensures var s1 := Step(s, q);
      && Inv(s1) && s1.iterations == s.iterations && |s1.pcs| == |s.pcs| && s1.pcs[p] == s.pcs[p]
      && Measure(s1) < Measure(s)
      && (forall i :: i in s.owner ==> i in s1.owner && s1.owner[i] == s.owner[i])
      && (forall i :: i in s1.owner && s1.owner[i] == p ==> i in s.owner)
  {
    StepInv(s, q);
    StepShape(s, q);
    StepOwner(s, q);
    assert ClaimOk(s, q);
    hide Inv;
    StepDecreases(s, q);
    hide Step;
    hide Measure;
  }

  /** What participant p may rely on across any run of steps of the others. */
  lemma {:induction false} OthersRely(s: State, run: seq<nat>, p: nat)
    requires Inv(s) && Runs(s, run) && p !in run && p < |s.pcs|
    ensures var s' := After(s, run);
      && Inv(s') && |s'.pcs| == |s.pcs| && s'.iterations == s.iterations && s'.pcs[p] == s.pcs[p]
      && Measure(s') <= Measure(s)
    ensures forall i :: i in s.owner ==> i in After(s, run).owner && After(s, run).owner[i] == s.owner[i]
    ensures forall i :: i in After(s, run).owner && After(s, run).owner[i] == p ==> i in s.owner
    decreases |run|
  {
    hide Inv;
    hide Enabled;
    hide Step;
    hide Measure;
    if run != [] {
      TurnStep(s, run[0], p);
      OthersRely(Step(s, run[0]), run[1..], p);
    }
  }

  lemma CallerSignalled(s: State)
    requires Inv(s) && Past(s.pcs[0])
    ensures s.signals == 1
  {
  }

  class Apply {
    const iterations: nat      // da_iterations
    var index: nat             // da_index
    var todo: int              // da_todo
    var thrCnt: int            // da_thr_cnt
    var signals: nat           // how often da_event was signalled
    var freed: nat             // how often this was freed
    var s: State               // where the participants stand

    ghost predicate Valid()
      reads this
    {
      && Inv(s) && iterations == s.iterations && index == s.index && todo == s.todo
      && thrCnt == s.thrCnt && signals == s.signals && freed == s.freed
    }

    ghost predicate At(p: nat, pc: Pc)
      reads this
    {
      Valid() && p < |s.pcs| && s.pcs[p] == pc
    }

    /** The indices p has got. */
    ghost predicate Got(p: nat, mine: set<nat>)
      reads this
    {
      forall i :: i in mine <==> i in s.owner && s.owner[i] == p
    }

    constructor (iterations: nat, thrCnt: nat)
      requires iterations >= 1 && thrCnt >= 1
      ensures Valid() && s == Init(iterations, thrCnt)
    {
      this.iterations := iterations;
      index, todo, this.thrCnt, signals, freed := 0, iterations, thrCnt, 0, 0;
      s := Init(iterations, thrCnt);
      new;
      InitInv(iterations, thrCnt);
    }

    /** Any run of steps of the others (see OthersRely); the empty one is one of them. */
    method Others(p: nat, ghost mine: set<nat>)
      requires Valid() && p < |s.pcs| && Got(p, mine)
      modifies this
      ensures Valid() && |s.pcs| == old(|s.pcs|) && s.pcs[p] == old(s.pcs[p]) && Got(p, mine)
      ensures Measure(s) <= old(Measure(s))
    {
    }

    /** idx = os_atomic_inc_orig2o(da, da_index), and the test of idx against the iterations */
    method TakeIndex(p: nat, done: nat, ghost mine: set<nat>) returns (idx: nat)
      requires (At(p, Start) && done == 0 && mine == {}) || At(p, Next(done, mine))
      requires Got(p, mine)
      modifies this
      ensures idx >= iterations ==> At(p, if done == 0 then Out else Flush(done, mine)) && Got(p, mine)
      ensures idx < iterations ==> At(p, if done == 0 then Loading(idx) else Calling(idx, done, mine))
      ensures idx < iterations ==> idx !in mine && Got(p, mine + {idx})
      ensures Measure(s) < old(Measure(s))
    {
      hide Inv;
      hide Step;
      hide Measure;
      Others(p, mine);
      TakeSteps(s, p, done, mine);
      idx := index;
      index := index + 1;
      s := Step(Step(s, p), p);
    }

    /** The reads of func, ctxt and dq through da_dc: the caller has not been told to go on. */
    method ReadContext(p: nat, ghost idx: nat)
      requires At(p, Loading(idx)) && Got(p, {idx})
      modifies this
      ensures At(p, Calling(idx, 0, {})) && Got(p, {idx})
    {
      hide Inv;
      hide Step;
      hide Measure;
      Others(p, {idx});
      ReadInside(s, p);
      assert signals == 0 && !s.pcs[0].Leaving? && !s.pcs[0].Finished?;
      ReadStep(s, p);
      s := Step(s, p);
    }

    /** _dispatch_client_callout2(da_ctxt, idx, func); done++ */
    method Callout(p: nat, ghost idx: nat, ghost done: nat, ghost mine: set<nat>)
      requires At(p, Calling(idx, done, mine)) && Got(p, mine + {idx})
      modifies this
      ensures At(p, Next(done + 1, mine + {idx})) && Got(p, mine + {idx}) && Measure(s) < old(Measure(s))
    {
      hide Inv;
      hide Step;
      hide Measure;
      Others(p, mine + {idx});
      CallStep(s, p);
      s := Step(s, p);
    }

    /** os_atomic_sub2o(da, da_todo, done): whether nothing is left to do */
    method SubTodo(p: nat, done: nat, ghost mine: set<nat>) returns (zero: bool)
      requires At(p, Flush(done, mine)) && Got(p, mine)
      modifies this
      ensures At(p, if zero then Signalling else Out) && Got(p, mine)
    {
      hide Inv;
      hide Step;
      hide Measure;
      Others(p, mine);
      FlushStep(s, p);
      todo := todo - done;
      zero := todo == 0;
      s := Step(s, p);
    }

    /** _dispatch_thread_event_signal: the first and only one */
    method Signal(p: nat, ghost mine: set<nat>)
      requires At(p, Signalling) && Got(p, mine)
      modifies this
      ensures At(p, Out) && Got(p, mine) && signals >= 1
    {
      hide Inv;
      hide Step;
      hide Measure;
      Others(p, mine);
      SignalStep(s, p);
      signals := signals + 1;
      s := Step(s, p);
    }

    /** Somebody other than the waiting caller who can take a step. */
    method Runnable() returns (q: nat)
      requires At(0, Waiting) && signals == 0
      ensures q < |s.pcs| && q != 0 && Enabled(s, q)
    {
      hide Step;
      ghost var w := Worker(s);
      hide Inv;
      assert w < |s.pcs| && w != 0 && Enabled(s, w);
      hide Enabled;
      q :| q < |s.pcs| && q != 0 && Enabled(s, q);
    }

    /** A step of a participant that the waiting caller depends on. */
    method OtherTurn(p: nat, ghost mine: set<nat>)
      requires At(p, Waiting) && p == 0 && Got(p, mine) && signals == 0
      modifies this
      ensures At(p, Waiting) && Got(p, mine) && Measure(s) < old(Measure(s))
    {
      hide Inv;
      hide Step;
      hide Measure;
      var q := Runnable();
      TurnStep(s, q, p);
      s := Step(s, q);
      index, todo, thrCnt, signals, freed := s.index, s.todo, s.thrCnt, s.signals, s.freed;
    }

    /** _dispatch_thread_event_wait: until the participants at work have taken steps enough. */
    method WaitEvent(p: nat, ghost mine: set<nat>)
      requires At(p, Out) && p == 0 && Got(p, mine)
      modifies this
      ensures At(p, Leaving) && Got(p, mine) && signals == 1
    {
      hide Inv;
      hide Step;
      hide Measure;
      WaitStep(s, p);
      s := Step(s, p);
      Others(p, mine);
      while signals == 0
        invariant At(p, Waiting) && Got(p, mine)
        decreases Measure(s)
      {
        OtherTurn(p, mine);
      }
      WaitStep(s, p);
      s := Step(s, p);
    }

    /** os_atomic_dec2o(da, da_thr_cnt): whether this participant is the last */
    method DecThrCnt(p: nat, ghost mine: set<nat>) returns (last: bool)
      requires At(p, Leaving) && Got(p, mine)
      modifies this
      ensures At(p, if last then Freeing else Finished) && Got(p, mine)
    {
      hide Inv;
      hide Step;
      hide Measure;
      Others(p, mine);
      LeaveStep(s, p);
      thrCnt := thrCnt - 1;
      last := thrCnt == 0;
      s := Step(s, p);
    }

    /** _dispatch_continuation_free(da): for the first and only time */
    method Free(p: nat, ghost mine: set<nat>)
      requires At(p, Freeing) && Got(p, mine)
      modifies this
      ensures At(p, Finished) && Got(p, mine) && freed == 1
    {
      hide Inv;
      hide Step;
      hide Measure;
      Others(p, mine);
      FreeStep(s, p);
      freed := freed + 1;
      s := Step(s, p);
    }

    /** The loop over the indices: calls exactly the indices below iterations that it gets. */
    method Work(p: nat, first: nat) returns (ghost called: set<nat>)
      requires At(p, Loading(first)) && Got(p, {first})
      modifies this
      ensures At(p, Out) && Got(p, called) && first in called
    {
      hide Inv;
      hide Step;
      hide Measure;
      ReadContext(p, first);
      var idx: nat, done: nat := first, 0;
      called := {};
      while true
        invariant At(p, Calling(idx, done, called)) && Got(p, called + {idx}) && first in called + {idx}
        decreases Measure(s)
      {
        Callout(p, idx, done, called);
        done, called := done + 1, called + {idx};
        idx := TakeIndex(p, done, called);
        if idx >= iterations {
          break;
        }
      }
      var zero := SubTodo(p, done, called);
      if zero {
        Signal(p, called);
      }
    }

    /** _dispatch_apply_invoke2 */
    method Invoke2(p: nat, wait: bool) returns (ghost called: set<nat>)
      requires At(p, Start) && Got(p, {}) && (wait <==> p == 0)
      modifies this
      ensures At(p, Finished) && Got(p, called)
      ensures wait ==> signals == 1
    {
      hide Inv;
      hide Step;
      hide Measure;
      var idx := TakeIndex(p, 0, {});
      called := {};
      if idx < iterations {
        called := Work(p, idx);
      }
      if wait {
        WaitEvent(p, called);
      } else {
        WaitStep(s, p);
        s := Step(s, p);
      }
      var last := DecThrCnt(p, called);
      if last {
        Free(p, called);
      }
      if wait {
        CallerSignalled(s);
      }
    }
  }
}
