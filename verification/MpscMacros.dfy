/**
  The `os_mpsc_*` macros as code over the shared words.  Between any two accesses the other
  threads may take any number of steps: that is what a call of Interfere (for the consumer)
  or of Others (for a producer) stands for.
*/
module MpscMacros {
  import opened Common
  import opened MpscQueue
  import opened MpscInvariant
  import opened MpscTheorems

  ghost predicate OnlyProducers(run: seq<Action>) {
    forall a :: a in run ==> ByProducer(a)
  }

  /** A producer's step leaves the consumer where it is, and may put a list behind the chain. */
  lemma ProducerStepEffect(s: State, a: Action)
    requires Enabled(s, a) && ByProducer(a)
    ensures var s' := Step(s, a);
      && s'.consumer == s.consumer && s'.snap == s.snap && s'.delivered == s.delivered
      && s'.chain == s.chain + (if a.PushExchange? then s.producers[a.t].items else [])
  {
  }

  /** What the consumer may rely on across any run of producer steps. */
  lemma {:induction false} ProducersRely(s: State, run: seq<Action>)
    requires Inv(s) && Runs(s, run) && OnlyProducers(run)
    ensures var s' := After(s, run);
      && Inv(s') && s'.consumer == s.consumer && s'.snap == s.snap && s'.delivered == s.delivered
      && s'.chain == s.chain + Flatten(Exchanged(s, run))
    decreases |run|
  {
    hide Inv;
    hide Enabled;
    hide Step;
    if run != [] {
      StepInv(s, run[0]);
      ProducerStepEffect(s, run[0]);
      ProducersRely(Step(s, run[0]), run[1..]);
    }
  }

  ghost predicate NotBy(t: Tid, a: Action) {
    !(ByProducer(a) && a.t == t)
  }

  lemma OtherStepEffect(s: State, a: Action, t: Tid)
    requires Enabled(s, a) && NotBy(t, a)
    ensures t in Step(s, a).producers <==> t in s.producers
    ensures t in s.producers ==> Step(s, a).producers[t] == s.producers[t]
  {
  }

  /** What producer t may rely on across any run of steps of the others. */
  lemma {:induction false} OthersRely(s: State, run: seq<Action>, t: Tid)
    requires Inv(s) && Runs(s, run) && forall a :: a in run ==> NotBy(t, a)
    ensures var s' := After(s, run);
      Inv(s') && (t in s'.producers <==> t in s.producers) && (t in s.producers ==> s'.producers[t] == s.producers[t])
    decreases |run|
  {
    hide Inv;
    hide Enabled;
    hide Step;
    if run != [] {
      StepInv(s, run[0]);
      OtherStepEffect(s, run[0], t);
      OthersRely(Step(s, run[0]), run[1..], t);
    }
  }

  /** Some steps, by anybody, lead from s to s'. */
  ghost predicate Reaches(s: State, s': State) {
    exists run :: Runs(s, run) && After(s, run) == s'
  }

  lemma ReachesSelf(s: State)
    ensures Reaches(s, s)
  {
    assert Runs(s, []) && After(s, []) == s;
  }

  lemma ReachesByStep(s: State, a: Action)
    requires Enabled(s, a)
    ensures Reaches(s, Step(s, a))
  {
    hide Enabled;
    hide Step;
    assert [a][0] == a && [a][1..] == [];
    assert Runs(Step(s, a), []) && After(Step(s, a), []) == Step(s, a);
    assert Runs(s, [a]) && After(s, [a]) == Step(s, a);
  }

  lemma {:induction false} RunsConcat(s: State, p: seq<Action>, q: seq<Action>)
    requires Runs(s, p) && Runs(After(s, p), q)
    ensures Runs(s, p + q) && After(s, p + q) == After(After(s, p), q)
    decreases |p|
  {
    hide Enabled;
    hide Step;
    if p == [] {
      assert p + q == q;
    } else {
      assert (p + q)[0] == p[0] && (p + q)[1..] == p[1..] + q;
      RunsConcat(Step(s, p[0]), p[1..], q);
    }
  }

  lemma ReachesOn(s: State, s': State, s'': State)
    requires Reaches(s, s') && Reaches(s', s'')
    ensures Reaches(s, s'')
  {
    var p :| Runs(s, p) && After(s, p) == s';
    var q :| Runs(s', q) && After(s', q) == s'';
    RunsConcat(s, p, q);
    assert After(s, p + q) == s'';
  }

  class List {
    var head: Option<Node>
    var tail: Option<Node>
    var next: map<Node, Option<Node>>
    var producers: map<Tid, Producer>  // where the other threads stand
    ghost var consumer: Consumer
    ghost var chain: seq<Node>
    ghost var snap: seq<Node>
    ghost var delivered: seq<Node>
    ghost var stream: seq<Node>

    ghost function View(): State
      reads this
    {
      State(head, tail, next, producers, consumer, chain, snap, delivered, stream)
    }

    constructor ()
      ensures View() == Init && Inv(View())
    {
      head, tail, next, producers := None, None, map[], map[];
      consumer, chain, snap, delivered, stream := Idle, [], [], [], [];
    }

    /** Any run of producer steps (see ProducersRely); the empty one is one of them. */
    method Interfere()
      requires Inv(View())
      modifies this
      ensures Inv(View()) && consumer == old(consumer) && snap == old(snap) && delivered == old(delivered)
      ensures old(chain) <= chain
    {
    }

    /** Any run of steps of the consumer and of producers other than t (see OthersRely). */
    method Others(ghost t: Tid)
      requires Inv(View())
      modifies this
      ensures Inv(View()) && (t in producers <==> old(t in producers))
      ensures t in producers ==> producers[t] == old(producers)[t]
      ensures Reaches(old(View()), View())
    {
      ReachesSelf(View());
    }

    /** _dispatch_wait_until(head): returns after the producer that owes the store has run. */
    method AwaitHead() returns (h: Node)
      requires Inv(View()) && chain != [] && (consumer.Idle? || consumer.FrontWait?)
      modifies this
      ensures Inv(View()) && consumer == old(consumer) && snap == old(snap) && delivered == old(delivered)
      ensures old(chain) <= chain && head == Some(h)
    {
      hide Inv;
      Interfere();
      if head.None? {
        HeadHasWriter(View());
        var t :| t in producers && producers[t].OwesHead?;
        PushHeadInv(View(), t);
        head, producers := Some(producers[t].first), producers - {t};
      }
      h := head.value;
    }

    /** _dispatch_wait_until(a->_o_next), with b queued or captured right behind a. */
    method AwaitNext(a: Node, ghost b: Node) returns (n: Node)
      requires Inv(View()) && (Adjacent(chain, a, b) || Adjacent(snap, a, b))
      modifies this
      ensures Inv(View()) && consumer == old(consumer) && snap == old(snap) && delivered == old(delivered)
      ensures old(chain) <= chain && Successor(next, a) == Some(n)
    {
      hide Inv;
      Interfere();
      if Successor(next, a).None? {
        AdjacentExtends(old(chain), chain, a, b);
        GapHasWriter(View(), a, b);
        var t :| t in producers && producers[t].OwesNext? && producers[t].prev == a;
        PushLinkInv(View(), t);
        next, producers := next[a := Some(producers[t].first)], producers - {t};
      }
      n := Successor(next, a).value;
    }

    // The accesses of os_mpsc_push_update_tail_list, each after any number of steps of the others.

    /** _tail->_o_next = NULL, on the list the caller has chained together. */
    method ClearLast(t: Tid, items: seq<Node>)
      requires Inv(View()) && t !in producers && Fresh(View(), items)
      modifies this
      ensures Inv(View()) && t in producers && producers[t] == Ready(items)
      ensures Reaches(old(View()), View())
    {
      hide Inv;
      hide Reaches;
      ghost var s0 := View();
      PushBeginInv(s0, t, items);
      ReachesByStep(s0, PushBegin(t, items));
      next, producers := Chained(next, items), producers[t := Linked(items)];
      ghost var s1 := View();
      Others(t);
      ghost var s2 := View();
      PushClearInv(s2, t);
      ReachesByStep(s2, PushClear(t));
      next, producers := next[Last(items) := None], producers[t := Ready(items)];
      ReachesOn(s0, s1, s2);
      ReachesOn(s0, s2, View());
    }

    /** _prev = xchg(tail, _tail) */
    method ExchangeTail(t: Tid, items: seq<Node>)
      returns (prev: Option<Node>, ghost before: seq<Node>, ghost met: State)
      requires Inv(View()) && t in producers && producers[t] == Ready(items) && items != []
      modifies this
      ensures Inv(View()) && t in producers
      ensures prev == if before == [] then None else Some(Last(before))
      ensures producers[t] == if prev.Some? then OwesNext(prev.value, items[0]) else OwesHead(items[0])
      ensures chain == before + items
      ensures Reaches(old(View()), met) && met.chain == before
      ensures Enabled(met, PushExchange(t)) && View() == Step(met, PushExchange(t))
    {
      hide Inv;
      hide Reaches;
      Others(t);
      met := View();
      PushExchangeInv(met, t);
      TailTellsEmpty(View());
      prev, before := tail, chain;
      tail := Some(Last(items));
      producers := producers[t := if prev.Some? then OwesNext(prev.value, items[0]) else OwesHead(items[0])];
      chain, stream := chain + items, stream + items;
    }

    /** _prev->_o_next = _head */
    method StoreNext(t: Tid, prev: Node, first: Node)
      requires Inv(View()) && t in producers && producers[t] == OwesNext(prev, first)
      modifies this
      ensures Inv(View()) && t !in producers && Reaches(old(View()), View())
    {
      hide Inv;
      hide Reaches;
      Others(t);
      ghost var s1 := View();
      PushLinkInv(s1, t);
      ReachesByStep(s1, PushLink(t));
      next, producers := next[prev := Some(first)], producers - {t};
      ReachesOn(old(View()), s1, View());
    }

    /**
      os_mpsc_push_update_tail_list: true exactly when the list was empty at the exchange.  `met` is
      the state the exchange met, between entry and return; there `items` went in whole behind
      what was queued.
    */
    method PushUpdateTailList(t: Tid, items: seq<Node>)
      returns (mustSetHead: bool, ghost before: seq<Node>, ghost met: State)
      requires Inv(View()) && t !in producers && Fresh(View(), items)
      modifies this
      ensures Inv(View())
      ensures mustSetHead <==> before == []
      ensures if mustSetHead then t in producers && producers[t] == OwesHead(items[0]) else t !in producers
      ensures Reaches(old(View()), met) && met.chain == before && Enabled(met, PushExchange(t))
      ensures Step(met, PushExchange(t)).chain == before + items
      ensures Reaches(Step(met, PushExchange(t)), View())
    {
      hide Inv;
      hide Reaches;
      ghost var s0 := View();
      ClearLast(t, items);
      ghost var s1 := View();
      var prev;
      prev, before, met := ExchangeTail(t, items);
      ReachesOn(s0, s1, met);
      ReachesSelf(View());
      if prev.Some? {
        StoreNext(t, prev.value, items[0]);
      }
      mustSetHead := prev.None?;
    }

    /** os_mpsc_push_update_head, by the producer that was told to set it. */
    method PushUpdateHead(t: Tid, o: Node)
      requires Inv(View()) && t in producers && producers[t] == OwesHead(o)
      modifies this
      ensures Inv(View()) && t !in producers
    {
      hide Inv;
      Others(t);
      PushHeadInv(View(), t);
      head, producers := Some(o), producers - {t};
    }

    /** os_mpsc_get_head on a list that is not empty. */
    method GetHead() returns (h: Node)
      requires Inv(View()) && consumer.Idle? && chain != []
      modifies this
      ensures Inv(View()) && consumer == HasHead(h) && delivered == old(delivered)
      ensures old(chain) <= chain && h == chain[0]
    {
      hide Inv;
      h := AwaitHead();
      GetHeadInv(View());
      consumer := HasHead(h);
      AtHead(View(), h);
    }

    // The accesses of os_mpsc_pop_head, each after any number of producer steps.

    /** _n = _head->_o_next */
    method LoadNext(h: Node) returns (n: Option<Node>)
      requires Inv(View()) && consumer == HasHead(h)
      modifies this
      ensures Inv(View()) && consumer == PopLoaded(h, n) && delivered == old(delivered)
      ensures old(chain) <= chain
    {
      hide Inv;
      Interfere();
      PopLoadInv(View());
      n := Successor(next, h);
      consumer := PopLoaded(h, n);
    }

    /** head = _n, which finishes the pop unless n is NULL */
    method StoreHead(h: Node, n: Option<Node>)
      requires Inv(View()) && consumer == PopLoaded(h, n)
      modifies this
      ensures Inv(View()) && delivered == old(delivered) && head == n
      ensures n.None? ==> consumer == PopCleared(h) && old(chain) <= chain
      ensures n.Some? ==> consumer == Popped(h, n) && old(chain) <= [h] + chain && chain != [] && chain[0] == n.value
    {
      hide Inv;
      Interfere();
      AtHead(View(), h);
      PopStoreInv(View());
      head := n;
      consumer := if n.None? then PopCleared(h) else Popped(h, n);
      chain := if n.None? then chain else chain[1..];
    }

    /** cmpxchg(tail, _head, NULL) */
    method CasTail(h: Node) returns (done: bool)
      requires Inv(View()) && consumer == PopCleared(h)
      modifies this
      ensures Inv(View()) && delivered == old(delivered)
      ensures done ==> consumer == Popped(h, None) && old(chain) <= [h] + chain
      ensures !done ==> consumer == PopSpinning(h) && old(chain) <= chain
    {
      hide Inv;
      Interfere();
      AtHead(View(), h);
      PopCasInv(View());
      done := tail == Some(h);
      tail := if done then None else tail;
      consumer := if done then Popped(h, None) else PopSpinning(h);
      chain := if done then chain[1..] else chain;
    }

    /** wait until _head->_o_next is set */
    method SpinNext(h: Node) returns (n: Node)
      requires Inv(View()) && consumer == PopSpinning(h)
      modifies this
      ensures Inv(View()) && consumer == PopFound(h, n) && delivered == old(delivered)
      ensures old(chain) <= chain
    {
      hide Inv;
      AtHead(View(), h);
      assert Adjacent(chain, h, chain[1]);
      n := AwaitNext(h, chain[1]);
      PopSpinInv(View());
      consumer := PopFound(h, n);
    }

    /** head = _n, the second time */
    method RestoreHead(h: Node, n: Node)
      requires Inv(View()) && consumer == PopFound(h, n)
      modifies this
      ensures Inv(View()) && consumer == Popped(h, Some(n)) && delivered == old(delivered)
      ensures old(chain) <= [h] + chain && chain != [] && chain[0] == n && head == Some(n)
    {
      hide Inv;
      Interfere();
      AtHead(View(), h);
      PopRestoreInv(View());
      head, consumer, chain := Some(n), Popped(h, Some(n)), chain[1..];
    }

    /** os_mpsc_pop_head: takes the head out and nothing else. */
    method PopHead(h: Node) returns (n: Option<Node>)
      requires Inv(View()) && consumer == HasHead(h)
      modifies this
      ensures Inv(View()) && consumer == Popped(h, n) && delivered == old(delivered)
      ensures old(chain) <= [h] + chain
      ensures n.Some? ==> chain != [] && n.value == chain[0] && head == n
    {
      hide Inv;
      n := LoadNext(h);
      StoreHead(h, n);
      if n.None? {
        var done := CasTail(h);
        if !done {
          var succ := SpinNext(h);
          RestoreHead(h, succ);
          n := Some(succ);
        }
      }
    }

    /** os_mpsc_undo_pop_head, right after PopHead returned (h, n). */
    method UndoPopHead(h: Node, n: Option<Node>)
      requires Inv(View()) && consumer == Popped(h, n)
      modifies this
      ensures Inv(View()) && consumer.Idle? && delivered == old(delivered)
      ensures [h] + old(chain) <= chain
    {
      hide Inv;
      UndoInv(View());
      consumer := if n.None? then FrontReady([h]) else FrontLinked([h]);
      if n.None? {
        PutInFront([h]);
      } else {
        StoreFront([h]);
      }
    }

    /** os_mpsc_prepend. */
    method Prepend(list: seq<Node>)
      requires Inv(View()) && consumer.Idle? && Fresh(View(), list)
      modifies this
      ensures Inv(View()) && consumer.Idle? && delivered == old(delivered)
      ensures list + old(chain) <= chain
    {
      hide Inv;
      PrependBeginInv(View(), list);
      stream := delivered + list + Live(View());
      next := Chained(next, list)[Last(list) := None];
      consumer := FrontReady(list);
      PutInFront(list);
    }

    /** cmpxchg(tail, NULL, _tail) */
    method CasTailFront(list: seq<Node>) returns (done: bool)
      requires Inv(View()) && list != [] && consumer == FrontReady(list)
      modifies this
      ensures Inv(View()) && delivered == old(delivered)
      ensures done ==> consumer == FrontOwesHead(list[0]) && list + old(chain) <= chain
      ensures !done ==> consumer == FrontWait(list) && old(chain) <= chain && chain != []
    {
      hide Inv;
      Interfere();
      TailTellsEmpty(View());
      FrontCasInv(View());
      done := tail.None?;
      tail := if done then Some(Last(list)) else tail;
      consumer := if done then FrontOwesHead(list[0]) else FrontWait(list);
      chain := if done then list + chain else chain;
    }

    /** head = _head, after the compare-and-swap made the list the queue */
    method StoreFirst(list: seq<Node>)
      requires Inv(View()) && list != [] && consumer == FrontOwesHead(list[0])
      modifies this
      ensures Inv(View()) && consumer.Idle? && delivered == old(delivered) && old(chain) <= chain
    {
      hide Inv;
      Interfere();
      FrontStoreInv(View());
      head, consumer := Some(list[0]), Idle;
    }

    /** wait until head is set, then _tail->_o_next = _n */
    method LinkToHead(list: seq<Node>)
      requires Inv(View()) && list != [] && chain != [] && consumer == FrontWait(list)
      modifies this
      ensures Inv(View()) && consumer == FrontLinked(list) && delivered == old(delivered) && old(chain) <= chain
    {
      hide Inv;
      var first := AwaitHead();
      FrontSpinInv(View());
      consumer := FrontSeen(list, first);
      Interfere();
      FrontLinkInv(View());
      next, consumer := next[Last(list) := Some(first)], FrontLinked(list);
    }

    /** The common part of undo and prepend: compare-and-swap the tail, or link to the head. */
    method PutInFront(list: seq<Node>)
      requires Inv(View()) && list != [] && consumer == FrontReady(list)
      modifies this
      ensures Inv(View()) && consumer.Idle? && delivered == old(delivered)
      ensures list + old(chain) <= chain
    {
      hide Inv;
      var done := CasTailFront(list);
      if done {
        StoreFirst(list);
      } else {
        LinkToHead(list);
        StoreFront(list);
      }
    }

    /** The last store of undo and prepend, once the list is linked to the head. */
    method StoreFront(list: seq<Node>)
      requires Inv(View()) && list != [] && consumer == FrontLinked(list)
      modifies this
      ensures Inv(View()) && consumer.Idle? && delivered == old(delivered)
      ensures list + old(chain) <= chain
    {
      hide Inv;
      Interfere();
      FrontStoreInv(View());
      head, consumer, chain := Some(list[0]), Idle, list + chain;
    }

    /** os_mpsc_capture_snapshot on a list that is not empty. */
    method CaptureSnapshot() returns (h: Node, end: Node)
      requires Inv(View()) && consumer.Idle? && chain != []
      modifies this
      ensures Inv(View()) && consumer == Walking(h, end) && delivered == old(delivered)
      ensures chain == [] && old(chain) <= snap && h == snap[0] && end == Last(snap)
    {
      hide Inv;
      h := AwaitHead();
      CaptureHeadInv(View());
      consumer := SnapSeen(h);
      Interfere();
      CaptureClearInv(View());
      head, consumer := None, SnapCleared(h);
      Interfere();
      AtHead(View(), h);
      CaptureExchangeInv(View());
      end := tail.value;
      tail, consumer, snap, chain := None, Walking(h, end), chain, [];
    }

    /** os_mpsc_pop_snapshot_head, and the work item that runs before the next call. */
    method PopSnapshotHead(cur: Node, end: Node) returns (n: Option<Node>)
      requires Inv(View()) && consumer == Walking(cur, end)
      modifies this
      ensures Inv(View()) && delivered == old(delivered) + [cur] && [cur] + snap == old(snap)
      ensures n == None <==> snap == []
      ensures consumer == if n.Some? then Walking(n.value, end) else Idle
      ensures old(chain) <= chain
    {
      hide Inv;
      n := None;
      WalkPosition(View());
      SnapStart(View());
      if cur != end {
        assert Adjacent(snap, cur, snap[1]);
        var succ := AwaitNext(cur, snap[1]);
        n := Some(succ);
      }
      WalkNextInv(View());
      delivered, snap := delivered + [cur], snap[1..];
      consumer := if n.Some? then Walking(n.value, end) else Idle;
    }

    /** The drain of the main queue: capture, then walk until the end is reached. */
    method DrainSnapshot() returns (ghost captured: seq<Node>)
      requires Inv(View()) && consumer.Idle? && chain != []
      modifies this
      ensures Inv(View()) && consumer.Idle?
      ensures old(chain) <= captured && delivered == old(delivered) + captured
    {
      hide Inv;
      var cur, end := CaptureSnapshot();
      captured := snap;
      var n := Some(cur);
      while n.Some?
        invariant Inv(View())
        invariant consumer == if n.Some? then Walking(n.value, end) else Idle
        invariant n == None <==> snap == []
        invariant delivered + snap == old(delivered) + captured
        decreases |snap|
      {
        n := PopSnapshotHead(n.value, end);
      }
    }
  }

  /** The chain starts with the node the consumer has read from head, until it is popped. */
  lemma AtHead(s: State, h: Node)
    requires Inv(s)
    requires match s.consumer
             case HasHead(x) => x == h
             case PopLoaded(x, _) => x == h
             case PopCleared(x) => x == h
             case PopSpinning(x) => x == h
             case PopFound(x, _) => x == h
             case SnapCleared(x) => x == h
             case _ => false
    ensures s.chain != [] && s.chain[0] == h && s.tail == Some(Last(s.chain))
    ensures s.consumer.PopSpinning? ==> |s.chain| >= 2
    ensures s.consumer.PopFound? ==> |s.chain| >= 2 && s.chain[1] == s.consumer.succ
    ensures s.consumer.PopLoaded? && s.consumer.n.Some? ==> |s.chain| >= 2 && s.chain[1] == s.consumer.n.value
    ensures s.tail == Some(h) ==> s.chain == [h]
  {
    Separate(s);
    if s.consumer.PopFound? {
      SecondIsNext(s, h, s.consumer.succ);
    } else if s.consumer.PopLoaded? && s.consumer.n.Some? {
      SecondIsNext(s, h, s.consumer.n.value);
    }
    assert s.tail == Some(h) ==> s.chain[0] == s.chain[|s.chain| - 1];
  }

  lemma SnapStart(s: State)
    requires Inv(s) && s.consumer.Walking?
    ensures s.snap != [] && s.snap[0] == s.consumer.cur && Last(s.snap) == s.consumer.end
  {
  }

  lemma TailTellsEmpty(s: State)
    requires Inv(s)
    ensures s.tail.None? <==> s.chain == []
  {
  }

  lemma AdjacentExtends(q: seq<Node>, r: seq<Node>, a: Node, b: Node)
    requires q <= r
    ensures Adjacent(q, a, b) ==> Adjacent(r, a, b)
  {
    if Adjacent(q, a, b) {
      var i :| 0 <= i < |q| - 1 && q[i] == a && q[i + 1] == b;
      assert r[i] == a && r[i + 1] == b;
    }
  }

  /** A head that is still NULL over a list that is not empty is owed by a producer. */
  lemma HeadHasWriter(s: State)
    requires Inv(s) && s.chain != [] && s.head == None && (s.consumer.Idle? || s.consumer.FrontWait?)
    ensures exists t :: t in s.producers && s.producers[t].OwesHead?
  {
  }

  /** A gap between two adjacent nodes is held open by a producer that owes the store. */
  lemma GapHasWriter(s: State, a: Node, b: Node)
    requires Inv(s) && (Adjacent(s.chain, a, b) || Adjacent(s.snap, a, b)) && Successor(s.next, a).None?
    ensures exists t :: t in s.producers && s.producers[t].OwesNext? && s.producers[t].prev == a
  {
  }
}
