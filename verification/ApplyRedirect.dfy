/**
  How dispatch_apply_f picks the number of threads, and how _dispatch_apply_redirect reserves
  width for them on a chain of target queues whose words other threads keep changing.
*/
module ApplyRedirect {
  import opened Common
  import opened QueueState
  import opened QueueWidth
  import M = MpscQueue

  type Node = M.Node

  // ---------------------------------------------------------------- how many threads

  const DISPATCH_APPLY_MAX := 0xffff  // UINT16_MAX

  datatype Plan = Nothing | SerialSync(nested: nat) | RedirectSync(thrCnt: nat, nested: nat)
    | FanOut(thrCnt: nat, nested: nat)

  /** The queue dispatch_apply_f is called on, once "current root" is resolved. */
  datatype Target = Target(dqWidth: nat, hasTarget: bool, isCurrent: bool)

  /** da_nested: `outer` is the one of the enclosing apply, 0 when there is none. */
  function Nested(iterations: nat, outer: nat): nat {
    if outer == 0 then iterations
    else if outer < DISPATCH_APPLY_MAX && iterations < DISPATCH_APPLY_MAX then outer * iterations
    else DISPATCH_APPLY_MAX
  }

  /** da_thr_cnt */
  function ThrCnt(iterations: nat, activeCpus: nat, outer: nat): nat {
    var share :=
      if outer == 0 then activeCpus
      else if outer < activeCpus then activeCpus / outer
      else 1;
    if iterations < share then iterations else share
  }

  /** Which way dispatch_apply_f goes. */
  function Decide(iterations: nat, activeCpus: nat, outer: nat, dq: Target): Plan {
    var (thrCnt, nested) := (ThrCnt(iterations, activeCpus, outer), Nested(iterations, outer));
    if iterations == 0 then Nothing
    else if dq.dqWidth == 1 || thrCnt <= 1 then SerialSync(nested)
    else if dq.hasTarget then if dq.isCurrent then SerialSync(nested) else RedirectSync(thrCnt, nested)
    else FanOut(thrCnt, nested)
  }

  lemma QuotientAtLeast(j: nat, n: nat, d: nat)
    requires d >= 1
    ensures j <= n / d <==> j * d <= n
  {
    var q := n / d;
    assert q * d <= n < (q + 1) * d;
    if j <= q {
      Product(j, q, d);
    } else {
      Product(q + 1, j, d);
    }
  }

  /** The threads are as many as there are iterations, and processors for the enclosing levels. */
  lemma ThrCntGreatest(iterations: nat, activeCpus: nat, outer: nat, j: nat)
    requires j >= 2
    ensures j <= ThrCnt(iterations, activeCpus, outer) <==> j <= iterations && j * Max(outer, 1) <= activeCpus
  {
    if outer > 0 {
      QuotientAtLeast(j, activeCpus, outer);
      if outer >= activeCpus {
        Product(2, j, outer);
      }
    }
  }

  /** da_nested: the product, unless a factor is past the limit. */
  lemma NestedBounds(iterations: nat, outer: nat)
    ensures iterations >= 1 ==>
              && Nested(iterations, outer) <= Max(outer, 1) * iterations
              && Min(DISPATCH_APPLY_MAX, Max(outer, 1) * iterations) <= Nested(iterations, outer)
    ensures outer == 0 || Max(outer, iterations) < DISPATCH_APPLY_MAX ==>
              Nested(iterations, outer) == Max(outer, 1) * iterations
  {
    if outer > 0 && iterations > 0 {
      Product(1, outer, iterations);
      Product(1, iterations, outer);
    }
  }

  /** Room for two threads at least. */
  predicate Parallel(iterations: nat, activeCpus: nat, outer: nat) {
    iterations >= 2 && 2 * Max(outer, 1) <= activeCpus
  }

  /** Which plan it is, and with how many threads. */
  lemma PlanOf(iterations: nat, activeCpus: nat, outer: nat, dq: Target)
    ensures var (plan, several) := (Decide(iterations, activeCpus, outer, dq), Parallel(iterations, activeCpus, outer));
      && (plan.Nothing? <==> iterations == 0)
      && (plan.RedirectSync? <==> several && dq.dqWidth != 1 && dq.hasTarget && !dq.isCurrent)
      && (plan.FanOut? <==> several && dq.dqWidth != 1 && !dq.hasTarget)
      && (plan.FanOut? || plan.RedirectSync? ==>
            && 2 <= plan.thrCnt <= iterations && plan.thrCnt * Max(outer, 1) <= activeCpus
            && (plan.thrCnt < iterations ==> (plan.thrCnt + 1) * Max(outer, 1) > activeCpus))
      && (!plan.Nothing? ==>
            && Min(DISPATCH_APPLY_MAX, Max(outer, 1) * iterations) <= plan.nested <= Max(outer, 1) * iterations
            && (outer == 0 || Max(outer, iterations) < DISPATCH_APPLY_MAX ==>
                  plan.nested == Max(outer, 1) * iterations))
  {
    NestedBounds(iterations, outer);
    var thrCnt := ThrCnt(iterations, activeCpus, outer);
    ThrCntGreatest(iterations, activeCpus, outer, 2);
    if thrCnt >= 2 {
      ThrCntGreatest(iterations, activeCpus, outer, thrCnt);
      ThrCntGreatest(iterations, activeCpus, outer, thrCnt + 1);
    }
    hide ThrCnt;
    hide Nested;
  }

  /** da_nested is the number of iterations of all levels together, or both are past the limit. */
  predicate Counts(nested: nat, exact: nat) {
    nested == exact || (nested >= DISPATCH_APPLY_MAX && exact >= DISPATCH_APPLY_MAX)
  }

  /** The iterations of nested applies, outermost first, all together. */
  function AllIterations(levels: seq<nat>): nat {
    if levels == [] then 1 else AllIterations(levels[..|levels| - 1]) * Last(levels)
  }

  /** What dispatch_apply_f finds as the nesting level inside these applies. */
  function DaNested(levels: seq<nat>): nat {
    if levels == [] then 0 else Nested(Last(levels), DaNested(levels[..|levels| - 1]))
  }

  lemma {:induction false} NestedCounts(levels: seq<nat>)
    requires levels != [] && forall n :: n in levels ==> n >= 1
    ensures AllIterations(levels) >= 1 && DaNested(levels) >= 1 && Counts(DaNested(levels), AllIterations(levels))
  {
    var (before, n) := (levels[..|levels| - 1], Last(levels));
    assert n in levels && forall k :: k in before ==> k in levels;
    if before == [] {
      assert AllIterations(levels) == 1 * n;
    } else {
      NestedCounts(before);
      NestedMore(DaNested(before), AllIterations(before), n);
    }
  }

  lemma NestedMore(nested: nat, exact: nat, n: nat)
    requires nested >= 1 && exact >= 1 && n >= 1 && Counts(nested, exact)
    ensures exact * n >= 1 && Nested(n, nested) >= 1 && Counts(Nested(n, nested), exact * n)
  {
    Product(1, exact, n);
    Product(1, n, exact);
    Product(1, nested, n);
  }

  /** The threads of all levels together, if each gets what it asks for. */
  function AllThreads(levels: seq<nat>, activeCpus: nat): nat {
    if levels == [] then 1
    else
      var before := levels[..|levels| - 1];
      AllThreads(before, activeCpus) * ThrCnt(Last(levels), activeCpus, DaNested(before))
  }

  /**
    However deep applies are nested, all levels together ask for no more threads than there are
    processors, as long as the limit of the nesting count is above half their number.
  */
  lemma {:induction false} AllThreadsFit(levels: seq<nat>, activeCpus: nat)
    requires 1 <= activeCpus < 2 * DISPATCH_APPLY_MAX && forall n :: n in levels ==> n >= 1
    ensures AllThreads(levels, activeCpus) <= Min(activeCpus, AllIterations(levels))
  {
    if levels != [] {
      var (before, n) := (levels[..|levels| - 1], Last(levels));
      assert n in levels && forall k :: k in before ==> k in levels;
      AllThreadsFit(before, activeCpus);
      if before != [] {
        NestedCounts(before);
      }
      MoreThreads(AllThreads(before, activeCpus), AllIterations(before), DaNested(before), n, activeCpus);
    }
  }

  /** One level more. */
  lemma MoreThreads(threads: nat, exact: nat, nested: nat, n: nat, activeCpus: nat)
    requires 1 <= activeCpus < 2 * DISPATCH_APPLY_MAX && n >= 1 && threads <= activeCpus && threads <= exact
    requires if nested == 0 then exact == 1 else Counts(nested, exact)
    ensures threads * ThrCnt(n, activeCpus, nested) <= Min(activeCpus, exact * n)
  {
    var t := ThrCnt(n, activeCpus, nested);
    assert threads * t <= exact * n by {
      Product(threads, exact, t);
      Product(t, n, exact);
    }
    if t >= 2 {
      ThrCntGreatest(n, activeCpus, nested, t);
      if nested >= DISPATCH_APPLY_MAX {
        Product(2, t, nested);
        assert false;
      }
      Product(threads, exact, t);
    } else {
      Product(t, 1, threads);
    }
  }

  /** With more processors than that, three levels ask for twice as many threads as there are. */
  lemma AllThreadsOverflow(activeCpus: nat)
    requires activeCpus >= 2 * DISPATCH_APPLY_MAX
    ensures AllThreads([activeCpus, 1, 2], activeCpus) == 2 * activeCpus
  {
    var one, two, three := [activeCpus], [activeCpus, 1], [activeCpus, 1, 2];
    assert one[..0] == [] && two[..1] == one && three[..2] == two;
    assert AllThreads(one, activeCpus) == 1 * activeCpus && DaNested(one) == activeCpus;
    assert AllThreads(two, activeCpus) == activeCpus * 1 && DaNested(two) == DISPATCH_APPLY_MAX;
    QuotientAtLeast(2, activeCpus, DISPATCH_APPLY_MAX);
    assert ThrCnt(2, activeCpus, DISPATCH_APPLY_MAX) == 2;
  }

  /** The product of nesting levels neither vanishes nor overflows 32 bits. */
  lemma NestedFits(iterations: nat, outer: nat)
    requires iterations >= 1 && outer >= 1
    ensures 1 <= Nested(iterations, outer) < 0x1_0000_0000
  {
    if outer < DISPATCH_APPLY_MAX && iterations < DISPATCH_APPLY_MAX {
      Product(outer, 0xffff, iterations);
      Product(1, outer, iterations);
      assert 0xffff * iterations <= 0xffff * 0xffff;
    }
  }

  /** Nested levels together ask for no more threads than there are processors. */
  lemma ShareFits(activeCpus: nat, outer: nat, thrCnt: nat)
    requires 1 <= outer < activeCpus && thrCnt <= activeCpus / outer
    ensures thrCnt * outer <= activeCpus
  {
  }

  lemma ThreadsFit(iterations: nat, activeCpus: nat, outer: nat, dq: Target)
    requires iterations >= 1
    ensures var plan := Decide(iterations, activeCpus, outer, dq);
      && !plan.Nothing? && plan.nested >= 1 && (outer > 0 ==> plan.nested < 0x1_0000_0000)
      && (plan.FanOut? || plan.RedirectSync? ==>
            && 2 <= plan.thrCnt <= iterations && plan.thrCnt <= activeCpus
            && (outer > 0 ==> plan.thrCnt * outer <= activeCpus))
  {
    var thrCnt := ThrCnt(iterations, activeCpus, outer);
    if outer > 0 {
      NestedFits(iterations, outer);
      if outer < activeCpus {
        ShareFits(activeCpus, outer, thrCnt);
        Product(1, outer, thrCnt);
      }
    }
    hide Nested;
  }

  // ---------------------------------------------------------------- the serial fallback

  /** _dispatch_apply_serial: the callouts it makes, in order. */
  method Serial(iterations: nat) returns (calls: seq<nat>)
    requires iterations >= 1
    ensures calls == seq(iterations, i => i)
  {
    var idx := 0;
    calls := [];
    while true
      invariant 0 <= idx < iterations && calls == seq(idx, i => i)
      decreases iterations - idx
    {
      calls := calls + [idx];
      idx := idx + 1;
      if idx >= iterations {
        break;
      }
    }
  }

  // ---------------------------------------------------------------- the continuations

  /** `items` is the list that starts at head and is linked through next. */
  ghost predicate IsList(next: map<Node, Option<Node>>, head: Option<Node>, items: seq<Node>) {
    && head == (if items == [] then None else Some(items[0]))
    && (forall k :: 0 <= k < |items| ==> items[k] in next)
    && (forall k :: 0 <= k < |items| - 1 ==> next[items[k]] == Some(items[k + 1]))
    && (items != [] ==> next[Last(items)] == None)
  }

  function Reversed(q: seq<Node>): (r: seq<Node>)
    ensures |r| == |q|
  {
    if q == [] then [] else Reversed(q[1..]) + [q[0]]
  }

  lemma {:induction false} ReversedMore(q: seq<Node>, x: Node)
    ensures Reversed(q + [x]) == [x] + Reversed(q)
  {
    if q == [] {
      assert [x][1..] == [];
    } else {
      assert (q + [x])[1..] == q[1..] + [x];
      ReversedMore(q[1..], x);
    }
  }

  lemma {:induction false} ReversedElements(q: seq<Node>)
    ensures forall x :: x in Reversed(q) <==> x in q
    ensures NoDup(q) ==> NoDup(Reversed(q))
    ensures q != [] ==> Last(Reversed(q)) == q[0]
  {
    if q != [] {
      ReversedElements(q[1..]);
      var rest := Reversed(q[1..]);
      if NoDup(q) {
        forall i | 0 <= i < |rest| ensures rest[i] != q[0] {
          assert rest[i] in rest;
        }
      }
    }
  }

  /** A new node in front of a list. */
  lemma ConsList(next: map<Node, Option<Node>>, head: Option<Node>, items: seq<Node>, node: Node)
    requires IsList(next, head, items) && node !in items
    ensures IsList(next[node := head], Some(node), [node] + items)
  {
    var more := [node] + items;
    forall k | 0 <= k < |more| - 1 ensures next[node := head][more[k]] == Some(more[k + 1]) {
      if k > 0 {
        assert more[k] == items[k - 1] && items[k - 1] in items;
      }
    }
    if items != [] {
      assert Last(more) == Last(items) && Last(items) in items;
    }
  }

  /** The list of _dispatch_apply_f2, out of freshly allocated continuations: the last one first. */
  method BuildList(conts: seq<Node>) returns (head: Option<Node>, tail: Option<Node>, next: map<Node, Option<Node>>)
    requires conts != [] && NoDup(conts)
    ensures IsList(next, head, Reversed(conts)) && tail == Some(Last(Reversed(conts)))
  {
    head, tail, next := None, None, map[];
    var i := 0;
    while i < |conts|
      invariant 0 <= i <= |conts| && IsList(next, head, Reversed(conts[..i]))
      invariant tail == if i == 0 then None else Some(conts[0])
    {
      var node := conts[i];
      ReversedElements(conts[..i]);
      ConsList(next, head, Reversed(conts[..i]), node);
      ReversedMore(conts[..i], node);
      assert conts[..i + 1] == conts[..i] + [node];
      next := next[node := head];
      head := Some(node);
      if tail.None? {
        tail := Some(node);
      }
      i := i + 1;
    }
    assert conts[..i] == conts;
    ReversedElements(conts);
  }

  // ---------------------------------------------------------------- the chain of queues

  /** A step of the word, by this dispatch_apply or by anybody else. */
  datatype Event = Own(action: Action) | Other(action: Action)

  /** A queue, and how much of the width it has given out is this dispatch_apply's. */
  datatype Held = Held(q: Queue, mine: nat)

  /** What a step of the others leaves alone: they give back only units that are not this apply's. */
  predicate Spares(q: Queue, a: Action, mine: nat) {
    (a.GiveBack? ==> a.daWidth <= q.units - mine) && (a.Complete? ==> 1 <= q.units - mine)
  }

  /** One event, if it can happen: this apply's own are reservations and returns, and count for it. */
  function Happen(h: Held, e: Event): Option<Held> {
    if !Enabled(h.q, e.action) then None
    else
      var q := Step(h.q, e.action);
      if e.Other? then if Spares(h.q, e.action, h.mine) then Some(Held(q, h.mine)) else None
      else if e.action.Apply? && q.units >= h.q.units then Some(Held(q, h.mine + (q.units - h.q.units)))
      else if e.action.GiveBack? && e.action.daWidth <= h.mine then Some(Held(q, h.mine - e.action.daWidth))
      else None
  }

  /** All of a log, from a queue on which nothing is held by this apply. */
  ghost function Replay(start: Queue, log: seq<Event>): Option<Held>
    decreases |log|
  {
    if log == [] then Some(Held(start, 0))
    else
      var h := Replay(start, log[..|log| - 1]);
      if h.None? then None else Happen(h.value, Last(log))
  }

  lemma ReplayMore(start: Queue, log: seq<Event>, e: Event)
    requires Replay(start, log).Some?
    ensures Replay(start, log + [e]) == Happen(Replay(start, log).value, e)
  {
    hide Happen;
    assert (log + [e])[..|log|] == log;
  }

  /** The others' steps, as events. */
  ghost function OtherEvents(run: seq<Action>): (events: seq<Event>)
    ensures |events| == |run| && forall k :: 0 <= k < |run| ==> events[k] == Other(run[k])
  {
    seq(|run|, k requires 0 <= k < |run| => Other(run[k]))
  }

  /**
    A queue under interference.  The log says what has been done to its word, and by whom; what
    this dispatch_apply holds is what its own events leave.
  */
  class HeldQueue {
    var q: Queue
    ghost var mine: nat
    const frequency: nat  // its autorelease frequency, 0 when it has none
    ghost const start: Queue
    ghost var log: seq<Event>

    ghost predicate Valid()
      reads this
    {
      Inv(q) && mine <= q.units && Replay(start, log) == Some(Held(q, mine))
    }

    constructor (q: Queue, frequency: nat)
      requires Inv(q)
      ensures Valid() && mine == 0 && this.q == q && this.frequency == frequency && log == []
    {
      this.q, mine, this.frequency := q, 0, frequency;
      start, log := q, [];
    }

    /** Any steps of the others (see OthersReplay); none at all is one of them. */
    method Others()
      requires Valid()
      modifies this
      ensures Valid() && mine == old(mine)
      ensures old(log) <= log && forall k :: |old(log)| <= k < |log| ==> log[k].Other?
    {
    }

    /**
      _dispatch_queue_try_reserve_apply_width, at the instant its compare-and-swap succeeds, or
      finds nothing: `met` is the queue at that instant.
    */
    method Reserve(daWidth: nat) returns (width: nat, ghost met: Queue)
      requires Valid()
      modifies this
      ensures Valid() && mine == old(mine) + width && width == Min(daWidth, Unreserved(met))
      ensures old(log) <= log && Met(start, log, |old(log)|, met, daWidth)
      ensures width > 0 ==> q.units + DrainerUnits(q) + Reserved(q) <= q.dqWidth
    {
      hide Replay;
      Others();
      met := q;
      ReserveHappens(Held(q, mine), daWidth);
      ReplayMore(start, log, Own(Apply(daWidth)));
      hide Inv;
      hide Happen;
      hide ReserveApply;
      var (k, w) := ReserveApply(q.word, daWidth);
      width := k;
      ghost var before := log;
      q := q.(word := w, units := q.units + k);
      mine, log := mine + k, log + [Own(Apply(daWidth))];
      assert log[..|before|] == before;
      assert MetAt(start, log, |old(log)|, met, daWidth, |before|);
    }

    /** _dispatch_queue_relinquish_width: those units come off the word, after any steps of the others. */
    method GiveUp(units: nat)
      requires Valid() && units <= mine
      modifies this
      ensures Valid() && mine == old(mine) - units
      ensures old(log) < log && Last(log) == Own(GiveBack(units))
      ensures forall k :: |old(log)| <= k < |log| - 1 ==> log[k].Other?
    {
      hide Replay;
      Others();
      GiveUpHappens(Held(q, mine), units);
      ReplayMore(start, log, Own(GiveBack(units)));
      hide Inv;
      hide Happen;
      hide Relinquish;
      q := q.(word := Relinquish(q.word, units), units := q.units - units);
      ghost var before := log;
      mine, log := mine - units, log + [Own(GiveBack(units))];
      assert forall k :: 0 <= k < |before| ==> log[k] == before[k];
    }
  }

  /** From event number `from` on, an own reservation of daWidth met this queue. */
  ghost predicate Met(start: Queue, log: seq<Event>, from: nat, met: Queue, daWidth: nat) {
    exists k: nat :: MetAt(start, log, from, met, daWidth, k)
  }

  ghost predicate MetAt(start: Queue, log: seq<Event>, from: nat, met: Queue, daWidth: nat, k: nat) {
    && from <= k < |log| && log[k] == Own(Apply(daWidth))
    && Replay(start, log[..k]).Some? && Replay(start, log[..k]).value.q == met
  }

  lemma ReserveHappens(h: Held, daWidth: nat)
    requires Inv(h.q) && h.mine <= h.q.units
    ensures var (k, w) := ReserveApply(h.q.word, daWidth);
      var q := h.q.(word := w, units := h.q.units + k);
      && k == Min(daWidth, Unreserved(h.q))
      && Happen(h, Own(Apply(daWidth))) == Some(Held(q, h.mine + k)) && Inv(q)
      && (k > 0 ==> q.units + DrainerUnits(q) + Reserved(q) <= q.dqWidth)
  {
    hide Word.Raw;
    var a := Apply(daWidth);
    StepInv(h.q, a);
    AvailableWidthOf(h.q, daWidth);
    if ReserveApply(h.q.word, daWidth).0 > 0 {
      ReserveFits(h.q, a);
    }
    hide Inv;
  }

  lemma GiveUpHappens(h: Held, units: nat)
    requires Inv(h.q) && units <= h.mine <= h.q.units
    ensures units < WIDTH_RANGE
    ensures var q := h.q.(word := Relinquish(h.q.word, units), units := h.q.units - units);
      Happen(h, Own(GiveBack(units))) == Some(Held(q, h.mine - units)) && Inv(q)
  {
    hide Word.Raw;
    StepInv(h.q, GiveBack(units));
  }

  lemma ReserveMovesWidth(w: Word, daWidth: nat)
    requires w.Valid()
    ensures var (k, v) := ReserveApply(w, daWidth); v == w.(width := w.width + k)
  {
    hide Word.Valid;
    hide PlusWidth;
    var k := ReserveApply(w, daWidth).0;
    assert AvailableWidth(w) > 0 ==> 0 <= w.width + k < WIDTH_RANGE;
    assert AvailableWidth(w) > 0 ==> ReserveApply(w, daWidth).1 == PlusWidth(w, k);
    hide AvailableWidth;
    if k == 0 {
      assert w.(width := w.width + 0) == w;
    }
  }

  lemma ReturnMovesWidth(w: Word, daWidth: nat)
    requires w.Valid() && daWidth <= w.width
    ensures Relinquish(w, daWidth) == w.(width := w.width - daWidth)
  {
    hide Word.Raw;
  }

  /** What an own event does to a queue. */
  lemma OwnEvent(h: Held, a: Action)
    requires Happen(h, Own(a)).Some?
    ensures a.Apply? || (a.GiveBack? && a.daWidth <= h.mine && a.daWidth <= h.q.units)
    ensures a.Apply? ==>
      var (k, w) := ReserveApply(h.q.word, a.daWidth);
      Happen(h, Own(a)) == Some(Held(h.q.(word := w, units := h.q.units + k), h.mine + k))
    ensures a.GiveBack? ==>
      Happen(h, Own(a)) == Some(Held(h.q.(word := Relinquish(h.q.word, a.daWidth), units := h.q.units - a.daWidth),
                                     h.mine - a.daWidth))
  {
    hide Word.Raw;
    hide ReserveApply;
    hide Relinquish;
  }

  /** What an own event counts for is what it does to the width bits; it does nothing else to the word. */
  lemma OwnMovesWidth(h: Held, a: Action)
    requires Inv(h.q) && Happen(h, Own(a)).Some?
    ensures var h' := Happen(h, Own(a)).value;
      && h'.q.word == h.q.word.(width := h'.q.word.width)
      && h'.q.word.width - h.q.word.width == h'.q.units - h.q.units == h'.mine - h.mine
  {
    OwnEvent(h, a);
    hide Happen;
    hide ReserveApply;
    hide Relinquish;
    if a.Apply? {
      ReserveMovesWidth(h.q.word, a.daWidth);
    } else {
      assert h.q.units <= h.q.word.width;
      ReturnMovesWidth(h.q.word, a.daWidth);
    }
  }

  ghost predicate RunsBeside(q: Queue, run: seq<Action>, mine: nat)
    decreases |run|
  {
    run == [] ||
    (Enabled(q, run[0]) && Spares(q, run[0], mine) && RunsBeside(Step(q, run[0]), run[1..], mine))
  }

  ghost function AfterBeside(q: Queue, run: seq<Action>, mine: nat): Queue
    requires RunsBeside(q, run, mine)
    decreases |run|
  {
    if run == [] then q else AfterBeside(Step(q, run[0]), run[1..], mine)
  }

  /** A barrier cannot start, nor the width run out from under it, while it holds some. */
  lemma {:induction false} OthersKeepMine(q: Queue, run: seq<Action>, mine: nat)
    requires Inv(q) && mine <= q.units && RunsBeside(q, run, mine)
    ensures var q' := AfterBeside(q, run, mine);
      Inv(q') && mine <= q'.units && (mine > 0 ==> !q'.word.inBarrier)
    decreases |run|
  {
    hide Inv;
    hide Enabled;
    hide Step;
    if run == [] {
      if mine > 0 {
        NoBarrierBeside(q);
      }
    } else {
      StepInv(q, run[0]);
      UnitsKept(q, run[0], mine);
      OthersKeepMine(Step(q, run[0]), run[1..], mine);
    }
  }

  /** What Others stands for: any run of the others that spares this apply's units extends the log so. */
  lemma {:induction false} OthersReplay(start: Queue, log: seq<Event>, h: Held, run: seq<Action>)
    requires Replay(start, log) == Some(h) && Inv(h.q) && h.mine <= h.q.units && RunsBeside(h.q, run, h.mine)
    ensures Replay(start, log + OtherEvents(run)) == Some(Held(AfterBeside(h.q, run, h.mine), h.mine))
    ensures Inv(AfterBeside(h.q, run, h.mine)) && h.mine <= AfterBeside(h.q, run, h.mine).units
    decreases |run|
  {
    hide Replay;
    hide Inv;
    hide Enabled;
    hide Step;
    hide Spares;
    if run == [] {
      assert log + OtherEvents(run) == log;
    } else {
      var a := run[0];
      StepInv(h.q, a);
      UnitsKept(h.q, a, h.mine);
      ReplayMore(start, log, Other(a));
      OthersReplay(start, log + [Other(a)], Held(Step(h.q, a), h.mine), run[1..]);
      assert (log + [Other(a)]) + OtherEvents(run[1..]) == log + OtherEvents(run);
    }
  }

  lemma NoBarrierBeside(q: Queue)
    requires Inv(q) && q.units > 0
    ensures !q.word.inBarrier
  {
  }

  lemma UnitsKept(q: Queue, a: Action, mine: nat)
    requires Enabled(q, a) && mine <= q.units && Spares(q, a, mine)
    ensures mine <= Step(q, a).units
  {
    hide Word.Raw;
    hide QueueState.Complete;
  }

  /** The fields of dispatch_apply_s the redirection reads and writes. */
  class Request {
    const iterations: nat
    var thrCnt: nat   // da_thr_cnt
    var flags: nat    // da_flags

    constructor (iterations: nat, thrCnt: nat)
      ensures this.iterations == iterations && this.thrCnt == thrCnt && flags == 0
    {
      this.iterations, this.thrCnt, flags := iterations, thrCnt, 0;
    }
  }

  ghost predicate ChainOk(chain: seq<HeldQueue>)
    reads chain
  {
    |chain| >= 2 && NoDup(chain) && forall q :: q in chain ==> q.Valid()
  }

  /** This apply holds n units on each of the first k queues and none on the rest. */
  ghost predicate Holding(chain: seq<HeldQueue>, k: nat, n: nat)
    reads chain
  {
    forall j :: 0 <= j < |chain| ==> chain[j].mine == if j < k then n else 0
  }

  /** Nothing that happened to a queue is forgotten. */
  twostate predicate Logged(chain: seq<HeldQueue>)
    reads chain
  {
    forall j :: 0 <= j < |chain| ==> old(chain[j].log) <= chain[j].log
  }

  /** The roll-back: excess units go back to each of the first k queues. */
  method RollBack(chain: seq<HeldQueue>, k: nat, n: nat, excess: nat)
    requires ChainOk(chain) && k <= |chain| && excess <= n
    requires forall j :: 0 <= j < k ==> chain[j].mine == n
    modifies chain
    ensures ChainOk(chain) && Logged(chain)
    ensures forall j :: 0 <= j < |chain| ==> chain[j].mine == if j < k then n - excess else old(chain[j].mine)
  {
    hide Inv;
    hide Replay;
    var tq := 0;
    while tq < k
      invariant 0 <= tq <= k && ChainOk(chain) && Logged(chain)
      invariant forall j :: 0 <= j < |chain| ==> chain[j].mine == if j < tq then n - excess else old(chain[j].mine)
    {
      chain[tq].GiveUp(excess);
      tq := tq + 1;
    }
  }

  datatype Outcome = RanSerially(calls: seq<nat>) | RanInParallel(thrCnt: nat)

  /**
    _dispatch_apply_f2: one list of thrCnt - 1 continuations for the root queue, and the calling
    thread.  The list is `pushed`, linked through `next` from head to tail.
  */
  method PushParallel(chain: seq<HeldQueue>, da: Request, conts: seq<Node>)
    returns (head: Option<Node>, tail: Option<Node>, next: map<Node, Option<Node>>, ghost pushed: seq<Node>)
    requires ChainOk(chain) && da.thrCnt >= 2 && NoDup(conts) && |conts| >= da.thrCnt - 1
    requires Holding(chain, |chain| - 1, da.thrCnt - 1)
    modifies chain
    ensures ChainOk(chain) && Logged(chain) && Holding(chain, |chain| - 1, da.thrCnt - 1)
    ensures |pushed| == da.thrCnt - 1 && NoDup(pushed) && (forall x :: x in pushed ==> x in conts)
    ensures IsList(next, head, pushed) && tail == Some(Last(pushed))
  {
    hide Inv;
    hide Replay;
    var used := conts[..da.thrCnt - 1];
    head, tail, next := BuildList(used);
    pushed := Reversed(used);
    ReversedElements(used);
    var k := 0;
    while k < |chain|
      invariant 0 <= k <= |chain| && ChainOk(chain) && Logged(chain)
      invariant Holding(chain, |chain| - 1, da.thrCnt - 1)
    {
      chain[k].Others();
      k := k + 1;
    }
  }

  // ---------------------------------------------------------------- the autorelease frequency

  function FirstFrequency(frequencies: seq<nat>): nat {
    if frequencies == [] then 0
    else if frequencies[0] != 0 then frequencies[0]
    else FirstFrequency(frequencies[1..])
  }

  /** The frequencies of the queues width is reserved on: all but the root. */
  function Frequencies(chain: seq<HeldQueue>): (f: seq<nat>)
    requires |chain| >= 1
    ensures |f| == |chain| - 1 && forall j :: 0 <= j < |f| ==> f[j] == chain[j].frequency
  {
    seq(|chain| - 1, j requires 0 <= j < |chain| - 1 => chain[j].frequency)
  }

  /** Asking the first queue only gives the first frequency along the chain exactly when it has one, or none has. */
  lemma {:induction false} FirstOnly(frequencies: seq<nat>)
    requires frequencies != []
    ensures frequencies[0] == FirstFrequency(frequencies) <==>
            frequencies[0] != 0 || forall j :: 0 <= j < |frequencies| ==> frequencies[j] == 0
  {
    NoneSet(frequencies);
  }

  lemma {:induction false} NoneSet(frequencies: seq<nat>)
    ensures FirstFrequency(frequencies) == 0 <==> forall j :: 0 <= j < |frequencies| ==> frequencies[j] == 0
  {
    if frequencies != [] {
      NoneSet(frequencies[1..]);
      assert forall j :: 1 <= j < |frequencies| ==> frequencies[j] == frequencies[1..][j - 1];
    }
  }

  lemma FirstQueueOnly(chain: seq<HeldQueue>)
    requires |chain| >= 2
    ensures chain[0].frequency == FirstFrequency(Frequencies(chain)) <==>
            chain[0].frequency != 0 || forall j :: 0 <= j < |chain| - 1 ==> chain[j].frequency == 0
  {
    var f := Frequencies(chain);
    FirstOnly(f);
    hide FirstFrequency;
    assert forall j :: 0 <= j < |chain| - 1 ==> f[j] == chain[j].frequency;
  }

  // ---------------------------------------------------------------- the redirection

  /** What is left of n after turns that met these queues. */
  ghost function Least(n: nat, met: seq<Queue>): (m: nat)
    ensures m <= n
  {
    if met == [] then n else Min(Least(n, met[..|met| - 1]), Unreserved(Last(met)))
  }

  lemma LeastMore(n: nat, met: seq<Queue>, q: Queue)
    ensures Least(n, met + [q]) == Min(Least(n, met), Unreserved(q))
  {
    assert (met + [q])[..|met|] == met;
  }

  ghost function Logs(chain: seq<HeldQueue>): (logs: seq<seq<Event>>)
    reads chain
    ensures |logs| == |chain| && forall j :: 0 <= j < |chain| ==> logs[j] == chain[j].log
  {
    seq(|chain|, j requires 0 <= j < |chain| reads chain => chain[j].log)
  }

  /** The turns in these logs since `first`: on queue j a reservation of what was left then met met[j]. */
  ghost predicate Turns(chain: seq<HeldQueue>, first: seq<seq<Event>>, logs: seq<seq<Event>>, asked: nat,
                        met: seq<Queue>)
  {
    && |met| <= |chain| == |first| == |logs|
    && forall j :: 0 <= j < |met| ==> Met(chain[j].start, logs[j], |first[j]|, met[j], Least(asked, met[..j]))
  }

  lemma MetKept(start: Queue, log: seq<Event>, more: seq<Event>, from: nat, met: Queue, daWidth: nat)
    requires Met(start, log, from, met, daWidth) && log <= more
    ensures Met(start, more, from, met, daWidth)
  {
    hide Replay;
    var k: nat :| MetAt(start, log, from, met, daWidth, k);
    assert more[..k] == log[..k];
    assert MetAt(start, more, from, met, daWidth, k);
  }

  /** Earlier turns stay what they were. */
  lemma TurnsKept(chain: seq<HeldQueue>, first: seq<seq<Event>>, logs: seq<seq<Event>>, more: seq<seq<Event>>,
                  asked: nat, met: seq<Queue>)
    requires Turns(chain, first, logs, asked, met)
    requires |logs| == |more| && forall j :: 0 <= j < |logs| ==> logs[j] <= more[j]
    ensures Turns(chain, first, more, asked, met)
  {
    hide Met;
    forall j | 0 <= j < |met|
      ensures Met(chain[j].start, more[j], |first[j]|, met[j], Least(asked, met[..j]))
    {
      MetKept(chain[j].start, logs[j], more[j], |first[j]|, met[j], Least(asked, met[..j]));
    }
  }

  /** One more turn. */
  lemma TurnsMore(chain: seq<HeldQueue>, first: seq<seq<Event>>, logs: seq<seq<Event>>, more: seq<seq<Event>>,
                  asked: nat, met: seq<Queue>, q: Queue)
    requires Turns(chain, first, logs, asked, met) && |met| < |chain|
    requires |logs| == |more| && forall j :: 0 <= j < |logs| ==> logs[j] <= more[j]
    requires |first[|met|]| <= |logs[|met|]|
    requires Met(chain[|met|].start, more[|met|], |logs[|met|]|, q, Least(asked, met))
    ensures Turns(chain, first, more, asked, met + [q])
    ensures Least(asked, met + [q]) == Min(Least(asked, met), Unreserved(q))
  {
    hide Met;
    LeastMore(asked, met, q);
    TurnsKept(chain, first, logs, more, asked, met);
    MetSince(chain[|met|].start, more[|met|], |logs[|met|]|, |first[|met|]|, q, Least(asked, met));
    var turns := met + [q];
    forall j | 0 <= j < |turns|
      ensures Met(chain[j].start, more[j], |first[j]|, turns[j], Least(asked, turns[..j]))
    {
      assert turns[..j] == met[..j];
      assert j == |met| ==> met[..j] == met;
    }
  }

  /** The attempt on queue rq; the rest of the chain stands still meanwhile, or moves before or after. */
  method Attempt(chain: seq<HeldQueue>, rq: nat, daWidth: nat) returns (width: nat, ghost met: Queue)
    requires ChainOk(chain) && rq < |chain|
    modifies chain[rq]
    ensures ChainOk(chain) && Logged(chain) && width == Min(daWidth, Unreserved(met))
    ensures Met(chain[rq].start, chain[rq].log, |old(chain[rq].log)|, met, daWidth)
    ensures forall j :: 0 <= j < |chain| ==> chain[j].mine == old(chain[j].mine) + if j == rq then width else 0
  {
    hide Inv;
    hide Replay;
    hide Met;
    hide Unreserved;
    width, met := chain[rq].Reserve(daWidth);
  }

  /** One turn of the reservation loop, on queue rq; 0 when the turn met no available width. */
  method ReserveOn(chain: seq<HeldQueue>, da: Request, rq: nat, before: nat)
    returns (daWidth: nat, ghost met: Queue)
    requires ChainOk(chain) && rq < |chain| && Holding(chain, rq, before) && 1 <= before == da.thrCnt - 1
    modifies chain, da
    ensures ChainOk(chain) && Logged(chain) && daWidth == Min(before, Unreserved(met))
    ensures Met(chain[rq].start, chain[rq].log, |old(chain[rq].log)|, met, before)
    ensures if daWidth == 0 then Holding(chain, 0, 0) else Holding(chain, rq + 1, daWidth)
    ensures daWidth > 0 ==> da.thrCnt == daWidth + 1
    ensures daWidth > 0 ==> da.flags == if old(da.flags) == 0 then chain[0].frequency else old(da.flags)
  {
    hide Inv;
    hide Replay;
    hide Met;
    hide Unreserved;
    daWidth := before;
    var width;
    width, met := Attempt(chain, rq, daWidth);
    if daWidth > width {
      var excess := daWidth - width;
      ghost var log := chain[rq].log;
      RollBack(chain, rq, daWidth, excess);
      MetKept(chain[rq].start, log, chain[rq].log, |old(chain[rq].log)|, met, before);
      daWidth := daWidth - excess;
      if daWidth == 0 {
        return;
      }
      da.thrCnt := da.thrCnt - excess;
    }
    if da.flags == 0 {
      da.flags := chain[0].frequency;
    }
  }

  /** The reservation loop: turns in order, up to the root or to one that meets no available width. */
  method ReserveChain(chain: seq<HeldQueue>, da: Request) returns (daWidth: nat, ghost met: seq<Queue>)
    requires ChainOk(chain) && Holding(chain, 0, 0) && da.thrCnt >= 2 && da.flags == 0
    modifies chain, da
    ensures ChainOk(chain) && Logged(chain)
    ensures 1 <= |met| <= |chain| - 1 && Turns(chain, old(Logs(chain)), Logs(chain), old(da.thrCnt) - 1, met)
    ensures Least(old(da.thrCnt) - 1, met[..|met| - 1]) >= 1 && daWidth == Least(old(da.thrCnt) - 1, met)
    ensures daWidth == 0 ==> Unreserved(Last(met)) == 0 && Holding(chain, 0, 0)
    ensures daWidth > 0 ==> Unreserved(Last(met)) > 0 && |met| == |chain| - 1
    ensures daWidth > 0 ==> Holding(chain, |chain| - 1, daWidth) && da.thrCnt == daWidth + 1
    ensures daWidth > 0 ==> da.flags == chain[0].frequency
  {
    hide Inv;
    hide Replay;
    hide Met;
    hide Turns;
    hide Least;
    ghost var first, asked := Logs(chain), da.thrCnt - 1;
    daWidth := da.thrCnt - 1;
    var rq := 0;
    met := [];
    NoTurns(chain, first, asked);
    while true
      invariant 1 <= daWidth == da.thrCnt - 1
      invariant 0 <= rq < |chain| - 1 && ChainOk(chain) && Holding(chain, rq, daWidth) && Logged(chain)
      invariant |met| == rq && Turns(chain, first, Logs(chain), asked, met) && daWidth == Least(asked, met)
      invariant da.flags == if rq == 0 then 0 else chain[0].frequency
      decreases |chain| - rq
    {
      ghost var before, q := Logs(chain), chain[rq].q;
      daWidth, q := ReserveOn(chain, da, rq, daWidth);
      TurnsMore(chain, first, before, Logs(chain), asked, met, q);
      met := met + [q];
      assert met[..|met| - 1] == met[..rq];
      if daWidth == 0 {
        return;
      }
      rq := rq + 1;
      if rq == |chain| - 1 {
        return;
      }
    }
  }

  /** The loop after the fan-out. */
  method ReturnAll(chain: seq<HeldQueue>, n: nat)
    requires ChainOk(chain) && Holding(chain, |chain| - 1, n)
    modifies chain
    ensures ChainOk(chain) && Logged(chain) && Holding(chain, 0, 0)
  {
    hide Inv;
    hide Replay;
    var dq := 0;
    while true
      invariant 0 <= dq < |chain| - 1 && ChainOk(chain) && Logged(chain)
      invariant forall j :: 0 <= j < |chain| ==> chain[j].mine == if dq <= j < |chain| - 1 then n else 0
      decreases |chain| - dq
    {
      chain[dq].GiveUp(n);
      dq := dq + 1;
      if dq == |chain| - 1 {
        break;
      }
    }
  }

  /** The fan-out and the loop after it. */
  method SpreadOut(chain: seq<HeldQueue>, da: Request, conts: seq<Node>)
    returns (head: Option<Node>, tail: Option<Node>, next: map<Node, Option<Node>>, ghost pushed: seq<Node>)
    requires ChainOk(chain) && da.thrCnt >= 2 && NoDup(conts) && |conts| >= da.thrCnt - 1
    requires Holding(chain, |chain| - 1, da.thrCnt - 1)
    modifies chain
    ensures ChainOk(chain) && Logged(chain) && Holding(chain, 0, 0)
    ensures |pushed| == da.thrCnt - 1 && NoDup(pushed) && (forall x :: x in pushed ==> x in conts)
    ensures IsList(next, head, pushed) && tail == Some(Last(pushed))
  {
    hide Inv;
    hide Replay;
    hide ChainOk;
    hide Holding;
    hide IsList;
    hide NoDup;
    head, tail, next, pushed := PushParallel(chain, da, conts);
    ReturnAll(chain, da.thrCnt - 1);
  }

  /**
    _dispatch_apply_redirect, on the queues from the one applied to down to the root.  Whatever
    the others do to the words, the turns are made in order, each asking for what the ones before
    have left; the serial exit is taken exactly when a turn meets no available width, else the
    fan-out uses one thread more than the least of what was asked and what each turn met; and on
    both exits this apply's own reservations and returns on each word cancel out.
  */
  method Redirect(chain: seq<HeldQueue>, da: Request, conts: seq<Node>)
    returns (outcome: Outcome, head: Option<Node>, tail: Option<Node>, next: map<Node, Option<Node>>,
             ghost pushed: seq<Node>, ghost met: seq<Queue>)
    requires ChainOk(chain) && Holding(chain, 0, 0) && da.thrCnt >= 2 && da.flags == 0 && da.iterations >= 1
    requires NoDup(conts) && |conts| >= da.thrCnt - 1
    modifies chain, da
    ensures ChainOk(chain) && Logged(chain) && Holding(chain, 0, 0)
    ensures 1 <= |met| <= |chain| - 1 && Turns(chain, old(Logs(chain)), Logs(chain), old(da.thrCnt) - 1, met)
    ensures Least(old(da.thrCnt) - 1, met[..|met| - 1]) >= 1
    ensures outcome.RanSerially? <==> Unreserved(Last(met)) == 0
    ensures outcome.RanSerially? ==> pushed == [] && outcome.calls == seq(da.iterations, i => i)
    ensures outcome.RanInParallel? ==> |met| == |chain| - 1
    ensures outcome.RanInParallel? ==> outcome.thrCnt == da.thrCnt == Least(old(da.thrCnt) - 1, met) + 1 >= 2
    ensures outcome.RanInParallel? ==> |pushed| == da.thrCnt - 1 && NoDup(pushed)
    ensures outcome.RanInParallel? ==> pushed != [] && IsList(next, head, pushed) && tail == Some(Last(pushed))
    ensures outcome.RanInParallel? ==> da.flags == chain[0].frequency
    ensures outcome.RanInParallel? ==>
              (da.flags == FirstFrequency(Frequencies(chain)) <==>
               chain[0].frequency != 0 || forall j :: 0 <= j < |chain| - 1 ==> chain[j].frequency == 0)
  {
    hide Inv;
    hide Replay;
    hide Turns;
    hide Least;
    hide NoDup;
    FirstQueueOnly(chain);
    hide FirstFrequency;
    hide ChainOk;
    hide Holding;
    hide IsList;
    ghost var first, asked := Logs(chain), da.thrCnt - 1;
    var daWidth;
    daWidth, met := ReserveChain(chain, da);
    if daWidth == 0 {
      var calls := Serial(da.iterations);
      return RanSerially(calls), None, None, map[], [], met;
    }
    ghost var reserved := Logs(chain);
    head, tail, next, pushed := SpreadOut(chain, da, conts);
    TurnsKept(chain, first, reserved, Logs(chain), asked, met);
    outcome := RanInParallel(da.thrCnt);
  }

  lemma NoTurns(chain: seq<HeldQueue>, first: seq<seq<Event>>, asked: nat)
    requires |chain| == |first|
    ensures Turns(chain, first, first, asked, []) && Least(asked, []) == asked
  {
  }

  lemma MetSince(start: Queue, log: seq<Event>, from: nat, earlier: nat, met: Queue, daWidth: nat)
    requires Met(start, log, from, met, daWidth) && earlier <= from
    ensures Met(start, log, earlier, met, daWidth)
  {
    hide Replay;
    var k: nat :| MetAt(start, log, from, met, daWidth, k);
    assert MetAt(start, log, earlier, met, daWidth, k);
  }

  /**
    A chain whose first queue has no frequency and whose second has one: whatever the others do,
    a fan-out goes without it.
  */
  method SecondFrequencyMissed(q: Queue, root: Queue, iterations: nat, thrCnt: nat, frequency: nat, conts: seq<Node>)
    returns (outcome: Outcome, flags: nat, along: nat)
    requires Inv(q) && Inv(root) && iterations >= 1 && thrCnt >= 2 && frequency != 0
    requires NoDup(conts) && |conts| >= thrCnt - 1
    ensures outcome.RanInParallel? ==> flags == 0 && along == frequency
  {
    hide Inv;
    hide Replay;
    hide Turns;
    hide IsList;
    var first := new HeldQueue(q, 0);
    var second := new HeldQueue(q, frequency);
    var last := new HeldQueue(root, 0);
    var chain := [first, second, last];
    var da := new Request(iterations, thrCnt);
    ghost var head, tail, next, pushed, met;
    outcome, head, tail, next, pushed, met := Redirect(chain, da, conts);
    flags, along := da.flags, FirstFrequency(Frequencies(chain));
    assert Frequencies(chain) == [0, frequency] && [0, frequency][1..] == [frequency];
  }
}
