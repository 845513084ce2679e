/** Every step of the list keeps its invariant. */
module MpscInvariant {
  import opened Common
  import opened MpscQueue

  type Links = map<Node, Option<Node>>
  type Producers = map<Tid, Producer>

  /** The stores and producer moves that leave the links of q as they were. */
  lemma ChainFrame(next: Links, ps: Producers, next': Links, ps': Producers, q: seq<Node>)
    requires ChainOk(next, ps, q)
    requires forall a :: a in q ==> Successor(next', a) == Successor(next, a)
    requires forall t :: t in ps && ps[t].OwesNext? ==> t in ps' && ps'[t] == ps[t]
    ensures ChainOk(next', ps', q)
  {
    forall i | 0 <= i < |q| - 1
      ensures Joined(next', ps', q[i], q[i + 1])
    {
      assert Joined(next, ps, q[i], q[i + 1]);
      if Successor(next, q[i]) == None {
        var t :| Owes(ps, t, q[i], q[i + 1]);
        assert Owes(ps', t, q[i], q[i + 1]);
      }
    }
  }

  /** The pending store of t, once done, joins its two nodes wherever they stand. */
  lemma LinkChain(s: State, t: Tid, q: seq<Node>)
    requires t in s.producers && s.producers[t].OwesNext?
    requires ChainOk(s.next, s.producers, q) && NoDup(q)
    requires var p := s.producers[t]; p.prev in q ==> Adjacent(q, p.prev, p.first)
    ensures var s' := Step(s, PushLink(t)); ChainOk(s'.next, s'.producers, q)
  {
    var p, s' := s.producers[t], Step(s, PushLink(t));
    forall i | 0 <= i < |q| - 1
      ensures Joined(s'.next, s'.producers, q[i], q[i + 1])
    {
      assert Joined(s.next, s.producers, q[i], q[i + 1]);
      if q[i] == p.prev {
        var j :| 0 <= j < |q| - 1 && q[j] == p.prev && q[j + 1] == p.first;
        assert i == j;
      } else if Successor(s.next, q[i]) == None {
        var u :| Owes(s.producers, u, q[i], q[i + 1]);
        assert Owes(s'.producers, u, q[i], q[i + 1]);
      }
    }
  }

  /** No node is in two places. */
  lemma Separate(s: State)
    requires NoDup(Live(s))
    ensures NoDup(Hand(s.consumer)) && NoDup(s.snap) && NoDup(s.chain)
    ensures DisjointSeqs(Hand(s.consumer), s.snap) && DisjointSeqs(Hand(s.consumer), s.chain)
    ensures DisjointSeqs(s.snap, s.chain)
  {
    NoDupConcat(Hand(s.consumer) + s.snap, s.chain);
    NoDupConcat(Hand(s.consumer), s.snap);
    forall x | x in Hand(s.consumer) || x in s.snap ensures x !in s.chain {
      assert x in Hand(s.consumer) + s.snap;
    }
  }

  lemma InLive(s: State)
    ensures forall x :: x in Live(s) <==> x in Hand(s.consumer) || x in s.snap || x in s.chain
  {
  }

  /** A step that only adds to the end of the chain, and stores to no node of p, leaves p alone. */
  lemma ProducerFrame(s: State, s': State, p: Producer)
    requires ProducerOk(s, p)
    requires forall x :: x in Live(s') ==> x in Live(s) || x !in Private(p)
    requires forall a :: a in Private(p) || (p.OwesNext? && a == p.prev) ==>
      Successor(s'.next, a) == Successor(s.next, a)
    requires s.chain <= s'.chain && s'.snap == s.snap && s'.head == s.head
    ensures ProducerOk(s', p)
  {
    if p.OwesNext? {
      if Adjacent(s.chain, p.prev, p.first) {
        var i :| 0 <= i < |s.chain| - 1 && s.chain[i] == p.prev && s.chain[i + 1] == p.first;
        assert s'.chain[i] == p.prev && s'.chain[i + 1] == p.first;
      }
    } else if !p.OwesHead? {
      assert Last(p.items) in p.items;
    }
  }

  /** So does one that stores to no node in the consumer's hand, for the consumer. */
  lemma ConsumerFrame(s: State, s': State)
    requires ConsumerOk(s)
    requires s'.consumer == s.consumer && s.chain <= s'.chain && s'.snap == s.snap && s'.head == s.head
    requires s.chain == [] ==> s'.chain == [] || HeadOwed(s'.producers)
    requires s.chain != [] ==> HeadOwed(s.producers) == HeadOwed(s'.producers)
    requires forall a :: a in Live(s) && (a in Hand(s.consumer) || Successor(s.next, a).Some?) ==>
      Successor(s'.next, a) == Successor(s.next, a)
    ensures ConsumerOk(s')
  {
    InLive(s);
    var hand := Hand(s.consumer);
    if hand != [] {
      assert Last(hand) in hand;
    }
  }

  lemma OwedFrame(ps: Producers, ps': Producers)
    requires forall t :: t in ps && ps[t].OwesHead? ==> t in ps' && ps'[t].OwesHead?
    requires forall t :: t in ps' && ps'[t].OwesHead? ==> t in ps && ps[t].OwesHead?
    ensures HeadOwed(ps) == HeadOwed(ps')
  {
  }

  lemma {:induction false} ChainedLinks(next: Links, items: seq<Node>)
    requires items != [] && NoDup(items)
    ensures ListOk(Chained(next, items), items)
    ensures forall a :: a !in items ==> Successor(Chained(next, items), a) == Successor(next, a)
    ensures Successor(Chained(next, items), Last(items)) == Successor(next, Last(items))
    decreases |items|
  {
    if |items| > 1 {
      var rest := items[1..];
      assert items == [items[0]] + rest;
      NoDupConcat([items[0]], rest);
      ChainedLinks(next, rest);
      var before := Chained(next, rest);
      forall i | 0 <= i < |items| - 1
        ensures Successor(Chained(next, items), items[i]) == Some(items[i + 1])
      {
        if i > 0 {
          assert rest[i - 1] == items[i] && Successor(before, rest[i - 1]) == Some(rest[i]);
        }
      }
    }
  }

  /** The nodes that a shared step may read: what entered the list, and pending stores into it. */
  lemma PendingInLive(s: State, t: Tid)
    requires ProducersOk(s) && t in s.producers && s.producers[t].OwesNext?
    ensures s.producers[t].prev in s.chain || s.producers[t].prev in s.snap
    ensures s.producers[t].prev in Live(s)
  {
  }

  lemma PushBeginProducers(s: State, t: Tid, items: seq<Node>)
    requires Inv(s) && Enabled(s, PushBegin(t, items))
    ensures ProducersOk(Step(s, PushBegin(t, items)))
  {
    var s' := Step(s, PushBegin(t, items));
    ChainedLinks(s.next, items);
    assert Live(s') == Live(s);
    forall u | u in s'.producers
      ensures ProducerOk(s', s'.producers[u])
    {
      if u != t {
        if s.producers[u].OwesNext? {
          PendingInLive(s, u);
        }
        ProducerFrame(s, s', s.producers[u]);
      }
    }
  }

  lemma PushBeginInv(s: State, t: Tid, items: seq<Node>)
    requires Inv(s) && Enabled(s, PushBegin(t, items))
    ensures Inv(Step(s, PushBegin(t, items)))
  {
    var s' := Step(s, PushBegin(t, items));
    ChainedLinks(s.next, items);
    InLive(s);
    assert Live(s') == Live(s);
    PushBeginProducers(s, t, items);
    ChainFrame(s.next, s.producers, s'.next, s'.producers, s.chain);
    ChainFrame(s.next, s.producers, s'.next, s'.producers, s.snap);
    OwedFrame(s.producers, s'.producers);
    ConsumerFrame(s, s');
  }

  lemma PushClearProducers(s: State, t: Tid)
    requires Inv(s) && Enabled(s, PushClear(t))
    ensures ProducersOk(Step(s, PushClear(t)))
  {
    var items, s' := s.producers[t].items, Step(s, PushClear(t));
    assert ProducerOk(s, s.producers[t]);
    assert Live(s') == Live(s);
    assert Last(items) in items;
    forall u | u in s'.producers
      ensures ProducerOk(s', s'.producers[u])
    {
      var p := s.producers[u];
      if u == t {
        assert forall i :: 0 <= i < |items| - 1 ==> items[i] != Last(items);
      } else {
        if p.OwesNext? {
          PendingInLive(s, u);
        }
        assert DisjointSeqs(Private(s.producers[t]), Private(p));
        ProducerFrame(s, s', p);
      }
    }
  }

  lemma PushClearInv(s: State, t: Tid)
    requires Inv(s) && Enabled(s, PushClear(t))
    ensures Inv(Step(s, PushClear(t)))
  {
    var items, s' := s.producers[t].items, Step(s, PushClear(t));
    assert ProducerOk(s, s.producers[t]);
    assert Last(items) in items && Last(items) !in Live(s);
    assert Live(s') == Live(s);
    PushClearProducers(s, t);
    hide ProducersOk;
    hide ProducerOk;
    hide NoDup;
    assert forall a :: a in Live(s) ==> Successor(s'.next, a) == Successor(s.next, a);
    InLive(s);
    ChainFrame(s.next, s.producers, s'.next, s'.producers, s.chain);
    ChainFrame(s.next, s.producers, s'.next, s'.producers, s.snap);
    OwedFrame(s.producers, s'.producers);
    ConsumerFrame(s, s');
  }

  /** The exchange puts the list behind everything else, with at most one gap before it. */
  lemma PushExchangeChain(s: State, t: Tid)
    requires Inv(s) && Enabled(s, PushExchange(t))
    ensures var s' := Step(s, PushExchange(t));
      ChainOk(s'.next, s'.producers, s'.chain) && ChainOk(s'.next, s'.producers, s'.snap)
  {
    var items, s' := s.producers[t].items, Step(s, PushExchange(t));
    assert ProducerOk(s, s.producers[t]);
    ChainFrame(s.next, s.producers, s'.next, s'.producers, s.chain);
    ChainFrame(s.next, s.producers, s'.next, s'.producers, s.snap);
    var n := |s.chain|;
    forall i | 0 <= i < |s'.chain| - 1
      ensures Joined(s'.next, s'.producers, s'.chain[i], s'.chain[i + 1])
    {
      if i < n - 1 {
        assert Joined(s'.next, s'.producers, s.chain[i], s.chain[i + 1]);
      } else if i == n - 1 {
        assert Owes(s'.producers, t, s'.chain[i], s'.chain[i + 1]);
      } else {
        assert s'.chain[i] == items[i - n] && s'.chain[i + 1] == items[i - n + 1];
      }
    }
    assert Last(s'.chain) == Last(items);
  }

  /** Nobody owes a store to the last node, so the producer that exchanges next will be alone. */
  lemma LastIsUnclaimed(s: State, u: Tid)
    requires Inv(s) && s.chain != [] && u in s.producers && s.producers[u].OwesNext?
    ensures s.producers[u].prev != Last(s.chain)
  {
    Separate(s);
    var p := s.producers[u];
    assert ProducerOk(s, p);
    if Adjacent(s.chain, p.prev, p.first) {
      var i :| 0 <= i < |s.chain| - 1 && s.chain[i] == p.prev && s.chain[i + 1] == p.first;
      assert s.chain[i] != s.chain[|s.chain| - 1];
    } else {
      assert Last(s.chain) in s.chain && p.prev in s.snap;
    }
  }

  lemma PushExchangeProducer(s: State, t: Tid, u: Tid)
    requires Inv(s) && Enabled(s, PushExchange(t)) && u in s.producers
    ensures var s' := Step(s, PushExchange(t)); ProducerOk(s', s'.producers[u])
  {
    var items, s' := s.producers[t].items, Step(s, PushExchange(t));
    assert ProducerOk(s, s.producers[t]);
    if u == t {
      var n := |s.chain|;
      if n > 0 {
        assert s'.chain[n - 1] == Last(s.chain) && s'.chain[n] == items[0];
      }
    } else {
      assert Live(s') == Live(s) + items;
      assert DisjointSeqs(Private(s.producers[t]), Private(s.producers[u]));
      ProducerFrame(s, s', s.producers[u]);
    }
  }

  lemma PushExchangeProducers(s: State, t: Tid)
    requires Inv(s) && Enabled(s, PushExchange(t))
    ensures ProducersOk(Step(s, PushExchange(t)))
  {
    var s' := Step(s, PushExchange(t));
    PushExchangeApart(s, t);
    hide Inv;
    hide ProducerOk;
    forall u | u in s'.producers ensures ProducerOk(s', s'.producers[u]) {
      PushExchangeProducer(s, t, u);
    }
    hide Step;
    hide Enabled;
  }

  /** No two producers own a node, the head store or a last node together. */
  lemma PushExchangeApart(s: State, t: Tid)
    requires Inv(s) && Enabled(s, PushExchange(t))
    ensures var ps := Step(s, PushExchange(t)).producers;
      forall u, v :: u in ps && v in ps && u != v ==>
          && DisjointSeqs(Private(ps[u]), Private(ps[v]))
          && !(ps[u].OwesHead? && ps[v].OwesHead?)
          && !(ps[u].OwesNext? && ps[v].OwesNext? && ps[u].prev == ps[v].prev)
  {
    var s' := Step(s, PushExchange(t));
    forall u | s.chain != [] && u in s'.producers && u != t && s'.producers[u].OwesNext?
      ensures s'.producers[u].prev != Last(s.chain)
    {
      LastIsUnclaimed(s, u);
    }
    assert s.chain == [] ==> s'.producers[t].OwesHead?;
    forall u | s.chain != [] && u in s'.producers && u != t && s'.producers[u].OwesHead?
      ensures s'.producers[t].OwesNext?
    {
    }
    forall u | s.chain == [] && u in s'.producers && u != t ensures !s'.producers[u].OwesHead? {
      assert ProducerOk(s, s.producers[u]);
    }
  }

  lemma PushExchangeConsumer(s: State, t: Tid)
    requires Inv(s) && Enabled(s, PushExchange(t))
    ensures ConsumerOk(Step(s, PushExchange(t)))
  {
    var s' := Step(s, PushExchange(t));
    if s.chain != [] {
      OwedFrame(s.producers, s'.producers);
    } else {
      assert s'.producers[t].OwesHead?;
    }
    ConsumerFrame(s, s');
  }

  lemma PushExchangeInv(s: State, t: Tid)
    requires Inv(s) && Enabled(s, PushExchange(t))
    ensures Inv(Step(s, PushExchange(t)))
  {
    var items, s' := s.producers[t].items, Step(s, PushExchange(t));
    assert ProducerOk(s, s.producers[t]);
    assert Live(s') == Live(s) + items;
    NoDupConcat(Live(s), items);
    assert Last(s'.chain) == Last(items);
    PushExchangeChain(s, t);
    PushExchangeProducers(s, t);
    PushExchangeConsumer(s, t);
    hide ProducersOk;
    hide ConsumerOk;
    hide ChainOk;
    hide NoDup;
  }

  lemma PushLinkProducers(s: State, t: Tid)
    requires Inv(s) && Enabled(s, PushLink(t))
    ensures ProducersOk(Step(s, PushLink(t)))
  {
    var s' := Step(s, PushLink(t));
    PendingInLive(s, t);
    assert Live(s') == Live(s);
    forall u | u in s'.producers
      ensures ProducerOk(s', s'.producers[u])
    {
      ProducerFrame(s, s', s.producers[u]);
    }
  }

  lemma PushLinkChains(s: State, t: Tid)
    requires Inv(s) && Enabled(s, PushLink(t))
    ensures var s' := Step(s, PushLink(t));
      ChainOk(s'.next, s'.producers, s'.chain) && ChainOk(s'.next, s'.producers, s'.snap)
  {
    assert ProducerOk(s, s.producers[t]);
    Separate(s);
    PendingInLive(s, t);
    LinkChain(s, t, s.chain);
    LinkChain(s, t, s.snap);
  }

  lemma PushLinkInv(s: State, t: Tid)
    requires Inv(s) && Enabled(s, PushLink(t))
    ensures Inv(Step(s, PushLink(t)))
  {
    var s' := Step(s, PushLink(t));
    assert ProducerOk(s, s.producers[t]);
    Separate(s);
    PendingInLive(s, t);
    assert Live(s') == Live(s);
    PushLinkChains(s, t);
    PushLinkProducers(s, t);
    OwedFrame(s.producers, s'.producers);
    ConsumerFrame(s, s');
  }

  lemma PushHeadInv(s: State, t: Tid)
    requires Inv(s) && Enabled(s, PushHead(t))
    ensures Inv(Step(s, PushHead(t)))
  {
    var s' := Step(s, PushHead(t));
    assert ProducerOk(s, s.producers[t]);
    assert Live(s') == Live(s);
    ChainFrame(s.next, s.producers, s'.next, s'.producers, s.chain);
    ChainFrame(s.next, s.producers, s'.next, s'.producers, s.snap);
    forall u | u in s'.producers
      ensures ProducerOk(s', s'.producers[u])
    {
      assert ProducerOk(s, s.producers[u]);
    }
  }

  // ---------------------------------------------------------------- consumer steps

  /** A step of the consumer that moves no node keeps the producers' claims. */
  lemma ConsumerOnly(s: State, s': State)
    requires Inv(s)
    requires s'.producers == s.producers && s'.next == s.next
    requires s'.chain == s.chain && s'.snap == s.snap && s'.delivered == s.delivered && s'.stream == s.stream
    requires s'.tail == s.tail && Hand(s'.consumer) == Hand(s.consumer)
    requires s'.head == s.head || !HeadOwed(s.producers)
    requires s'.consumer.Walking? == s.consumer.Walking?
    requires ConsumerOk(s')
    ensures Inv(s')
  {
    assert Live(s') == Live(s);
    forall u | u in s'.producers ensures ProducerOk(s', s'.producers[u]) {
      assert ProducerOk(s, s.producers[u]);
    }
  }

  lemma HeadSetNotOwed(s: State)
    requires ProducersOk(s) && s.head.Some?
    ensures !HeadOwed(s.producers)
  {
    forall u | u in s.producers ensures !s.producers[u].OwesHead? {
      assert ProducerOk(s, s.producers[u]);
    }
  }

  lemma GetHeadInv(s: State) requires Inv(s) && Enabled(s, GetHead) ensures Inv(Step(s, GetHead)) {
    ConsumerOnly(s, Step(s, GetHead));
  }

  lemma PopLoadInv(s: State) requires Inv(s) && Enabled(s, PopLoad) ensures Inv(Step(s, PopLoad)) {
    ConsumerOnly(s, Step(s, PopLoad));
  }

  lemma PopSpinInv(s: State) requires Inv(s) && Enabled(s, PopSpin) ensures Inv(Step(s, PopSpin)) {
    ConsumerOnly(s, Step(s, PopSpin));
  }

  lemma CaptureHeadInv(s: State) requires Inv(s) && Enabled(s, CaptureHead) ensures Inv(Step(s, CaptureHead)) {
    ConsumerOnly(s, Step(s, CaptureHead));
  }

  lemma CaptureClearInv(s: State) requires Inv(s) && Enabled(s, CaptureClear) ensures Inv(Step(s, CaptureClear)) {
    HeadSetNotOwed(s);
    ConsumerOnly(s, Step(s, CaptureClear));
  }

  lemma UndoInv(s: State) requires Inv(s) && Enabled(s, Undo) ensures Inv(Step(s, Undo)) {
    ConsumerOnly(s, Step(s, Undo));
  }

  lemma FrontSpinInv(s: State) requires Inv(s) && Enabled(s, FrontSpin) ensures Inv(Step(s, FrontSpin)) {
    ConsumerOnly(s, Step(s, FrontSpin));
  }

  /** The first node of a chain with a known successor, or none to come, may be taken away. */
  lemma DropFirst(s: State, q: seq<Node>)
    requires ChainOk(s.next, s.producers, q) && q != [] && NoDup(q)
    ensures ChainOk(s.next, s.producers, q[1..])
    ensures forall a, b :: Adjacent(q, a, b) && a != q[0] ==> Adjacent(q[1..], a, b)
  {
    var r := q[1..];
    forall i | 0 <= i < |r| - 1 ensures Joined(s.next, s.producers, r[i], r[i + 1]) {
      assert Joined(s.next, s.producers, q[i + 1], q[i + 2]);
    }
    forall a, b | Adjacent(q, a, b) && a != q[0] ensures Adjacent(r, a, b) {
      var i :| 0 <= i < |q| - 1 && q[i] == a && q[i + 1] == b;
      assert r[i - 1] == a && r[i] == b;
    }
  }

  /** The node after the head of a linked chain is its successor. */
  lemma SecondIsNext(s: State, h: Node, n: Node)
    requires Inv(s) && s.chain != [] && s.chain[0] == h && |s.chain| >= 2 && Successor(s.next, h) == Some(n)
    ensures s.chain[1] == n
  {
  }

  /** Taking the head h, whose successor n is known, into the consumer's hand. */
  lemma TakeHead(s: State, s': State, h: Node, n: Node)
    requires Inv(s) && Hand(s.consumer) == [] && !s.consumer.Walking?
    requires |s.chain| >= 2 && s.chain[0] == h && Successor(s.next, h) == Some(n) && !HeadOwed(s.producers)
    requires s' == s.(head := Some(n), consumer := Popped(h, Some(n)), chain := s.chain[1..])
    ensures Inv(s')
  {
    SecondIsNext(s, h, n);
    Separate(s);
    DropFirst(s, s.chain);
    assert Live(s') == Live(s);
    forall u | u in s'.producers ensures ProducerOk(s', s'.producers[u]) {
      assert ProducerOk(s, s.producers[u]);
    }
    assert Last(s'.chain) == Last(s.chain);
  }

  lemma PopStoreInv(s: State) requires Inv(s) && Enabled(s, PopStore) ensures Inv(Step(s, PopStore)) {
    HeadSetNotOwed(s);
    var c := s.consumer;
    if c.n.Some? {
      TakeHead(s, Step(s, PopStore), c.h, c.n.value);
    } else {
      ConsumerOnly(s, Step(s, PopStore));
    }
  }

  lemma PopRestoreInv(s: State) requires Inv(s) && Enabled(s, PopRestore) ensures Inv(Step(s, PopRestore)) {
    var c := s.consumer;
    TakeHead(s, Step(s, PopRestore), c.h, c.succ);
  }

  lemma PopCasInv(s: State) requires Inv(s) && Enabled(s, PopCas) ensures Inv(Step(s, PopCas)) {
    var s', h := Step(s, PopCas), s.consumer.h;
    Separate(s);
    if s.tail != Some(h) {
      ConsumerOnly(s, s');
    } else {
      assert s.chain[0] == s.chain[|s.chain| - 1];
      assert s.chain == [h];
      assert Live(s') == Live(s);
      forall u | u in s'.producers ensures ProducerOk(s', s'.producers[u]) {
        assert ProducerOk(s, s.producers[u]);
      }
    }
  }

  lemma DeliverInv(s: State) requires Inv(s) && Enabled(s, Deliver) ensures Inv(Step(s, Deliver)) {
    var s', h := Step(s, Deliver), s.consumer.h;
    assert Live(s) == [h] + Live(s');
    NoDupConcat([h], Live(s'));
    forall u | u in s'.producers ensures ProducerOk(s', s'.producers[u]) {
      ProducerFrame(s, s', s.producers[u]);
    }
  }

  // ---------------------------------------------------------------- undo and prepend

  /** `next` changes at private nodes only: everything in the list keeps its links. */
  lemma PrivateStores(s: State, s': State)
    requires Inv(s)
    requires s'.producers == s.producers && s'.chain == s.chain && s'.snap == s.snap && s'.head == s.head
    requires forall a :: a in s.chain || a in s.snap ==> Successor(s'.next, a) == Successor(s.next, a)
    requires forall u, a :: u in s.producers && a in Private(s.producers[u]) ==>
      Successor(s'.next, a) == Successor(s.next, a) && a !in Live(s')
    ensures ChainOk(s'.next, s'.producers, s'.chain) && ChainOk(s'.next, s'.producers, s'.snap)
    ensures ProducersOk(s')
  {
    ChainFrame(s.next, s.producers, s'.next, s'.producers, s.chain);
    ChainFrame(s.next, s.producers, s'.next, s'.producers, s.snap);
    forall u | u in s'.producers ensures ProducerOk(s', s'.producers[u]) {
      if s.producers[u].OwesNext? {
        PendingInLive(s, u);
      }
      ProducerFrame(s, s', s.producers[u]);
    }
  }

  lemma ClearedLinks(next: Links, list: seq<Node>)
    requires list != [] && NoDup(list)
    ensures var next' := Chained(next, list)[Last(list) := None];
      && ListOk(next', list) && Successor(next', Last(list)) == None
      && (forall a :: a !in list ==> Successor(next', a) == Successor(next, a))
  {
  }

  lemma PrependBeginInv(s: State, list: seq<Node>)
    requires Inv(s) && Enabled(s, PrependBegin(list))
    ensures Inv(Step(s, PrependBegin(list)))
  {
    var s' := Step(s, PrependBegin(list));
    ClearedLinks(s.next, list);
    InLive(s);
    assert Live(s') == list + Live(s);
    NoDupConcat(list, Live(s));
    assert s'.stream == s'.delivered + Live(s');
    forall u, a | u in s.producers && a in Private(s.producers[u])
      ensures a !in list && a !in Live(s')
    {
      assert ProducerOk(s, s.producers[u]);
    }
    PrivateStores(s, s');
    hide ProducersOk;
    hide ChainOk;
    hide NoDup;
  }

  lemma FrontLinkInv(s: State)
    requires Inv(s) && Enabled(s, FrontLink)
    ensures Inv(Step(s, FrontLink))
  {
    var s', items := Step(s, FrontLink), s.consumer.items;
    assert Live(s') == Live(s);
    Separate(s);
    InLive(s);
    assert Last(items) in items;
    assert forall i :: 0 <= i < |items| - 1 ==> items[i] != items[|items| - 1];
    forall u, a | u in s.producers && a in Private(s.producers[u])
      ensures Successor(s'.next, a) == Successor(s.next, a) && a !in Live(s')
    {
      assert ProducerOk(s, s.producers[u]);
    }
    PrivateStores(s, s');
  }

  /** Putting items, linked to the head of the chain if there is one, in front of the chain. */
  lemma FrontChain(s: State, items: seq<Node>)
    requires ListOk(s.next, items) && ChainOk(s.next, s.producers, s.chain)
    requires Successor(s.next, Last(items)) == (if s.chain == [] then None else Some(s.chain[0]))
    ensures ChainOk(s.next, s.producers, items + s.chain)
    ensures forall a, b :: Adjacent(s.chain, a, b) ==> Adjacent(items + s.chain, a, b)
  {
    var q, n := items + s.chain, |items|;
    forall i | 0 <= i < |q| - 1 ensures Joined(s.next, s.producers, q[i], q[i + 1]) {
      if i < n - 1 {
        assert q[i] == items[i] && q[i + 1] == items[i + 1];
      } else if i >= n {
        assert Joined(s.next, s.producers, s.chain[i - n], s.chain[i - n + 1]);
      }
    }
    forall a, b | Adjacent(s.chain, a, b) ensures Adjacent(q, a, b) {
      var i :| 0 <= i < |s.chain| - 1 && s.chain[i] == a && s.chain[i + 1] == b;
      assert q[n + i] == a && q[n + i + 1] == b;
    }
    assert Last(q) == if s.chain == [] then Last(items) else Last(s.chain);
  }

  /** The consumer's list joins the queue, in front of everything. */
  lemma FrontJoins(s: State, s': State, items: seq<Node>)
    requires Inv(s) && Hand(s.consumer) == items && s.snap == [] && ListOk(s.next, items)
    requires Successor(s.next, Last(items)) == (if s.chain == [] then None else Some(s.chain[0]))
    requires !HeadOwed(s.producers)
    requires s'.next == s.next && s'.producers == s.producers && s'.snap == [] && s'.chain == items + s.chain
    requires s'.delivered == s.delivered && s'.stream == s.stream
    requires s'.tail == Some(Last(s'.chain)) && !s'.consumer.Walking? && Hand(s'.consumer) == [] && ConsumerOk(s')
    ensures Inv(s')
  {
    FrontChain(s, items);
    assert Live(s') == Live(s);
    forall u | u in s'.producers ensures ProducerOk(s', s'.producers[u]) {
      assert ProducerOk(s, s.producers[u]);
    }
  }

  lemma EmptyNotOwed(s: State)
    requires ProducersOk(s) && s.chain == []
    ensures !HeadOwed(s.producers)
  {
    forall u | u in s.producers ensures !s.producers[u].OwesHead? {
      assert ProducerOk(s, s.producers[u]);
    }
  }

  lemma FrontCasInv(s: State)
    requires Inv(s) && Enabled(s, FrontCas)
    ensures Inv(Step(s, FrontCas))
  {
    if s.tail.Some? {
      ConsumerOnly(s, Step(s, FrontCas));
    } else {
      EmptyNotOwed(s);
      FrontJoins(s, Step(s, FrontCas), s.consumer.items);
    }
  }

  lemma FrontStoreInv(s: State)
    requires Inv(s) && Enabled(s, FrontStore)
    ensures Inv(Step(s, FrontStore))
  {
    var s' := Step(s, FrontStore);
    if s.consumer.FrontOwesHead? {
      ConsumerOnly(s, s');
    } else {
      HeadSetNotOwed(s);
      assert Last(s'.chain) == Last(s.chain);
      FrontJoins(s, s', s.consumer.items);
    }
  }

  // ---------------------------------------------------------------- snapshots

  lemma CaptureExchangeInv(s: State)
    requires Inv(s) && Enabled(s, CaptureExchange)
    ensures Inv(Step(s, CaptureExchange))
  {
    var s' := Step(s, CaptureExchange);
    assert Live(s') == Live(s);
    forall u | u in s'.producers ensures ProducerOk(s', s'.producers[u]) {
      assert ProducerOk(s, s.producers[u]);
    }
  }

  /** The walk stops exactly at the last node: before that there is a successor to go to. */
  lemma WalkPosition(s: State)
    requires Inv(s) && s.consumer.Walking?
    ensures s.consumer.cur == s.consumer.end <==> |s.snap| == 1
    ensures |s.snap| > 1 && Successor(s.next, s.consumer.cur).Some? ==>
      Successor(s.next, s.consumer.cur).value == s.snap[1]
  {
    Separate(s);
    if |s.snap| > 1 {
      assert s.snap[0] != s.snap[|s.snap| - 1];
      assert Joined(s.next, s.producers, s.snap[0], s.snap[1]);
    }
  }

  lemma WalkNextProducers(s: State)
    requires Inv(s) && Enabled(s, WalkNext)
    ensures ProducersOk(Step(s, WalkNext))
  {
    var s', cur := Step(s, WalkNext), s.consumer.cur;
    WalkPosition(s);
    Separate(s);
    DropFirst(s, s.snap);
    assert Live(s) == [cur] + Live(s');
    hide NoDup;
    hide ChainOk;
    forall u | u in s'.producers ensures ProducerOk(s', s'.producers[u]) {
      var p := s.producers[u];
      assert ProducerOk(s, p);
      if p.OwesNext? && Adjacent(s.snap, p.prev, p.first) {
        assert |s.snap| > 1;
        assert p.prev != cur;
      }
    }
  }

  lemma WalkNextInv(s: State)
    requires Inv(s) && Enabled(s, WalkNext)
    ensures Inv(Step(s, WalkNext))
  {
    var s', cur := Step(s, WalkNext), s.consumer.cur;
    WalkPosition(s);
    Separate(s);
    assert Live(s) == [cur] + Live(s');
    NoDupConcat([cur], Live(s'));
    DropFirst(s, s.snap);
    WalkNextProducers(s);
    hide ProducersOk;
    hide ChainOk;
    hide NoDup;
    if |s.snap| > 1 {
      assert Last(s'.snap) == Last(s.snap);
    }
  }

  // ---------------------------------------------------------------- all steps

  ghost predicate ByProducer(a: Action) {
    a.PushBegin? || a.PushClear? || a.PushExchange? || a.PushLink? || a.PushHead?
  }

  /** Every step, by whichever thread, keeps the invariant. */
  lemma StepInv(s: State, a: Action)
    requires Inv(s) && Enabled(s, a)
    ensures Inv(Step(s, a))
  {
    hide *;
    match a {
      case PushBegin(t, items) => PushBeginInv(s, t, items);
      case PushClear(t) => PushClearInv(s, t);
      case PushExchange(t) => PushExchangeInv(s, t);
      case PushLink(t) => PushLinkInv(s, t);
      case PushHead(t) => PushHeadInv(s, t);
      case GetHead => GetHeadInv(s);
      case PopLoad => PopLoadInv(s);
      case PopStore => PopStoreInv(s);
      case PopCas => PopCasInv(s);
      case PopSpin => PopSpinInv(s);
      case PopRestore => PopRestoreInv(s);
      case Deliver => DeliverInv(s);
      case Undo => UndoInv(s);
      case PrependBegin(list) => PrependBeginInv(s, list);
      case FrontCas => FrontCasInv(s);
      case FrontSpin => FrontSpinInv(s);
      case FrontLink => FrontLinkInv(s);
      case FrontStore => FrontStoreInv(s);
      case CaptureHead => CaptureHeadInv(s);
      case CaptureClear => CaptureClearInv(s);
      case CaptureExchange => CaptureExchangeInv(s);
      case WalkNext => WalkNextInv(s);
    }
  }
}
