/** What holds of every interleaving of any number of producers and the consumer. */
module MpscTheorems {
  import opened Common
  import opened MpscQueue
  import opened MpscInvariant

  /** The lists that were exchanged into the tail during a run, in exchange order. */
  ghost function Exchanged(s: State, run: seq<Action>): seq<seq<Node>>
    requires Runs(s, run)
    decreases |run|
  {
    if run == [] then []
    else
      var rest := Exchanged(Step(s, run[0]), run[1..]);
      if run[0].PushExchange? then [s.producers[run[0].t].items] + rest else rest
  }

  function Flatten(lists: seq<seq<Node>>): seq<Node> {
    if lists == [] then [] else lists[0] + Flatten(lists[1..])
  }

  lemma InitInv()
    ensures Inv(Init)
  {
  }

  lemma {:induction false} RunInv(s: State, run: seq<Action>)
    requires Inv(s) && Runs(s, run)
    ensures Inv(After(s, run))
    decreases |run|
  {
    if run != [] {
      StepInv(s, run[0]);
      RunInv(Step(s, run[0]), run[1..]);
    }
  }

  ghost predicate Reachable(s: State) {
    exists run :: Runs(Init, run) && After(Init, run) == s
  }

  lemma ReachableInv(s: State)
    requires Reachable(s)
    ensures Inv(s)
  {
    var run :| Runs(Init, run) && After(Init, run) == s;
    InitInv();
    RunInv(Init, run);
  }

  /** One step extends the logical order at its end, or inserts at the consumer's position. */
  lemma StreamStep(s: State, a: Action)
    requires Inv(s) && Enabled(s, a)
    ensures var s' := Step(s, a);
      match a
      case PushExchange(t) => s'.stream == s.stream + s.producers[t].items && s'.delivered == s.delivered
      case PrependBegin(list) =>
        && s'.stream == s.stream[..|s.delivered|] + list + s.stream[|s.delivered|..]
        && s'.delivered == s.delivered
      case _ => s'.stream == s.stream
    ensures a.Deliver? || a.WalkNext? ==>
      && |s.delivered| < |s.stream|
      && Step(s, a).delivered == s.delivered + [s.stream[|s.delivered|]]
    ensures !a.Deliver? && !a.WalkNext? ==> Step(s, a).delivered == s.delivered
  {
    assert s.stream == s.delivered + Live(s);
    assert a.Deliver? ==> Live(s)[0] == s.consumer.h;
    assert a.WalkNext? ==> Live(s)[0] == s.consumer.cur;
  }

  ghost predicate NoPrepend(run: seq<Action>) {
    forall a :: a in run ==> !a.PrependBegin?
  }

  lemma {:induction false} StreamIsExchangeOrder(s: State, run: seq<Action>)
    requires Inv(s) && Runs(s, run) && NoPrepend(run)
    ensures After(s, run).stream == s.stream + Flatten(Exchanged(s, run))
    decreases |run|
  {
    if run != [] {
      var s' := Step(s, run[0]);
      StepInv(s, run[0]);
      StreamStep(s, run[0]);
      StreamIsExchangeOrder(s', run[1..]);
    }
  }

  /**
    FIFO: what the consumer is done with is a prefix of the pushed lists, each whole, in the
    order of their exchanges; the rest is still held, snapshot or queued, in that order.
  */
  lemma Fifo(run: seq<Action>)
    requires Runs(Init, run) && NoPrepend(run)
    ensures var s := After(Init, run);
      && s.delivered <= Flatten(Exchanged(Init, run))
      && Flatten(Exchanged(Init, run)) == s.delivered + Live(s)
  {
    InitInv();
    RunInv(Init, run);
    StreamIsExchangeOrder(Init, run);
    var s := After(Init, run);
    assert s.stream == s.delivered + Live(s);
    assert Flatten(Exchanged(Init, run)) == s.delivered + Live(s);
  }

  /** A pending `prev->next` store has a target the consumer still has in front of it. */
  lemma PendingLinkTarget(s: State, t: Tid)
    requires Reachable(s) && t in s.producers && s.producers[t].OwesNext?
    ensures var prev := s.producers[t].prev;
      && (prev in s.chain || prev in s.snap) && prev !in Hand(s.consumer)
      && Successor(s.next, prev) == None
      && (forall u :: u in s.producers ==> prev !in Private(s.producers[u]))
      && (forall u :: u in s.producers && u != t && s.producers[u].OwesNext? ==> s.producers[u].prev != prev)
  {
    ReachableInv(s);
    assert ProducerOk(s, s.producers[t]);
    PendingInLive(s, t);
    Separate(s);
    forall u | u in s.producers ensures s.producers[t].prev !in Private(s.producers[u]) {
      assert ProducerOk(s, s.producers[u]);
    }
  }

  /** At most one producer at a time owes the store to head, and it owes the first node. */
  lemma OneHeadStoreOwed(s: State, t: Tid, u: Tid)
    requires Reachable(s) && t in s.producers && u in s.producers
    requires s.producers[t].OwesHead? && s.producers[u].OwesHead?
    ensures t == u
    ensures s.head == None && s.chain != [] && s.producers[t].first == s.chain[0]
  {
    ReachableInv(s);
    assert ProducerOk(s, s.producers[t]);
  }

  /** The value of head the consumer's own next store replaces, as far as the consumer knows it. */
  ghost function KnownHead(s: State): Option<Node> {
    match s.consumer
    case PopLoaded(h, _) => Some(h)
    case SnapSeen(h) => Some(h)
    case FrontLinked(items) => if items == [] then None else Successor(s.next, Last(items))
    case _ => None
  }

  /**
    The consumer's stores to head never lose a producer's: no producer owes or has made a
    head store the consumer has not read.
  */
  lemma ConsumerHeadStoreSafe(s: State, a: Action)
    requires Reachable(s) && Enabled(s, a)
    requires a.PopStore? || a.PopRestore? || a.FrontStore? || a.CaptureClear?
    ensures !HeadOwed(s.producers) && s.head == KnownHead(s)
  {
    ReachableInv(s);
    if s.head.Some? {
      HeadSetNotOwed(s);
    }
  }

  // ---------------------------------------------------------------- undo, prepend, snapshot

  /** Nothing is delivered and no second prepend starts. */
  ghost predicate Quiet(run: seq<Action>) {
    forall a :: a in run ==> !a.Deliver? && !a.WalkNext? && !a.PrependBegin?
  }

  lemma {:induction false} QuietDelivers(s: State, run: seq<Action>)
    requires Inv(s) && Runs(s, run) && Quiet(run)
    ensures Inv(After(s, run)) && After(s, run).delivered == s.delivered
    decreases |run|
  {
    if run != [] {
      StepInv(s, run[0]);
      StreamStep(s, run[0]);
      QuietDelivers(Step(s, run[0]), run[1..]);
    }
  }

  /** Whatever else happens in a quiet run, what is live only grows, at its end, by what is pushed. */
  lemma QuietGrowth(s: State, run: seq<Action>)
    requires Inv(s) && Runs(s, run) && Quiet(run)
    ensures Inv(After(s, run)) && Live(After(s, run)) == Live(s) + Flatten(Exchanged(s, run))
  {
    QuietDelivers(s, run);
    StreamIsExchangeOrder(s, run);
    StreamSplits(s, After(s, run), Flatten(Exchanged(s, run)));
  }

  lemma IdleLive(s: State)
    requires Inv(s) && s.consumer.Idle?
    ensures Live(s) == s.chain
  {
  }

  lemma PoppedLive(s: State)
    requires Inv(s) && s.consumer.Popped?
    ensures Live(s) == [s.consumer.h] + s.chain
  {
  }

  /** undo_pop_head puts the popped node back in front, whatever is pushed meanwhile. */
  lemma UndoRestores(s: State, run: seq<Action>)
    requires Reachable(s) && s.consumer.Popped? && Runs(s, run) && Quiet(run)
    requires After(s, run).consumer.Idle?
    ensures After(s, run).chain == [s.consumer.h] + s.chain + Flatten(Exchanged(s, run))
  {
    ReachableInv(s);
    QuietGrowth(s, run);
    PoppedLive(s);
    IdleLive(After(s, run));
  }

  /** prepend puts its list in front, whole, whatever is pushed meanwhile. */
  lemma PrependInFront(s: State, list: seq<Node>, run: seq<Action>)
    requires Reachable(s) && Enabled(s, PrependBegin(list))
    requires Runs(Step(s, PrependBegin(list)), run) && Quiet(run)
    requires After(Step(s, PrependBegin(list)), run).consumer.Idle?
    ensures var s1 := Step(s, PrependBegin(list));
      After(s1, run).chain == list + s.chain + Flatten(Exchanged(s1, run))
  {
    ReachableInv(s);
    PrependLive(s, list);
    StepInv(s, PrependBegin(list));
    QuietGrowth(Step(s, PrependBegin(list)), run);
    IdleLive(After(Step(s, PrependBegin(list)), run));
  }

  lemma PrependLive(s: State, list: seq<Node>)
    requires Enabled(s, PrependBegin(list)) && s.snap == []
    ensures Live(Step(s, PrependBegin(list))) == list + s.chain
  {
  }

  /** With nothing delivered in between, what is live grows by what was pushed. */
  lemma StreamSplits(s: State, s': State, pushed: seq<Node>)
    requires s.stream == s.delivered + Live(s) && s'.stream == s'.delivered + Live(s')
    requires s'.delivered == s.delivered && s'.stream == s.stream + pushed
    ensures Live(s') == Live(s) + pushed
  {
    assert Live(s') == s'.stream[|s.delivered|..];
    assert Live(s) + pushed == s'.stream[|s.delivered|..];
  }

  /** capture_snapshot takes everything up to the tail it exchanged out, and empties the queue. */
  lemma CaptureTakesAll(s: State)
    requires Reachable(s) && Enabled(s, CaptureExchange)
    ensures var s' := Step(s, CaptureExchange);
      && s.chain != [] && s'.consumer == Walking(s.chain[0], Last(s.chain))
      && s'.snap == s.chain && s'.chain == [] && s'.tail == None
  {
    ReachableInv(s);
  }

  /** Consumer actions are those of the snapshot walk. */
  ghost predicate OnlyWalks(run: seq<Action>) {
    forall a :: a in run ==> a.WalkNext? || ByProducer(a)
  }

  /** Walking a snapshot with pop_snapshot_head yields all of it, in order, whatever is pushed. */
  lemma WalkYieldsSnapshot(s: State, run: seq<Action>)
    requires Reachable(s) && Runs(s, run) && OnlyWalks(run) && After(s, run).consumer.Idle?
    ensures After(s, run).delivered == s.delivered + s.snap
  {
    ReachableInv(s);
    RunInv(s, run);
    WalkInOrder(s, run);
  }

  lemma {:induction false} WalkInOrder(s: State, run: seq<Action>)
    requires Inv(s) && Runs(s, run) && OnlyWalks(run)
    ensures After(s, run).delivered + After(s, run).snap == s.delivered + s.snap
    decreases |run|
  {
    if run != [] {
      StepInv(s, run[0]);
      WalkStep(s, run[0]);
      hide Inv;
      hide Step;
      hide Enabled;
      WalkInOrder(Step(s, run[0]), run[1..]);
    }
  }

  lemma WalkStep(s: State, a: Action)
    requires Inv(s) && Enabled(s, a) && (a.WalkNext? || ByProducer(a))
    ensures Step(s, a).delivered + Step(s, a).snap == s.delivered + s.snap
  {
    if a.WalkNext? {
      assert s.snap == [s.consumer.cur] + s.snap[1..];
    }
    hide Inv;
  }

  // ---------------------------------------------------------------- progress

  /** The next access of a producer that is inside the push macros. */
  function ProducerNext(t: Tid, p: Producer): Action {
    match p
    case Linked(_) => PushClear(t)
    case Ready(_) => PushExchange(t)
    case OwesNext(_, _) => PushLink(t)
    case OwesHead(_) => PushHead(t)
  }

  /** The next access of the consumer; an idle one wants the head. */
  function ConsumerNext(c: Consumer): Action {
    match c
    case Idle => GetHead
    case HasHead(_) => PopLoad
    case PopLoaded(_, _) => PopStore
    case PopCleared(_) => PopCas
    case PopSpinning(_) => PopSpin
    case PopFound(_, _) => PopRestore
    case Popped(_, _) => Deliver
    case FrontReady(_) => FrontCas
    case FrontOwesHead(_) => FrontStore
    case FrontWait(_) => FrontSpin
    case FrontSeen(_, _) => FrontLink
    case FrontLinked(_) => FrontStore
    case SnapSeen(_) => CaptureClear
    case SnapCleared(_) => CaptureExchange
    case Walking(_, _) => WalkNext
  }

  /** Producers never wait: the next access of each is always possible. */
  lemma ProducersNeverWait(s: State, t: Tid)
    requires Reachable(s) && t in s.producers
    ensures Enabled(s, ProducerNext(t, s.producers[t]))
  {
    ReachableInv(s);
    assert ProducerOk(s, s.producers[t]);
  }

  /** Running t's pending store is what the consumer waits for. */
  ghost predicate Unblocks(s: State, t: Tid) {
    && t in s.producers && (s.producers[t].OwesNext? || s.producers[t].OwesHead?)
    && Enabled(s, ProducerNext(t, s.producers[t]))
    && Enabled(Step(s, ProducerNext(t, s.producers[t])), ConsumerNext(s.consumer))
  }

  /**
    No spin is stuck: unless the queue is empty and the consumer idle, the consumer's next
    access is possible, or becomes so by one store that some producer already owes.
  */
  lemma ConsumerProgress(s: State)
    requires Reachable(s) && (!s.consumer.Idle? || s.chain != [])
    ensures Enabled(s, ConsumerNext(s.consumer)) || exists t :: Unblocks(s, t)
  {
    ReachableInv(s);
    if !Enabled(s, ConsumerNext(s.consumer)) {
      if s.consumer.PopSpinning? {
        LinkUnblocks(s, s.chain, s.consumer.h);
      } else if s.consumer.Walking? {
        WalkPosition(s);
        LinkUnblocks(s, s.snap, s.consumer.cur);
      } else {
        OnlySpinsWait(s);
        HeadUnblocks(s);
      }
    }
  }

  lemma OnlySpinsWait(s: State)
    requires Inv(s) && !s.consumer.PopSpinning? && !s.consumer.Walking?
    requires !Enabled(s, ConsumerNext(s.consumer))
    ensures (s.consumer.Idle? || s.consumer.FrontWait?) && s.head == None
  {
  }

  lemma HeadUnblocks(s: State)
    requires Inv(s) && (s.consumer.Idle? || s.consumer.FrontWait?) && s.chain != [] && s.head == None
    ensures exists t :: Unblocks(s, t)
  {
    var t :| t in s.producers && s.producers[t].OwesHead?;
    assert Unblocks(s, t);
  }

  lemma LinkUnblocks(s: State, q: seq<Node>, a: Node)
    requires Inv(s) && ChainOk(s.next, s.producers, q) && |q| >= 2 && q[0] == a
    requires s.consumer == PopSpinning(a) || (s.consumer.Walking? && s.consumer.cur == a && s.snap == q)
    requires Successor(s.next, a) == None
    ensures exists t :: Unblocks(s, t)
  {
    assert Joined(s.next, s.producers, q[0], q[1]);
    var t :| Owes(s.producers, t, q[0], q[1]);
    assert Unblocks(s, t);
  }
}
