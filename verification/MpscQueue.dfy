/**
  The lock-free multi-producer / single-consumer list of the `os_mpsc_*` macros, as a
  state machine with one step per access to shared memory and sequentially consistent
  interleaving.

  `head`, `tail` and `next` are the shared words.  `producers` and `consumer` are program
  counters with the locals that are live there.  The last four fields are auxiliary: no
  step reads them to decide what to do.
*/
module MpscQueue {
  import opened Common

  type Node = nat
  type Tid = nat

  /** Where a producer stands inside `os_mpsc_push_update_tail_list` and `_head`. */
  datatype Producer =
    | Linked(items: seq<Node>)             // its private list is built
    | Ready(items: seq<Node>)              // `_tail->next = NULL` done, exchange is next
    | OwesNext(prev: Node, first: Node)    // exchanged, `_prev->next = _head` is next
    | OwesHead(first: Node)                // exchanged on an empty queue, the head store is next

  /** Where the consumer stands inside one of the single-consumer macros. */
  datatype Consumer =
    | Idle
    | HasHead(h: Node)                     // get_head returned h
    | PopLoaded(h: Node, n: Option<Node>)  // pop_head read `h->next`
    | PopCleared(h: Node)                  // n was NULL and NULL is stored in head
    | PopSpinning(h: Node)                 // the compare-and-swap of tail failed
    | PopFound(h: Node, succ: Node)        // the spin saw succ, the second head store is next
    | Popped(h: Node, n: Option<Node>)     // pop_head returned n, h is in the consumer's hand
    | FrontReady(items: seq<Node>)         // undo or prepend, before its compare-and-swap
    | FrontOwesHead(first: Node)           // ... which succeeded, the head store is next
    | FrontWait(items: seq<Node>)          // ... which failed, waiting for head
    | FrontSeen(items: seq<Node>, first: Node) // read first from head, `_tail->next = n` is next
    | FrontLinked(items: seq<Node>)        // list linked in front of head, the head store is next
    | SnapSeen(h: Node)                    // capture_snapshot read head
    | SnapCleared(h: Node)                 // stored NULL in head, exchange of tail is next
    | Walking(cur: Node, end: Node)        // walking the snapshot with pop_snapshot_head

  datatype State = State(
    head: Option<Node>,
    tail: Option<Node>,
    next: map<Node, Option<Node>>,
    producers: map<Tid, Producer>,
    consumer: Consumer,
    chain: seq<Node>,      // the queue's contents, gaps included
    snap: seq<Node>,       // what is left of a captured snapshot
    delivered: seq<Node>,  // nodes the consumer is done with, in order
    stream: seq<Node>)     // every node that entered the queue, in logical order

  datatype Action =
    // producers
    | PushBegin(t: Tid, items: seq<Node>)
    | PushClear(t: Tid)
    | PushExchange(t: Tid)
    | PushLink(t: Tid)
    | PushHead(t: Tid)
    // get_head and pop_head
    | GetHead
    | PopLoad
    | PopStore
    | PopCas
    | PopSpin
    | PopRestore
    | Deliver
    // undo_pop_head and prepend
    | Undo
    | PrependBegin(list: seq<Node>)
    | FrontCas
    | FrontSpin
    | FrontLink
    | FrontStore
    // capture_snapshot and pop_snapshot_head
    | CaptureHead
    | CaptureClear
    | CaptureExchange
    | WalkNext

  const Init := State(None, None, map[], map[], Idle, [], [], [], [])

  function Successor(next: map<Node, Option<Node>>, n: Node): Option<Node> {
    if n in next then next[n] else None
  }

  /** The nodes the consumer took out of the queue and still holds. */
  function Hand(c: Consumer): seq<Node> {
    match c
    case Popped(h, _) => [h]
    case FrontReady(items) => items
    case FrontWait(items) => items
    case FrontSeen(items, _) => items
    case FrontLinked(items) => items
    case _ => []
  }

  /** Everything that entered and is not delivered, in the order it will be delivered. */
  function Live(s: State): seq<Node> {
    Hand(s.consumer) + s.snap + s.chain
  }

  /** The nodes a producer still owns privately. */
  function Private(p: Producer): seq<Node> {
    if p.Linked? || p.Ready? then p.items else []
  }

  /** `next` after the caller has chained `items` together, last link excepted. */
  function Chained(next: map<Node, Option<Node>>, items: seq<Node>): map<Node, Option<Node>>
    decreases |items|
  {
    if |items| <= 1 then next
    else Chained(next, items[1..])[items[0] := Some(items[1])]
  }

  /** `items` may start a new list: nobody else uses any of its nodes. */
  ghost predicate Fresh(s: State, items: seq<Node>) {
    && items != []
    && NoDup(items)
    && DisjointSeqs(items, Live(s))
    && forall t :: t in s.producers ==> DisjointSeqs(items, Private(s.producers[t]))
  }

  ghost predicate Enabled(s: State, a: Action) {
    match a
    case PushBegin(t, items) => t !in s.producers && Fresh(s, items)
    case PushClear(t) => t in s.producers && s.producers[t].Linked? && s.producers[t].items != []
    case PushExchange(t) => t in s.producers && s.producers[t].Ready? && s.producers[t].items != []
    case PushLink(t) => t in s.producers && s.producers[t].OwesNext?
    case PushHead(t) => t in s.producers && s.producers[t].OwesHead?
    case GetHead => s.consumer.Idle? && s.head.Some?
    case PopLoad => s.consumer.HasHead?
    case PopStore => s.consumer.PopLoaded?
    case PopCas => s.consumer.PopCleared?
    case PopSpin => s.consumer.PopSpinning? && Successor(s.next, s.consumer.h).Some?
    case PopRestore => s.consumer.PopFound?
    case Deliver => s.consumer.Popped?
    case Undo => s.consumer.Popped?
    case PrependBegin(list) => s.consumer.Idle? && Fresh(s, list)
    case FrontCas => s.consumer.FrontReady? && s.consumer.items != []
    case FrontSpin => s.consumer.FrontWait? && s.head.Some?
    case FrontLink => s.consumer.FrontSeen? && s.consumer.items != []
    case FrontStore => s.consumer.FrontOwesHead? || (s.consumer.FrontLinked? && s.consumer.items != [])
    case CaptureHead => s.consumer.Idle? && s.head.Some?
    case CaptureClear => s.consumer.SnapSeen?
    case CaptureExchange => s.consumer.SnapCleared? && s.tail.Some?
    case WalkNext => s.consumer.Walking? && s.snap != []
                     && (s.consumer.cur == s.consumer.end || Successor(s.next, s.consumer.cur).Some?)
  }

  function Step(s: State, a: Action): State
    requires Enabled(s, a)
  {
    var c := s.consumer;
    match a
    // The caller links its private list; nothing shared is touched.
    case PushBegin(t, items) =>
      s.(next := Chained(s.next, items), producers := s.producers[t := Linked(items)])
    // _tail->_o_next = NULL
    case PushClear(t) =>
      var items := s.producers[t].items;
      s.(next := s.next[Last(items) := None], producers := s.producers[t := Ready(items)])
    // _prev = xchg(tail, _tail)
    case PushExchange(t) =>
      var items := s.producers[t].items;
      var after := if s.tail.Some? then OwesNext(s.tail.value, items[0]) else OwesHead(items[0]);
      s.(tail := Some(Last(items)), producers := s.producers[t := after],
         chain := s.chain + items, stream := s.stream + items)
    // _prev->_o_next = _head
    case PushLink(t) =>
      var p := s.producers[t];
      s.(next := s.next[p.prev := Some(p.first)], producers := s.producers - {t})
    // head = o
    case PushHead(t) =>
      s.(head := Some(s.producers[t].first), producers := s.producers - {t})

    // wait until head is set, and read it
    case GetHead => s.(consumer := HasHead(s.head.value))
    // _n = _head->_o_next
    case PopLoad => s.(consumer := PopLoaded(c.h, Successor(s.next, c.h)))
    // head = _n
    case PopStore =>
      if c.n.None? then s.(head := None, consumer := PopCleared(c.h))
      else s.(head := c.n, consumer := Popped(c.h, c.n), chain := Tail(s.chain))
    // cmpxchg(tail, _head, NULL)
    case PopCas =>
      if s.tail == Some(c.h)
      then s.(tail := None, consumer := Popped(c.h, None), chain := Tail(s.chain))
      else s.(consumer := PopSpinning(c.h))
    // wait until _head->_o_next is set, and read it
    case PopSpin => s.(consumer := PopFound(c.h, Successor(s.next, c.h).value))
    // head = _n
    case PopRestore =>
      s.(head := Some(c.succ), consumer := Popped(c.h, Some(c.succ)), chain := Tail(s.chain))
    // the work item runs; its node may be used again
    case Deliver => s.(consumer := Idle, delivered := s.delivered + [c.h])

    // undo_pop_head starts: the compare-and-swap is only tried when next was NULL
    case Undo => s.(consumer := if c.n.None? then FrontReady([c.h]) else FrontLinked([c.h]))
    // prepend starts: the caller's list, then _tail->_o_next = NULL
    case PrependBegin(list) =>
      s.(next := Chained(s.next, list)[Last(list) := None], consumer := FrontReady(list),
         stream := s.delivered + list + Live(s))
    // cmpxchg(tail, NULL, _tail)
    case FrontCas =>
      if s.tail.None?
      then s.(tail := Some(Last(c.items)), consumer := FrontOwesHead(c.items[0]), chain := c.items + s.chain)
      else s.(consumer := FrontWait(c.items))
    // wait until head is set, and read it
    case FrontSpin => s.(consumer := FrontSeen(c.items, s.head.value))
    // _tail->_o_next = _n
    case FrontLink => s.(next := s.next[Last(c.items) := Some(c.first)], consumer := FrontLinked(c.items))
    // head = _head
    case FrontStore =>
      if c.FrontOwesHead? then s.(head := Some(c.first), consumer := Idle)
      else s.(head := Some(c.items[0]), consumer := Idle, chain := c.items + s.chain)

    // wait until head is set, and read it
    case CaptureHead => s.(consumer := SnapSeen(s.head.value))
    // head = NULL
    case CaptureClear => s.(head := None, consumer := SnapCleared(c.h))
    // *tail = xchg(tail, NULL)
    case CaptureExchange =>
      s.(tail := None, consumer := Walking(c.h, s.tail.value), snap := s.chain, chain := [])
    // if (_head != tail) wait until _head->_o_next is set, and read it
    case WalkNext =>
      var cur := c.cur;
      s.(consumer := if cur == c.end then Idle else Walking(Successor(s.next, cur).value, c.end),
         snap := s.snap[1..], delivered := s.delivered + [cur])
  }

  function Tail(q: seq<Node>): seq<Node> {
    if q == [] then [] else q[1..]
  }

  /** Runs: every action of `run` is enabled in turn. */
  ghost predicate Runs(s: State, run: seq<Action>)
    decreases |run|
  {
    run == [] || (Enabled(s, run[0]) && Runs(Step(s, run[0]), run[1..]))
  }

  ghost function After(s: State, run: seq<Action>): State
    requires Runs(s, run)
    decreases |run|
  {
    if run == [] then s else After(Step(s, run[0]), run[1..])
  }

  // ---------------------------------------------------------------- the invariant

  /** Producer t's next store makes b the successor of a. */
  ghost predicate Owes(ps: map<Tid, Producer>, t: Tid, a: Node, b: Node) {
    t in ps && ps[t] == OwesNext(a, b)
  }

  /** a's successor is b, or will be once the producer that owes the store runs. */
  ghost predicate Joined(next: map<Node, Option<Node>>, ps: map<Tid, Producer>, a: Node, b: Node) {
    || Successor(next, a) == Some(b)
    || (Successor(next, a) == None && exists t :: Owes(ps, t, a, b))
  }

  ghost predicate ChainOk(next: map<Node, Option<Node>>, ps: map<Tid, Producer>, q: seq<Node>) {
    && (forall i :: 0 <= i < |q| - 1 ==> Joined(next, ps, q[i], q[i + 1]))
    && (q != [] ==> Successor(next, Last(q)) == None)
  }

  ghost predicate ListOk(next: map<Node, Option<Node>>, q: seq<Node>) {
    q != [] && forall i :: 0 <= i < |q| - 1 ==> Successor(next, q[i]) == Some(q[i + 1])
  }

  ghost predicate Adjacent(q: seq<Node>, a: Node, b: Node) {
    exists i :: 0 <= i < |q| - 1 && q[i] == a && q[i + 1] == b
  }

  ghost predicate HeadOwed(ps: map<Tid, Producer>) {
    exists t :: t in ps && ps[t].OwesHead?
  }

  ghost predicate ProducerOk(s: State, p: Producer) {
    match p
    case Linked(items) => NoDup(items) && ListOk(s.next, items) && DisjointSeqs(items, Live(s))
    case Ready(items) => NoDup(items) && ListOk(s.next, items) && DisjointSeqs(items, Live(s))
                         && Successor(s.next, Last(items)) == None
    case OwesNext(prev, first) =>
      Successor(s.next, prev) == None && (Adjacent(s.chain, prev, first) || Adjacent(s.snap, prev, first))
    case OwesHead(first) => s.chain != [] && s.chain[0] == first && s.head == None
  }

  ghost predicate ProducersOk(s: State) {
    && (forall t :: t in s.producers ==> ProducerOk(s, s.producers[t]))
    && (forall t, u :: t in s.producers && u in s.producers && t != u ==>
          && DisjointSeqs(Private(s.producers[t]), Private(s.producers[u]))
          && !(s.producers[t].OwesHead? && s.producers[u].OwesHead?)
          && !(s.producers[t].OwesNext? && s.producers[u].OwesNext? && s.producers[t].prev == s.producers[u].prev))
  }

  /** The consumer has read head and nobody but it may store there. */
  ghost predicate HeadSeen(s: State, h: Node) {
    s.head == Some(h) && s.chain != [] && s.chain[0] == h
  }

  /** The consumer has stored NULL in head (or found it NULL) and will store there again. */
  ghost predicate HeadHeld(s: State, h: Node) {
    s.head == None && s.chain != [] && s.chain[0] == h && !HeadOwed(s.producers)
  }

  /** What head holds while the consumer is not in the middle of storing there. */
  ghost predicate HeadFree(s: State) {
    if s.chain == [] then s.head == None
    else if s.head == None then HeadOwed(s.producers)
    else s.head == Some(s.chain[0])
  }

  ghost predicate ConsumerOk(s: State) {
    match s.consumer
    case Idle => HeadFree(s)
    case HasHead(h) => HeadSeen(s, h)
    case PopLoaded(h, n) => HeadSeen(s, h) && (n.Some? ==> Successor(s.next, h) == n && |s.chain| >= 2)
    case PopCleared(h) => HeadHeld(s, h)
    case PopSpinning(h) => HeadHeld(s, h) && |s.chain| >= 2
    case PopFound(h, n) => HeadHeld(s, h) && |s.chain| >= 2 && Successor(s.next, h) == Some(n)
    case Popped(h, n) => HeadFree(s) && Successor(s.next, h) == n && (n.Some? ==> HeadSeen(s, n.value))
    case FrontReady(items) => HeadFree(s) && ListOk(s.next, items) && Successor(s.next, Last(items)) == None
    case FrontOwesHead(first) => HeadHeld(s, first)
    case FrontWait(items) =>
      HeadFree(s) && s.chain != [] && ListOk(s.next, items) && Successor(s.next, Last(items)) == None
    case FrontSeen(items, n) => HeadSeen(s, n) && ListOk(s.next, items) && Successor(s.next, Last(items)) == None
    case FrontLinked(items) =>
      && s.chain != [] && HeadSeen(s, s.chain[0])
      && ListOk(s.next, items) && Successor(s.next, Last(items)) == Some(s.chain[0])
    case SnapSeen(h) => HeadSeen(s, h)
    case SnapCleared(h) => HeadHeld(s, h)
    case Walking(cur, end) => HeadFree(s) && s.snap != [] && s.snap[0] == cur && Last(s.snap) == end
  }

  ghost predicate Inv(s: State) {
    && NoDup(Live(s))
    && s.stream == s.delivered + Live(s)
    && s.tail == (if s.chain == [] then None else Some(Last(s.chain)))
    && (s.consumer.Walking? || s.snap == [])
    && ChainOk(s.next, s.producers, s.chain)
    && ChainOk(s.next, s.producers, s.snap)
    && ProducersOk(s)
    && ConsumerOk(s)
  }
}
