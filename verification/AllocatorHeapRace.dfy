/**
  Extending the chain of heaps while other threads walk and extend it: every thread that finds
  a NULL link maps a region of its own, one compare-and-swap decides, the losers unmap theirs.
  A state machine with one step per access to shared memory.
*/
module AllocatorHeapRace {
  import opened Common

  type Tid = nat
  type Region = nat

  /** Where a link is: _dispatch_main_heap, or the dh_next of the heap at a region. */
  datatype Link = MainHeap | Next(region: Region)

  datatype Thread =
    | Idle
    | AtLink(link: Link)                  // before the test of *heap
    | Mapping(link: Link)                 // it was NULL: before mmap
    | Holding(link: Link, mine: Region)   // before the compare-and-swap
    | Lost(link: Link, mine: Region)      // which failed: before munmap
    | AtHeap(link: Link)                  // before *heap is loaded
    | InHeap(link: Link, heap: Region)    // allocating from that heap
    | Faulted                             // used NULL, or memory that is not mapped

  datatype State = State(
    links: map<Link, Region>,             // the links that are not NULL
    mapped: set<Region>,
    threads: map<Tid, Thread>)

  datatype Action =
    | Start(t: Tid)
    | TestLink(t: Tid)
    | Map(t: Tid, region: Region)
    | LinkCas(t: Tid)
    | Unmap(t: Tid)
    | LoadHeap(t: Tid)
    | Found(t: Tid)
    | NextHeap(t: Tid)

  function Thr(s: State, t: Tid): Thread {
    if t in s.threads then s.threads[t] else Idle
  }

  /** The memory that holds a link. */
  predicate Readable(s: State, link: Link) {
    link.Next? ==> link.region in s.mapped
  }

  predicate Enabled(s: State, a: Action) {
    match a
    case Start(t) => Thr(s, t).Idle?
    case TestLink(t) => Thr(s, t).AtLink?
    case Map(t, region) => Thr(s, t).Mapping? && region !in s.mapped
    case LinkCas(t) => Thr(s, t).Holding?
    case Unmap(t) => Thr(s, t).Lost?
    case LoadHeap(t) => Thr(s, t).AtHeap?
    case Found(t) => Thr(s, t).InHeap?
    case NextHeap(t) => Thr(s, t).InHeap?
  }

  function Place(s: State, t: Tid, th: Thread): State {
    s.(threads := s.threads[t := th])
  }

  function Step(s: State, a: Action): State
    requires Enabled(s, a)
  {
    var th := Thr(s, a.t);
    match a
    case Start(t) => Place(s, t, AtLink(MainHeap))
    case TestLink(t) =>
      Place(s, t, if !Readable(s, th.link) then Faulted
                  else if th.link in s.links then AtHeap(th.link)
                  else Mapping(th.link))
    // mmap gives zeroed memory that was not mapped: its dh_next is NULL
    case Map(t, region) => Place(s.(mapped := s.mapped + {region}), t, Holding(th.link, region))
    case LinkCas(t) =>
      if !Readable(s, th.link) then Place(s, t, Faulted)
      else if th.link in s.links then Place(s, t, Lost(th.link, th.mine))
      else Place(s.(links := s.links[th.link := th.mine]), t, AtHeap(th.link))
    case Unmap(t) => Place(s.(mapped := s.mapped - {th.mine}), t, AtHeap(th.link))
    case LoadHeap(t) =>
      Place(s, t, if Readable(s, th.link) && th.link in s.links then InHeap(th.link, s.links[th.link]) else Faulted)
    case Found(t) => Place(s, t, if th.heap in s.mapped then Idle else Faulted)
    case NextHeap(t) => Place(s, t, if th.heap in s.mapped then AtLink(Next(th.heap)) else Faulted)
  }

  // ---------------------------------------------------------------- the invariant

  predicate Linked(s: State, r: Region) {
    r in s.links.Values
  }

  /** The region is t's own, not yet linked or not yet unmapped. */
  predicate Has(s: State, t: Tid, r: Region) {
    (Thr(s, t).Holding? || Thr(s, t).Lost?) && Thr(s, t).mine == r
  }

  predicate LinkOk(s: State, link: Link) {
    link.Next? ==> Linked(s, link.region)
  }

  predicate ThreadOk(s: State, t: Tid) {
    match Thr(s, t)
    case Idle => true
    case AtLink(link) => LinkOk(s, link)
    case Mapping(link) => LinkOk(s, link)
    case Holding(link, mine) => LinkOk(s, link) && mine in s.mapped && !Linked(s, mine)
    case Lost(link, mine) => LinkOk(s, link) && link in s.links && mine in s.mapped && !Linked(s, mine)
    case AtHeap(link) => LinkOk(s, link) && link in s.links
    case InHeap(link, heap) => LinkOk(s, link) && link in s.links && s.links[link] == heap
    case Faulted => false
  }

  ghost predicate Inv(s: State) {
    && (forall t :: ThreadOk(s, t))
    && (forall t, u, r :: Has(s, t, r) && Has(s, u, r) ==> t == u)
    && (forall link :: link in s.links ==> LinkOk(s, link) && s.links[link] in s.mapped)
    && (forall k, l :: k in s.links && l in s.links && s.links[k] == s.links[l] ==> k == l)
    && (forall r :: r in s.mapped ==> Linked(s, r) || exists t :: Has(s, t, r))
  }

  /** A step that maps, links and unmaps nothing. */
  lemma MoveInv(s: State, t: Tid, th: Thread)
    requires Inv(s) && !Has(s, t, Mine(Thr(s, t))) && !th.Holding? && !th.Lost?
    requires ThreadOk(Place(s, t, th), t)
    ensures Inv(Place(s, t, th))
  {
    var s' := Place(s, t, th);
    assert forall u, r :: Has(s', u, r) <==> Has(s, u, r);
    forall u ensures ThreadOk(s', u) {
      assert ThreadOk(s, u);
    }
    forall r | r in s'.mapped && !Linked(s', r) ensures exists u :: Has(s', u, r) {
      var u :| Has(s, u, r);
      assert Has(s', u, r);
    }
  }

  function Mine(th: Thread): Region {
    if th.Holding? || th.Lost? then th.mine else 0
  }

  lemma MapInv(s: State, a: Action)
    requires Inv(s) && Enabled(s, a) && a.Map?
    ensures Inv(Step(s, a))
  {
    var s', t := Step(s, a), a.t;
    assert ThreadOk(s, t);
    forall u ensures ThreadOk(s', u) {
      assert ThreadOk(s, u);
    }
    forall u, r | Has(s', u, r) ensures if u == t then r == a.region else Has(s, u, r) && r in s.mapped {
      assert ThreadOk(s, u);
    }
    forall r | r in s'.mapped && !Linked(s', r) ensures exists u :: Has(s', u, r) {
      if r == a.region {
        assert Has(s', t, r);
      } else {
        var u :| Has(s, u, r);
        assert Has(s', u, r);
      }
    }
  }

  lemma LinkCasInv(s: State, a: Action)
    requires Inv(s) && Enabled(s, a) && a.LinkCas?
    ensures Inv(Step(s, a))
  {
    var th := Thr(s, a.t);
    assert ThreadOk(s, a.t) && Has(s, a.t, th.mine);
    if th.link.Next? {
      LinkedIsMapped(s, th.link.region);
    }
    hide Inv;
    if th.link in s.links {
      LoseInv(s, Step(s, a), a.t);
    } else {
      WinInv(s, Step(s, a), a.t);
    }
  }

  /** Somebody else's heap is on the link. */
  lemma LoseInv(s: State, s': State, t: Tid)
    requires Inv(s) && Thr(s, t).Holding? && Thr(s, t).link in s.links
    requires s' == Place(s, t, Lost(Thr(s, t).link, Thr(s, t).mine))
    ensures Inv(s')
  {
    assert ThreadOk(s, t);
    assert forall u, r :: Has(s', u, r) <==> Has(s, u, r);
    forall u ensures ThreadOk(s', u) {
      assert ThreadOk(s, u);
    }
    forall r | r in s'.mapped && !Linked(s', r) ensures exists u :: Has(s', u, r) {
      var u :| Has(s, u, r);
      assert Has(s', u, r);
    }
  }

  /** The thread's own heap goes on the link. */
  lemma WinInv(s: State, s': State, t: Tid)
    requires Inv(s) && Thr(s, t).Holding? && Thr(s, t).link !in s.links
    requires s' == Place(s.(links := s.links[Thr(s, t).link := Thr(s, t).mine]), t, AtHeap(Thr(s, t).link))
    ensures Inv(s')
  {
    var th := Thr(s, t);
    assert ThreadOk(s, t) && Has(s, t, th.mine);
    assert s'.links[th.link] == th.mine;
    assert forall r :: Linked(s', r) <==> Linked(s, r) || r == th.mine by {
      LinkedAfter(s, th.link, th.mine);
    }
    forall u ensures ThreadOk(s', u) {
      assert ThreadOk(s, u);
      assert u != t && Has(s, u, Mine(Thr(s, u))) ==> Mine(Thr(s, u)) != th.mine;
    }
    assert forall u, r :: Has(s', u, r) <==> u != t && Has(s, u, r);
    forall r | r in s'.mapped && !Linked(s', r) ensures exists u :: Has(s', u, r) {
      var u :| Has(s, u, r);
      assert Has(s', u, r);
    }
  }

  lemma LinkedAfter(s: State, link: Link, r: Region)
    requires link !in s.links
    ensures s.links[link := r].Values == s.links.Values + {r}
  {
    var m := s.links[link := r];
    assert m[link] == r;
    forall v | v in s.links.Values ensures v in m.Values {
      var k :| k in s.links && s.links[k] == v;
      assert m[k] == v;
    }
  }

  lemma UnmapInv(s: State, a: Action)
    requires Inv(s) && Enabled(s, a) && a.Unmap?
    ensures Inv(Step(s, a))
  {
    var s', t, th := Step(s, a), a.t, Thr(s, a.t);
    assert ThreadOk(s, t) && Has(s, t, th.mine);
    assert forall u, r :: Has(s', u, r) <==> u != t && Has(s, u, r);
    forall u ensures ThreadOk(s', u) {
      assert ThreadOk(s, u);
      assert u != t && Has(s, u, Mine(Thr(s, u))) ==> Mine(Thr(s, u)) != th.mine;
    }
    forall link | link in s'.links ensures s'.links[link] in s'.mapped {
      assert s.links[link] in s.links.Values;
    }
    forall r | r in s'.mapped && !Linked(s', r) ensures exists u :: Has(s', u, r) {
      var u :| Has(s, u, r);
      assert Has(s', u, r);
    }
  }

  lemma LinkedIsMapped(s: State, r: Region)
    requires Inv(s) && Linked(s, r)
    ensures r in s.mapped
  {
    var k :| k in s.links && s.links[k] == r;
  }

  lemma WalkInv(s: State, a: Action)
    requires Inv(s) && Enabled(s, a) && !a.Map? && !a.LinkCas? && !a.Unmap?
    ensures Inv(Step(s, a))
  {
    var th := Thr(s, a.t);
    assert ThreadOk(s, a.t);
    if !th.Idle? && th.link.Next? {
      LinkedIsMapped(s, th.link.region);
    }
    if th.InHeap? {
      assert th.heap in s.links.Values;
      LinkedIsMapped(s, th.heap);
    }
    hide Inv;
    MoveInv(s, a.t, Thr(Step(s, a), a.t));
  }

  lemma StepInv(s: State, a: Action)
    requires Inv(s) && Enabled(s, a)
    ensures Inv(Step(s, a))
  {
    match a {
      case Map(_, _) => MapInv(s, a);
      case LinkCas(_) => LinkCasInv(s, a);
      case Unmap(_) => UnmapInv(s, a);
      case _ => WalkInv(s, a);
    }
  }

  // ---------------------------------------------------------------- all interleavings

  ghost predicate Runs(s: State, run: seq<Action>)
    decreases |run|
  {
    run == [] || (Enabled(s, run[0]) && Runs(Step(s, run[0]), run[1..]))
  }

  ghost function After(s: State, run: seq<Action>): State
    requires Runs(s, run)
    decreases |run|
  {
    if run == [] then s else After(Step(s, run[0]), run[1..])
  }

  /** No heap yet, nobody allocating. */
  const Fresh := State(map[], {}, map[])

  lemma {:induction false} RunInv(s: State, run: seq<Action>)
    requires Inv(s) && Runs(s, run)
    ensures Inv(After(s, run))
    decreases |run|
  {
    hide Inv;
    hide Step;
    hide Enabled;
    if run != [] {
      StepInv(s, run[0]);
      RunInv(Step(s, run[0]), run[1..]);
    }
  }

  lemma LinkKept(s: State, a: Action, link: Link)
    requires Enabled(s, a) && link in s.links
    ensures link in Step(s, a).links && Step(s, a).links[link] == s.links[link]
  {
  }

  /** A link is set once: from then on it never changes, so all threads walk the same chain. */
  lemma {:induction false} LinkSetOnce(s: State, run: seq<Action>, link: Link)
    requires Runs(s, run) && link in s.links
    ensures link in After(s, run).links && After(s, run).links[link] == s.links[link]
    decreases |run|
  {
    hide Step;
    hide Enabled;
    if run != [] {
      LinkKept(s, run[0], link);
      LinkSetOnce(Step(s, run[0]), run[1..], link);
    }
  }

  /** No allocation, and no walk along the chain, uses NULL or memory that is not mapped. */
  lemma NeverFaults(run: seq<Action>, t: Tid)
    requires Runs(Fresh, run)
    ensures !Thr(After(Fresh, run), t).Faulted?
  {
    RunInv(Fresh, run);
    assert ThreadOk(After(Fresh, run), t);
  }

  /** What a loser unmaps is its own: no link leads to it, and no other thread maps, walks or uses it. */
  lemma UnmapsOwn(run: seq<Action>, t: Tid, u: Tid)
    requires Runs(Fresh, run) && Enabled(After(Fresh, run), Unmap(t)) && u != t
    ensures var (s, mine) := (After(Fresh, run), Thr(After(Fresh, run), t).mine);
      var th := Thr(s, u);
      && mine in s.mapped && !Linked(s, mine) && !Has(s, u, mine)
      && (!th.Idle? && !th.Faulted? ==> th.link != Next(mine)) && (th.InHeap? ==> th.heap != mine)
  {
    RunInv(Fresh, run);
    var s := After(Fresh, run);
    assert ThreadOk(s, t) && ThreadOk(s, u) && Has(s, t, Thr(s, t).mine);
    if Thr(s, u).InHeap? {
      assert s.links[Thr(s, u).link] in s.links.Values;
    }
  }

  /** Nothing leaks: with nobody allocating, what is mapped is the heaps of the chain, each on one link. */
  lemma OnlyHeapsStayMapped(run: seq<Action>)
    requires Runs(Fresh, run) && forall t :: Thr(After(Fresh, run), t).Idle?
    ensures After(Fresh, run).mapped == After(Fresh, run).links.Values
    ensures var links := After(Fresh, run).links;
      forall k, l :: k in links && l in links && links[k] == links[l] ==> k == l
  {
    RunInv(Fresh, run);
    var s := After(Fresh, run);
    assert forall t, r :: !Has(s, t, r) by {
      hide Inv;
    }
    forall r ensures r in s.mapped <==> r in s.links.Values {
      if Linked(s, r) {
        LinkedIsMapped(s, r);
      }
    }
  }

  // ---------------------------------------------------------------- every region mapped is linked or unmapped, once

  function MapsNow(a: Action, t: Tid): seq<Region> {
    if a.Map? && a.t == t then [a.region] else []
  }

  /** The region a step of t links, or unmaps. */
  function SettlesNow(s: State, a: Action, t: Tid): seq<Region>
    requires Enabled(s, a)
  {
    if a.t == t && (a.Unmap? || (a.LinkCas? && Thr(s, t).link !in s.links)) then [Thr(s, t).mine] else []
  }

  ghost function MapsIn(s: State, run: seq<Action>, t: Tid): seq<Region>
    requires Runs(s, run)
    decreases |run|
  {
    if run == [] then [] else MapsNow(run[0], t) + MapsIn(Step(s, run[0]), run[1..], t)
  }

  ghost function SettlesIn(s: State, run: seq<Action>, t: Tid): seq<Region>
    requires Runs(s, run)
    decreases |run|
  {
    if run == [] then [] else SettlesNow(s, run[0], t) + SettlesIn(Step(s, run[0]), run[1..], t)
  }

  /** The region t has in hand. */
  function InHand(th: Thread): seq<Region> {
    if th.Holding? || th.Lost? then [th.mine] else []
  }

  lemma SettleStep(s: State, a: Action, t: Tid)
    requires Inv(s) && Enabled(s, a)
    ensures InHand(Thr(s, t)) + MapsNow(a, t) == SettlesNow(s, a, t) + InHand(Thr(Step(s, a), t))
  {
    var th := Thr(s, t);
    assert ThreadOk(s, t);
    if (th.Holding? || th.Lost?) && th.link.Next? {
      LinkedIsMapped(s, th.link.region);
    }
  }

  /** In order: what t maps it links or unmaps, each region once, but for one it may still have in hand. */
  lemma {:induction false} EveryRegionSettled(s: State, run: seq<Action>, t: Tid)
    requires Inv(s) && Runs(s, run)
    ensures InHand(Thr(s, t)) + MapsIn(s, run, t) == SettlesIn(s, run, t) + InHand(Thr(After(s, run), t))
    decreases |run|
  {
    hide Inv;
    hide Step;
    hide Enabled;
    hide InHand;
    hide MapsNow;
    hide SettlesNow;
    if run != [] {
      var (a, rest) := (run[0], run[1..]);
      var s' := Step(s, a);
      StepInv(s, a);
      SettleStep(s, a, t);
      EveryRegionSettled(s', rest, t);
      calc {
        InHand(Thr(s, t)) + MapsIn(s, run, t);
        (InHand(Thr(s, t)) + MapsNow(a, t)) + MapsIn(s', rest, t);
        SettlesNow(s, a, t) + (InHand(Thr(s', t)) + MapsIn(s', rest, t));
        SettlesIn(s, run, t) + InHand(Thr(After(s, run), t));
      }
    }
  }

  // ---------------------------------------------------------------- the chain, and the walk along it

  /** The k-th link: _dispatch_main_heap, then the one in the heap the link before leads to. */
  function LinkAt(links: map<Link, Region>, k: nat): Option<Link> {
    if k == 0 then Some(MainHeap)
    else
      var before := LinkAt(links, k - 1);
      if before.Some? && before.value in links then Some(Next(links[before.value])) else None
  }

  /** The heap on the k-th link. */
  function HeapAt(links: map<Link, Region>, k: nat): Option<Region> {
    var link := LinkAt(links, k);
    if link.Some? && link.value in links then Some(links[link.value]) else None
  }

  predicate Active(th: Thread) {
    !th.Idle? && !th.Faulted?
  }

  /** t is at the k-th link, or allocates from the heap on it. */
  predicate At(s: State, t: Tid, k: nat) {
    var th := Thr(s, t);
    Active(th) ==> LinkAt(s.links, k) == Some(th.link) && (th.InHeap? ==> HeapAt(s.links, k) == Some(th.heap))
  }

  /** The heaps t has left behind: its NextHeap steps since it started. */
  function Passed(k: nat, a: Action, t: Tid): nat {
    if a.t != t then k else if a.Start? then 0 else if a.NextHeap? then k + 1 else k
  }

  function PassedIn(k: nat, run: seq<Action>, t: Tid): nat
    decreases |run|
  {
    if run == [] then k else PassedIn(Passed(k, run[0], t), run[1..], t)
  }

  /** Links that are set stay where they are on the chain. */
  lemma {:induction false} LinkAtKept(links: map<Link, Region>, more: map<Link, Region>, k: nat)
    requires LinkAt(links, k).Some? && forall l :: l in links ==> l in more && more[l] == links[l]
    ensures LinkAt(more, k) == LinkAt(links, k)
    ensures HeapAt(links, k).Some? ==> HeapAt(more, k) == HeapAt(links, k)
  {
    if k > 0 {
      LinkAtKept(links, more, k - 1);
    }
  }

  lemma AtStep(s: State, a: Action, t: Tid, k: nat)
    requires Inv(s) && Enabled(s, a) && At(s, t, k)
    ensures At(Step(s, a), t, Passed(k, a, t))
  {
    assert ThreadOk(s, t);
    StepInv(s, a);
    assert ThreadOk(Step(s, a), t);
    hide Inv;
    if Active(Thr(s, t)) {
      LinkAtKept(s.links, Step(s, a).links, k);
    }
  }

  /**
    Every thread walks along the chain from its start, heap by heap: after k heaps without a free
    continuation it is at the k-th link, or in the heap on it.
  */
  lemma {:induction false} WalksTheChain(s: State, run: seq<Action>, t: Tid, k: nat)
    requires Inv(s) && Runs(s, run) && At(s, t, k)
    ensures At(After(s, run), t, PassedIn(k, run, t))
    decreases |run|
  {
    hide Inv;
    hide Step;
    hide Enabled;
    hide At;
    hide Passed;
    if run != [] {
      StepInv(s, run[0]);
      AtStep(s, run[0], t, k);
      WalksTheChain(Step(s, run[0]), run[1..], t, Passed(k, run[0], t));
    }
  }

  ghost predicate Injective(links: map<Link, Region>) {
    forall k, l :: k in links && l in links && links[k] == links[l] ==> k == l
  }

  /** No link, so no heap, is on the chain twice. */
  lemma {:induction false} NoneTwice(links: map<Link, Region>, i: nat, j: nat)
    requires Injective(links) && LinkAt(links, i).Some? && LinkAt(links, i) == LinkAt(links, j)
    ensures i == j
  {
    if i > 0 && j > 0 {
      NoneTwice(links, i - 1, j - 1);
    }
  }

  /** The links before one on the chain are set. */
  lemma {:induction false} SetBefore(links: map<Link, Region>, i: nat, k: nat)
    requires LinkAt(links, k).Some? && i < k
    ensures HeapAt(links, i).Some?
    decreases k
  {
    if i < k - 1 {
      SetBefore(links, i, k - 1);
    }
  }

  ghost predicate OnChain(s: State, link: Link) {
    exists k: nat :: LinkAt(s.links, k) == Some(link)
  }

  /** The links set are one chain, ended by a NULL link, and all threads are on it. */
  ghost predicate OneChain(s: State) {
    && LinkAt(s.links, |s.links|).Some? && HeapAt(s.links, |s.links|) == None
    && (forall link :: link in s.links ==> OnChain(s, link))
    && (forall t :: Active(Thr(s, t)) ==> OnChain(s, Thr(s, t).link))
  }

  /** The one link of the chain that is NULL is its end. */
  lemma NullIsLast(s: State, k: nat)
    requires OneChain(s) && LinkAt(s.links, k).Some?
    ensures k <= |s.links| && (HeapAt(s.links, k) == None <==> k == |s.links|)
  {
    if k > |s.links| {
      SetBefore(s.links, |s.links|, k);
    } else if k < |s.links| {
      SetBefore(s.links, k, |s.links|);
    }
  }

  lemma OnChainKept(s: State, a: Action, link: Link)
    requires Enabled(s, a) && OnChain(s, link)
    ensures OnChain(Step(s, a), link)
  {
    var k: nat :| LinkAt(s.links, k) == Some(link);
    LinkAtKept(s.links, Step(s, a).links, k);
  }

  lemma ThreadsStay(s: State, a: Action)
    requires Inv(s) && OneChain(s) && Enabled(s, a)
    ensures forall u :: Active(Thr(Step(s, a), u)) ==> OnChain(Step(s, a), Thr(Step(s, a), u).link)
  {
    var s' := Step(s, a);
    forall u | Active(Thr(s', u)) ensures OnChain(s', Thr(s', u).link) {
      if u == a.t && a.Start? {
        assert LinkAt(s'.links, 0) == Some(MainHeap);
      } else {
        assert Active(Thr(s, u));
        var k: nat :| LinkAt(s.links, k) == Some(Thr(s, u).link);
        assert At(s, u, k) by {
          assert ThreadOk(s, u);
        }
        AtStep(s, a, u, k);
      }
    }
  }

  /** The new heap comes after all others. */
  lemma WinChain(s: State, s': State, t: Tid)
    requires Inv(s) && OneChain(s) && Thr(s, t).Holding? && Thr(s, t).link !in s.links
    requires s'.links == s.links[Thr(s, t).link := Thr(s, t).mine]
    ensures |s'.links| == |s.links| + 1 && HeapAt(s'.links, |s.links|) == Some(Thr(s, t).mine)
    ensures LinkAt(s'.links, |s'.links|).Some? && HeapAt(s'.links, |s'.links|) == None
  {
    var (n, th) := (|s.links|, Thr(s, t));
    assert ThreadOk(s, t) && OnChain(s, th.link);
    var k: nat :| LinkAt(s.links, k) == Some(th.link);
    NullIsLast(s, k);
    assert Next(th.mine) !in s.links && Next(th.mine) != th.link;
    hide Inv;
    hide OneChain;
    NewEnd(s.links, n, th.link, th.mine);
  }

  lemma NewEnd(links: map<Link, Region>, n: nat, link: Link, heap: Region)
    requires LinkAt(links, n) == Some(link) && link !in links && Next(heap) !in links && Next(heap) != link
    ensures |links[link := heap]| == |links| + 1 && HeapAt(links[link := heap], n) == Some(heap)
    ensures LinkAt(links[link := heap], n + 1) == Some(Next(heap)) && HeapAt(links[link := heap], n + 1) == None
  {
    LinkAtKept(links, links[link := heap], n);
    assert links[link := heap].Keys == links.Keys + {link};
  }

  lemma OneChainStep(s: State, a: Action)
    requires Inv(s) && OneChain(s) && Enabled(s, a)
    ensures OneChain(Step(s, a))
  {
    var s' := Step(s, a);
    ThreadsStay(s, a);
    forall link | link in s'.links ensures OnChain(s', link) {
      if link in s.links {
        OnChainKept(s, a, link);
      } else {
        assert OnChain(s, Thr(s, a.t).link);
        OnChainKept(s, a, Thr(s, a.t).link);
      }
    }
    if s'.links != s.links {
      assert a.LinkCas? && Thr(s, a.t).link !in s.links;
      WinChain(s, s', a.t);
    }
  }

  lemma {:induction false} OneChainRun(s: State, run: seq<Action>)
    requires Inv(s) && OneChain(s) && Runs(s, run)
    ensures Inv(After(s, run)) && OneChain(After(s, run))
    decreases |run|
  {
    hide Inv;
    hide OneChain;
    hide Step;
    hide Enabled;
    if run != [] {
      StepInv(s, run[0]);
      OneChainStep(s, run[0]);
      OneChainRun(Step(s, run[0]), run[1..]);
    }
  }

  /** How the walk goes on from the k-th link: over the k-th heap to the next link, or to a heap of its own. */
  ghost predicate GoesOn(s: State, t: Tid, k: nat) {
    match Thr(s, t)
    case AtLink(link) => Thr(Step(s, TestLink(t)), t) == if k < |s.links| then AtHeap(link) else Mapping(link)
    case AtHeap(link) =>
      var th := Thr(Step(s, LoadHeap(t)), t);
      k < |s.links| && th.InHeap? && th.link == link && HeapAt(s.links, k) == Some(th.heap)
    case InHeap(link, heap) =>
      var th := Thr(Step(s, NextHeap(t)), t);
      k < |s.links| && HeapAt(s.links, k) == Some(heap) && th.AtLink? && LinkAt(s.links, k + 1) == Some(th.link)
    case Mapping(link) =>
      forall r: Region :: r !in s.mapped ==> Thr(Step(s, Map(t, r)), t) == Holding(link, r)
    case Lost(link, _) => k < |s.links| && Thr(Step(s, Unmap(t)), t) == AtHeap(link)
    case _ => true
  }

  /**
    In every interleaving: the heaps are one chain of |links| heaps, none on it twice, and a thread
    that has left k of them behind is at the k-th link; there it goes on to the k-th heap, and from
    that to the next link, until at the end of the chain it maps a heap of its own.
  */
  lemma WalkGoesOn(run: seq<Action>, t: Tid)
    requires Runs(Fresh, run) && Active(Thr(After(Fresh, run), t))
    ensures var (s, k) := (After(Fresh, run), PassedIn(0, run, t));
      && OneChain(s) && Injective(s.links)
      && k <= |s.links| && LinkAt(s.links, k) == Some(Thr(s, t).link) && GoesOn(s, t, k)
  {
    hide Inv;
    hide OneChain;
    hide At;
    hide GoesOn;
    hide Runs;
    hide After;
    hide Active;
    FreshIsOne(t);
    OneChainRun(Fresh, run);
    WalksTheChain(Fresh, run, t, 0);
    StandsAt(After(Fresh, run), t, PassedIn(0, run, t));
  }

  lemma FreshIsOne(t: Tid)
    ensures Inv(Fresh) && OneChain(Fresh) && At(Fresh, t, 0)
  {
  }

  lemma StandsAt(s: State, t: Tid, k: nat)
    requires Inv(s) && OneChain(s) && At(s, t, k) && Active(Thr(s, t))
    ensures Injective(s.links) && k <= |s.links| && LinkAt(s.links, k) == Some(Thr(s, t).link) && GoesOn(s, t, k)
  {
    hide Inv;
    hide OneChain;
    hide LinkAt;
    NullIsLast(s, k);
    LinkMapped(s, t);
    NextAt(s.links, k);
  }

  lemma NextAt(links: map<Link, Region>, k: nat)
    ensures HeapAt(links, k).Some? ==> LinkAt(links, k + 1) == Some(Next(HeapAt(links, k).value))
  {
  }

  /** What an active thread reads is mapped. */
  lemma LinkMapped(s: State, t: Tid)
    requires Inv(s) && Active(Thr(s, t))
    ensures Readable(s, Thr(s, t).link) && (Thr(s, t).InHeap? ==> Thr(s, t).heap in s.mapped)
    ensures Injective(s.links) && ThreadOk(s, t)
  {
    assert ThreadOk(s, t);
    if Thr(s, t).link.Next? {
      LinkedIsMapped(s, Thr(s, t).link.region);
    }
  }

  /** The compare-and-swap at the end of the chain puts the thread's heap there; elsewhere it fails. */
  lemma CasExtends(run: seq<Action>, t: Tid)
    requires Runs(Fresh, run) && Thr(After(Fresh, run), t).Holding?
    ensures var (s, k) := (After(Fresh, run), PassedIn(0, run, t));
      var (th, s', n) := (Thr(s, t), Step(s, LinkCas(t)), |s.links|);
      if k == n then
        && |s'.links| == n + 1 && HeapAt(s'.links, n) == Some(th.mine) && Thr(s', t) == AtHeap(th.link)
        && forall j: nat :: j < n ==> HeapAt(s'.links, j) == HeapAt(s.links, j)
      else
        s'.links == s.links && Thr(s', t) == Lost(th.link, th.mine)
  {
    hide Inv;
    hide OneChain;
    hide LinkAt;
    hide GoesOn;
    hide Runs;
    hide After;
    var (s, k) := (After(Fresh, run), PassedIn(0, run, t));
    WalkGoesOn(run, t);
    FreshIsOne(t);
    OneChainRun(Fresh, run);
    NullIsLast(s, k);
    LinkMapped(s, t);
    if k == |s.links| {
      var s' := Step(s, LinkCas(t));
      WinChain(s, s', t);
      hide Step;
      forall j: nat | j < k ensures HeapAt(s'.links, j) == HeapAt(s.links, j) {
        SetBefore(s.links, j, k);
        LinkAtKept(s.links, s'.links, j);
      }
    }
  }

  /** A walk past m heaps by one thread alone. */
  ghost function Walk(t: Tid, m: nat): seq<Action> {
    if m == 0 then [] else [TestLink(t), LoadHeap(t), NextHeap(t)] + Walk(t, m - 1)
  }

  lemma RunMore(s: State, a: Action, rest: seq<Action>)
    requires Enabled(s, a) && Runs(Step(s, a), rest)
    ensures Runs(s, [a] + rest) && After(s, [a] + rest) == After(Step(s, a), rest)
  {
    hide Enabled;
    hide Step;
    assert ([a] + rest)[1..] == rest;
  }

  lemma RunThree(s: State, a: Action, b: Action, c: Action, rest: seq<Action>)
    requires Enabled(s, a) && Enabled(Step(s, a), b) && Enabled(Step(Step(s, a), b), c)
    requires Runs(Step(Step(Step(s, a), b), c), rest)
    ensures Runs(s, [a, b, c] + rest) && After(s, [a, b, c] + rest) == After(Step(Step(Step(s, a), b), c), rest)
  {
    hide Enabled;
    hide Step;
    hide Runs;
    hide After;
    RunMore(Step(Step(s, a), b), c, rest);
    RunMore(Step(s, a), b, [c] + rest);
    RunMore(s, a, [b] + ([c] + rest));
    assert [a, b, c] + rest == [a] + ([b] + ([c] + rest));
  }

  lemma WalkOne(s: State, t: Tid, k: nat)
    requires Inv(s) && Thr(s, t).AtLink? && LinkAt(s.links, k) == Some(Thr(s, t).link) && HeapAt(s.links, k).Some?
    ensures Enabled(s, TestLink(t)) && Enabled(Step(s, TestLink(t)), LoadHeap(t))
    ensures var s2 := Step(Step(s, TestLink(t)), LoadHeap(t));
      && Enabled(s2, NextHeap(t))
      && var s3 := Step(s2, NextHeap(t));
         && s3 == s.(threads := s3.threads) && Thr(s3, t) == AtLink(LinkAt(s.links, k + 1).value) && Inv(s3)
  {
    LinkMapped(s, t);
    StepInv(s, TestLink(t));
    var s1 := Step(s, TestLink(t));
    StepInv(s1, LoadHeap(t));
    var s2 := Step(s1, LoadHeap(t));
    LinkMapped(s2, t);
    StepInv(s2, NextHeap(t));
    hide Inv;
  }

  /** Alone, a thread gets past every heap of the chain, and to the NULL link at its end, where it maps. */
  lemma {:induction false} WalkToEnd(s: State, t: Tid, k: nat)
    requires Inv(s) && OneChain(s) && Thr(s, t).AtLink? && LinkAt(s.links, k) == Some(Thr(s, t).link)
    ensures k <= |s.links| && Runs(s, Walk(t, |s.links| - k))
    ensures var s' := After(s, Walk(t, |s.links| - k));
      s'.links == s.links && Enabled(s', TestLink(t)) && Thr(Step(s', TestLink(t)), t).Mapping?
    decreases |s.links| - k
  {
    hide OneChain;
    hide Inv;
    hide Enabled;
    hide Step;
    hide Runs;
    hide After;
    hide LinkAt;
    NullIsLast(s, k);
    if k == |s.links| {
      WalkEnds(s, t, k);
    } else {
      NextAt(s.links, k);
      WalkOne(s, t, k);
      var s3 := Step(Step(Step(s, TestLink(t)), LoadHeap(t)), NextHeap(t));
      StayOneChain(s, TestLink(t), LoadHeap(t), NextHeap(t));
      WalkToEnd(s3, t, k + 1);
      RunThree(s, TestLink(t), LoadHeap(t), NextHeap(t), Walk(t, |s.links| - k - 1));
    }
  }

  lemma WalkEnds(s: State, t: Tid, k: nat)
    requires Inv(s) && Thr(s, t).AtLink? && LinkAt(s.links, k) == Some(Thr(s, t).link) && HeapAt(s.links, k) == None
    ensures Runs(s, []) && After(s, []) == s && Enabled(s, TestLink(t)) && Thr(Step(s, TestLink(t)), t).Mapping?
  {
    LinkMapped(s, t);
    hide Inv;
  }

  lemma StayOneChain(s: State, a: Action, b: Action, c: Action)
    requires Inv(s) && OneChain(s)
    requires Enabled(s, a) && Enabled(Step(s, a), b) && Enabled(Step(Step(s, a), b), c)
    ensures OneChain(Step(Step(Step(s, a), b), c))
  {
    hide Inv;
    hide OneChain;
    hide Enabled;
    hide Step;
    StepInv(s, a);
    OneChainStep(s, a);
    StepInv(Step(s, a), b);
    OneChainStep(Step(s, a), b);
    OneChainStep(Step(Step(s, a), b), c);
  }
}
