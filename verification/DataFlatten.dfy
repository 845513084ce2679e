/**
  The flat buffer a composite object caches, with any number of threads asking for it at once:
  each may allocate and fill a buffer of its own, one compare-and-swap decides, the others free
  theirs.  A state machine with one step per access to shared memory; buffers have addresses,
  and malloc may give out again what was freed.
*/
module DataFlatten {
  import opened Common
  import opened DataRope

  type Tid = nat
  type Addr = nat

  /** A composite of several records: what they stand for, who has a reference, and `buf`. */
  datatype Composite = Composite(pieces: seq<seq<Byte>>, holders: set<Tid>, buf: Option<Addr>)

  /** Where a thread is in _dispatch_data_get_flattened_bytes. */
  datatype Thread =
    | Idle
    | Mapping(d: Ref)                               // before map_direct loads buf
    | Allocating(d: Ref)                            // it was NULL: before malloc
    | Copying(d: Ref, mine: Addr, k: nat)           // k pieces copied
    | Installing(d: Ref, mine: Addr)                // before the compare-and-swap
    | Losing(d: Ref, mine: Addr, seen: Addr)        // which found `seen` there: before free
    | Using(d: Ref, result: Option<Addr>)           // it has returned
    | Faulted                                       // used an object or a buffer that is gone

  datatype State = State(objs: map<Ref, Composite>, heap: map<Addr, seq<Byte>>, threads: map<Tid, Thread>)

  datatype Action =
    | Create(t: Tid, d: Ref, pieces: seq<seq<Byte>>)
    | Share(t: Tid, d: Ref, u: Tid)
    | Release(t: Tid, d: Ref)
    | Call(t: Tid, d: Ref)
    | Load(t: Tid)
    | Malloc(t: Tid, given: Option<Addr>)
    | Copy(t: Tid)
    | Cas(t: Tid)
    | Free(t: Tid)
    | Read(t: Tid)
    | Finish(t: Tid)

  function Thr(s: State, t: Tid): Thread {
    if t in s.threads then s.threads[t] else Idle
  }

  predicate Holds(s: State, t: Tid, d: Ref) {
    d in s.objs && t in s.objs[d].holders
  }

  predicate Enabled(s: State, a: Action) {
    match a
    case Create(t, d, pieces) => d !in s.objs && |pieces| >= 2
    case Share(t, d, u) => Holds(s, t, d)
    case Release(t, d) => Thr(s, t).Idle? && Holds(s, t, d)
    case Call(t, d) => Thr(s, t).Idle? && Holds(s, t, d)
    case Load(t) => Thr(s, t).Mapping?
    case Malloc(t, given) => Thr(s, t).Allocating? && (given.Some? ==> given.value !in s.heap)
    case Copy(t) => Thr(s, t).Copying?
    case Cas(t) => Thr(s, t).Installing?
    case Free(t) => Thr(s, t).Losing?
    case Read(t) => Thr(s, t).Using?
    case Finish(t) => Thr(s, t).Using?
  }

  function Place(s: State, t: Tid, th: Thread): State {
    s.(threads := s.threads[t := th])
  }

  /** free, NULL allowed: None when the address is not allocated */
  function Freed(heap: map<Addr, seq<Byte>>, a: Option<Addr>): Option<map<Addr, seq<Byte>>> {
    if a.None? then Some(heap) else if a.value in heap then Some(heap - {a.value}) else None
  }

  function Step(s: State, a: Action): State
    requires Enabled(s, a)
  {
    var th := Thr(s, a.t);
    match a
    case Create(t, d, pieces) => s.(objs := s.objs[d := Composite(pieces, {t}, None)])
    case Share(t, d, u) => s.(objs := s.objs[d := s.objs[d].(holders := s.objs[d].holders + {u})])
    case Release(t, d) =>
      var o := s.objs[d].(holders := s.objs[d].holders - {t});
      if o.holders != {} then s.(objs := s.objs[d := o])
      else
        // _dispatch_data_dispose
        var heap := Freed(s.heap, o.buf);
        if heap.None? then Place(s, t, Faulted) else s.(objs := s.objs - {d}, heap := heap.value)
    case Call(t, d) => Place(s, t, Mapping(d))
    case Load(t) =>
      if th.d !in s.objs then Place(s, t, Faulted)
      else if s.objs[th.d].buf.Some? then Place(s, t, Using(th.d, s.objs[th.d].buf))
      else Place(s, t, Allocating(th.d))
    case Malloc(t, given) =>
      if given.None? then Place(s, t, Using(th.d, None))
      else Place(s.(heap := s.heap[given.value := []]), t, Copying(th.d, given.value, 0))
    case Copy(t) =>
      if th.d !in s.objs || th.mine !in s.heap || th.k >= |s.objs[th.d].pieces| then Place(s, t, Faulted)
      else
        var heap := s.heap[th.mine := s.heap[th.mine] + s.objs[th.d].pieces[th.k]];
        Place(s.(heap := heap), t, if th.k + 1 < |s.objs[th.d].pieces| then Copying(th.d, th.mine, th.k + 1)
                                   else Installing(th.d, th.mine))
    case Cas(t) =>
      if th.d !in s.objs then Place(s, t, Faulted)
      else if s.objs[th.d].buf.Some? then Place(s, t, Losing(th.d, th.mine, s.objs[th.d].buf.value))
      else Place(s.(objs := s.objs[th.d := s.objs[th.d].(buf := Some(th.mine))]), t, Using(th.d, Some(th.mine)))
    case Free(t) =>
      var heap := Freed(s.heap, Some(th.mine));
      if heap.None? then Place(s, t, Faulted) else Place(s.(heap := heap.value), t, Using(th.d, Some(th.seen)))
    case Read(t) => if th.result.Some? && th.result.value !in s.heap then Place(s, t, Faulted) else s
    case Finish(t) => Place(s, t, Idle)
  }

  // ---------------------------------------------------------------- the invariant

  /** The buffer is t's own, filled or not, and neither installed nor freed. */
  predicate Owns(s: State, t: Tid, a: Addr) {
    (Thr(s, t).Copying? || Thr(s, t).Installing? || Thr(s, t).Losing?) && Thr(s, t).mine == a
  }

  predicate Cached(s: State, d: Ref, a: Addr) {
    d in s.objs && s.objs[d].buf == Some(a)
  }

  /** The buffer holds these bytes. */
  predicate HasBytes(s: State, a: Addr, bytes: seq<Byte>) {
    a in s.heap && s.heap[a] == bytes
  }

  predicate ThreadOk(s: State, t: Tid) {
    match Thr(s, t)
    case Idle => true
    case Mapping(d) => Holds(s, t, d)
    case Allocating(d) => Holds(s, t, d)
    case Copying(d, mine, k) =>
      Holds(s, t, d) && k < |s.objs[d].pieces| && HasBytes(s, mine, Join(s.objs[d].pieces[..k]))
    case Installing(d, mine) => Holds(s, t, d) && HasBytes(s, mine, Join(s.objs[d].pieces))
    case Losing(d, mine, seen) => Holds(s, t, d) && mine in s.heap && Cached(s, d, seen)
    case Using(d, result) => Holds(s, t, d) && (result.Some? ==> Cached(s, d, result.value))
    case Faulted => false
  }

  ghost predicate ObjOk(s: State, d: Ref) {
    d in s.objs ==>
      && s.objs[d].holders != {} && |s.objs[d].pieces| >= 2
      && forall a :: Cached(s, d, a) ==> HasBytes(s, a, Join(s.objs[d].pieces)) && forall t :: !Owns(s, t, a)
  }

  ghost predicate Inv(s: State) {
    && (forall t :: ThreadOk(s, t))
    && (forall d :: ObjOk(s, d))
    && (forall t, u, a :: Owns(s, t, a) && Owns(s, u, a) ==> t == u)
    && (forall c, d, a :: Cached(s, c, a) && Cached(s, d, a) ==> c == d)
    && (forall a :: a in s.heap ==> (exists t :: Owns(s, t, a)) || (exists d :: Cached(s, d, a)))
  }

  /** A step of t that neither allocates, installs nor frees. */
  lemma MoveInv(s: State, t: Tid, th: Thread)
    requires Inv(s) && ThreadOk(Place(s, t, th), t)
    requires forall a :: Owns(Place(s, t, th), t, a) <==> Owns(s, t, a)
    ensures Inv(Place(s, t, th))
  {
    var s' := Place(s, t, th);
    assert forall u, a :: Owns(s', u, a) <==> Owns(s, u, a);
    assert forall d, a :: Cached(s', d, a) <==> Cached(s, d, a);
    forall u ensures ThreadOk(s', u) {
      assert ThreadOk(s, u);
    }
    forall d ensures ObjOk(s', d) {
      assert ObjOk(s, d);
    }
    forall a | a in s'.heap ensures (exists u :: Owns(s', u, a)) || (exists d :: Cached(s', d, a)) {
      if u :| Owns(s, u, a) {
        assert Owns(s', u, a);
      } else {
        var d :| Cached(s, d, a);
        assert Cached(s', d, a);
      }
    }
  }

  lemma JoinMore(pieces: seq<seq<Byte>>, k: nat)
    requires k < |pieces|
    ensures Join(pieces[..k]) + pieces[k] == Join(pieces[..k + 1])
  {
    assert pieces[..k + 1][..k] == pieces[..k];
  }

  /** A step on object d that changes nothing but who holds it, and not for threads at work on it. */
  lemma HoldersInv(s: State, s': State, d: Ref)
    requires Inv(s) && s'.heap == s.heap && s'.threads == s.threads && d in s'.objs && s'.objs[d].holders != {}
    requires |s'.objs[d].pieces| >= 2
    requires s'.objs == s.objs[d := s'.objs[d]]
    requires d in s.objs ==> s'.objs[d].pieces == s.objs[d].pieces && s'.objs[d].buf == s.objs[d].buf
    requires d !in s.objs ==> s'.objs[d].buf == None
    requires forall t :: Holds(s, t, d) && !Thr(s, t).Idle? ==> Holds(s', t, d)
    ensures Inv(s')
  {
    assert forall u, a :: Owns(s', u, a) <==> Owns(s, u, a);
    assert forall c, a :: Cached(s', c, a) <==> Cached(s, c, a);
    forall u ensures ThreadOk(s', u) {
      assert ThreadOk(s, u);
    }
    forall c ensures ObjOk(s', c) {
      assert ObjOk(s, c);
    }
    forall a | a in s'.heap ensures (exists u :: Owns(s', u, a)) || (exists c :: Cached(s', c, a)) {
      if u :| Owns(s, u, a) {
        assert Owns(s', u, a);
      } else {
        var c :| Cached(s, c, a);
        assert Cached(s', c, a);
      }
    }
  }

  /** A buffer of t's own, written or new; nothing cached changes. */
  lemma WriteInv(s: State, s': State, t: Tid, mine: Addr)
    requires Inv(s) && s'.objs == s.objs && mine in s'.heap && s'.heap == s.heap[mine := s'.heap[mine]]
    requires s'.threads == s.threads[t := Thr(s', t)] && ThreadOk(s', t)
    requires forall a :: Owns(s', t, a) <==> a == mine
    requires (mine !in s.heap && forall a :: !Owns(s, t, a)) || Owns(s, t, mine)
    ensures Inv(s')
  {
    NotElsewhere(s, t, mine);
    assert forall u, a :: u != t ==> (Owns(s', u, a) <==> Owns(s, u, a));
    assert forall d, a :: Cached(s', d, a) <==> Cached(s, d, a);
    forall u ensures ThreadOk(s', u) {
      assert ThreadOk(s, u);
      assert u != t ==> !Owns(s, u, mine);
    }
    forall d ensures ObjOk(s', d) {
      assert ObjOk(s, d) && !Cached(s, d, mine);
    }
    forall a | a in s'.heap ensures (exists u :: Owns(s', u, a)) || (exists d :: Cached(s', d, a)) {
      if a == mine {
        assert Owns(s', t, a);
      } else if u :| Owns(s, u, a) {
        assert u == t ==> a == mine;
        assert Owns(s', u, a);
      } else {
        var d :| Cached(s, d, a);
        assert Cached(s', d, a);
      }
    }
  }

  /** What is t's own, or not allocated, is neither another thread's nor cached. */
  lemma NotElsewhere(s: State, t: Tid, a: Addr)
    requires Inv(s) && (a !in s.heap || Owns(s, t, a))
    ensures forall u :: u != t ==> !Owns(s, u, a)
    ensures forall d :: !Cached(s, d, a)
  {
    forall u | u != t ensures !Owns(s, u, a) {
      assert ThreadOk(s, u);
    }
    forall d ensures !Cached(s, d, a) {
      assert ObjOk(s, d);
    }
  }

  /** The compare-and-swap that finds NULL. */
  lemma InstallInv(s: State, s': State, t: Tid, d: Ref, mine: Addr)
    requires Inv(s) && Thr(s, t) == Installing(d, mine) && d in s.objs && s.objs[d].buf.None?
    requires s' == Place(s.(objs := s.objs[d := s.objs[d].(buf := Some(mine))]), t, Using(d, Some(mine)))
    ensures Inv(s')
  {
    assert ThreadOk(s, t) && Owns(s, t, mine) && ObjOk(s, d);
    NotElsewhere(s, t, mine);
    assert forall u, a :: Owns(s', u, a) <==> u != t && Owns(s, u, a);
    assert forall c, a :: Cached(s', c, a) <==> Cached(s, c, a) || (c == d && a == mine);
    forall u ensures ThreadOk(s', u) {
      assert ThreadOk(s, u);
    }
    forall c ensures ObjOk(s', c) {
      assert ObjOk(s, c);
    }
    forall a | a in s'.heap ensures (exists u :: Owns(s', u, a)) || (exists c :: Cached(s', c, a)) {
      if a == mine {
        assert Cached(s', d, a);
      } else if u :| Owns(s, u, a) {
        assert Owns(s', u, a);
      } else {
        var c :| Cached(s, c, a);
        assert Cached(s', c, a);
      }
    }
  }

  /** The loser's free. */
  lemma LoseInv(s: State, s': State, t: Tid, d: Ref, mine: Addr, seen: Addr)
    requires Inv(s) && Thr(s, t) == Losing(d, mine, seen)
    requires s' == Place(s.(heap := s.heap - {mine}), t, Using(d, Some(seen)))
    ensures Inv(s')
  {
    assert ThreadOk(s, t) && Owns(s, t, mine);
    NotElsewhere(s, t, mine);
    assert forall u, a :: Owns(s', u, a) <==> u != t && Owns(s, u, a);
    assert forall c, a :: Cached(s', c, a) <==> Cached(s, c, a);
    forall u ensures ThreadOk(s', u) {
      assert ThreadOk(s, u);
      assert u != t ==> !Owns(s, u, mine);
    }
    forall c ensures ObjOk(s', c) {
      assert ObjOk(s, c) && !Cached(s, c, mine);
    }
    forall a | a in s'.heap ensures (exists u :: Owns(s', u, a)) || (exists c :: Cached(s', c, a)) {
      if u :| Owns(s, u, a) {
        assert u == t ==> a == mine;
        assert Owns(s', u, a);
      } else {
        var c :| Cached(s, c, a);
        assert Cached(s', c, a);
      }
    }
  }

  /** Disposal: nobody is at work on d, and its buffer goes with it. */
  lemma DisposeInv(s: State, s': State, t: Tid, d: Ref)
    requires Inv(s) && Thr(s, t).Idle? && d in s.objs && s.objs[d].holders == {t}
    requires s'.threads == s.threads && s'.objs == s.objs - {d}
    requires s'.heap == if s.objs[d].buf.None? then s.heap else s.heap - {s.objs[d].buf.value}
    ensures Inv(s')
  {
    assert ObjOk(s, d);
    assert forall u :: !Thr(s, u).Idle? ==> !Holds(s, u, d);
    assert forall a: Addr :: Cached(s, d, a) ==> s.objs[d].buf == Some(a) && forall u :: !Owns(s, u, a);
    assert forall u, a :: Owns(s', u, a) <==> Owns(s, u, a);
    assert forall c, a :: Cached(s', c, a) <==> c != d && Cached(s, c, a);
    forall u ensures ThreadOk(s', u) {
      assert ThreadOk(s, u);
      assert s.objs[d].buf.Some? ==> Cached(s, d, s.objs[d].buf.value) && !Owns(s, u, s.objs[d].buf.value);
    }
    forall c ensures ObjOk(s', c) {
      assert ObjOk(s, c);
      assert s.objs[d].buf.Some? ==> Cached(s, d, s.objs[d].buf.value);
    }
    forall a | a in s'.heap ensures (exists u :: Owns(s', u, a)) || (exists c :: Cached(s', c, a)) {
      if u :| Owns(s, u, a) {
        assert Owns(s', u, a);
      } else {
        var c :| Cached(s, c, a);
        assert Cached(s', c, a);
      }
    }
  }

  lemma ReleaseInv(s: State, a: Action)
    requires Inv(s) && Enabled(s, a) && a.Release?
    ensures Inv(Step(s, a))
  {
    var s', d, holders := Step(s, a), a.d, s.objs[a.d].holders;
    assert ObjOk(s, d);
    if holders - {a.t} != {} {
      assert forall t :: Holds(s, t, d) && !Thr(s, t).Idle? ==> t != a.t;
      assert s'.objs[d].holders == holders - {a.t};
      HoldersInv(s, s', d);
    } else {
      assert holders == {a.t};
      assert s.objs[d].buf.Some? ==> Cached(s, d, s.objs[d].buf.value);
      DisposeInv(s, s', a.t, d);
    }
  }

  lemma CopyInv(s: State, a: Action)
    requires Inv(s) && Enabled(s, a) && a.Copy?
    ensures Inv(Step(s, a))
  {
    var s', th := Step(s, a), Thr(s, a.t);
    assert ThreadOk(s, a.t) && Owns(s, a.t, th.mine);
    var pieces := s.objs[th.d].pieces;
    JoinMore(pieces, th.k);
    assert pieces[..|pieces|] == pieces;
    WriteInv(s, s', a.t, th.mine);
  }

  lemma StepInv(s: State, a: Action)
    requires Inv(s) && Enabled(s, a)
    ensures Inv(Step(s, a))
  {
    match a {
      case Create(_, _, _) => CreateInv(s, a);
      case Share(t, d, u) => ShareInv(s, a);
      case Release(_, _) => ReleaseInv(s, a);
      case Malloc(_, _) => MallocInv(s, a);
      case Copy(_) => CopyInv(s, a);
      case Cas(_) => CasInv(s, a);
      case Free(_) => FreeInv(s, a);
      case _ => WalkInv(s, a);
    }
  }

  lemma CreateInv(s: State, a: Action)
    requires Inv(s) && Enabled(s, a) && a.Create?
    ensures Inv(Step(s, a))
  {
    HoldersInv(s, Step(s, a), a.d);
  }

  lemma ShareInv(s: State, a: Action)
    requires Inv(s) && Enabled(s, a) && a.Share?
    ensures Inv(Step(s, a))
  {
    assert ObjOk(s, a.d);
    assert a.t in Step(s, a).objs[a.d].holders;
    HoldersInv(s, Step(s, a), a.d);
  }

  lemma MallocInv(s: State, a: Action)
    requires Inv(s) && Enabled(s, a) && a.Malloc?
    ensures Inv(Step(s, a))
  {
    var s', th := Step(s, a), Thr(s, a.t);
    assert ThreadOk(s, a.t) && ObjOk(s, th.d);
    if a.given.None? {
      MoveInv(s, a.t, Using(th.d, None));
    } else {
      assert Join(s.objs[th.d].pieces[..0]) == [];
      WriteInv(s, s', a.t, a.given.value);
    }
  }

  lemma CasInv(s: State, a: Action)
    requires Inv(s) && Enabled(s, a) && a.Cas?
    ensures Inv(Step(s, a))
  {
    var th := Thr(s, a.t);
    assert ThreadOk(s, a.t);
    if s.objs[th.d].buf.Some? {
      MoveInv(s, a.t, Losing(th.d, th.mine, s.objs[th.d].buf.value));
    } else {
      InstallInv(s, Step(s, a), a.t, th.d, th.mine);
    }
  }

  lemma FreeInv(s: State, a: Action)
    requires Inv(s) && Enabled(s, a) && a.Free?
    ensures Inv(Step(s, a))
  {
    var th := Thr(s, a.t);
    assert ThreadOk(s, a.t);
    LoseInv(s, Step(s, a), a.t, th.d, th.mine, th.seen);
  }

  lemma WalkInv(s: State, a: Action)
    requires Inv(s) && Enabled(s, a) && (a.Call? || a.Load? || a.Read? || a.Finish?)
    ensures Inv(Step(s, a))
  {
    var th := Thr(s, a.t);
    assert ThreadOk(s, a.t);
    if a.Read? {
      if th.result.Some? {
        assert ObjOk(s, th.d);
      }
    } else {
      MoveInv(s, a.t, Thr(Step(s, a), a.t));
    }
  }

  // ---------------------------------------------------------------- all interleavings

  ghost predicate Runs(s: State, run: seq<Action>)
    decreases |run|
  {
    run == [] || (Enabled(s, run[0]) && Runs(Step(s, run[0]), run[1..]))
  }

  ghost function After(s: State, run: seq<Action>): State
    requires Runs(s, run)
    decreases |run|
  {
    if run == [] then s else After(Step(s, run[0]), run[1..])
  }

  const Init := State(map[], map[], map[])

  ghost predicate Reachable(s: State) {
    exists run :: Runs(Init, run) && After(Init, run) == s
  }

  lemma {:induction false} RunInv(s: State, run: seq<Action>)
    requires Inv(s) && Runs(s, run)
    ensures Inv(After(s, run))
    decreases |run|
  {
    hide Inv;
    hide Step;
    hide Enabled;
    if run != [] {
      StepInv(s, run[0]);
      RunInv(Step(s, run[0]), run[1..]);
    }
  }

  lemma ReachableInv(s: State)
    requires Reachable(s)
    ensures Inv(s)
  {
    var run :| Runs(Init, run) && After(Init, run) == s;
    hide Step;
    hide Enabled;
    RunInv(Init, run);
  }

  /** In every interleaving: no buffer is freed twice, none is used after its free, no object after its disposal. */
  lemma NeverFaults(s: State, t: Tid)
    requires Reachable(s)
    ensures !Thr(s, t).Faulted?
  {
    ReachableInv(s);
    hide Reachable;
    assert ThreadOk(s, t);
  }

  /** d is not disposed of in the run. */
  ghost predicate Lives(s: State, run: seq<Action>, d: Ref)
    requires Runs(s, run)
    decreases |run|
  {
    d in s.objs && (run != [] ==> Lives(Step(s, run[0]), run[1..], d))
  }

  lemma CachedStep(s: State, a: Action, d: Ref, buf: Addr)
    requires Inv(s) && Enabled(s, a) && Cached(s, d, buf) && d in Step(s, a).objs
    ensures Cached(Step(s, a), d, buf) && Step(s, a).objs[d].pieces == s.objs[d].pieces
  {
  }

  /** The cached address is set at most once: as long as the object lives it stays, with the same bytes in it. */
  lemma {:induction false} CachedForGood(s: State, run: seq<Action>, d: Ref, buf: Addr)
    requires Inv(s) && Runs(s, run) && Lives(s, run, d) && Cached(s, d, buf)
    ensures Cached(After(s, run), d, buf)
    ensures HasBytes(s, buf, Join(s.objs[d].pieces)) && HasBytes(After(s, run), buf, Join(s.objs[d].pieces))
    decreases |run|
  {
    assert ObjOk(s, d);
    hide Inv;
    hide Step;
    hide Enabled;
    if run != [] {
      StepInv(s, run[0]);
      CachedStep(s, run[0], d, buf);
      CachedForGood(Step(s, run[0]), run[1..], d, buf);
    }
  }

  /**
    All callers get one address, however they race, and it holds the object's bytes as long as the
    object lives.
  */
  lemma OneAddress(s: State, run: seq<Action>, t: Tid, u: Tid)
    requires Reachable(s) && Runs(s, run)
    requires Thr(s, t).Using? && Thr(s, t).result.Some? && Thr(After(s, run), u).Using?
    requires Thr(After(s, run), u).d == Thr(s, t).d && Thr(After(s, run), u).result.Some?
    requires Lives(s, run, Thr(s, t).d)
    ensures Thr(After(s, run), u).result == Thr(s, t).result
    ensures HasBytes(After(s, run), Thr(s, t).result.value, Join(s.objs[Thr(s, t).d].pieces))
  {
    ReachableInv(s);
    assert ThreadOk(s, t);
    hide Reachable;
    hide Step;
    hide Enabled;
    RunInv(s, run);
    assert ThreadOk(After(s, run), u);
    CachedForGood(s, run, Thr(s, t).d, Thr(s, t).result.value);
  }

  /** A call comes back without a buffer only when malloc had none to give. */
  lemma NullOnlyWithoutMemory(s: State, a: Action, t: Tid)
    requires Reachable(s) && Enabled(s, a) && Thr(Step(s, a), t).Using? && Thr(Step(s, a), t).result.None?
    ensures Thr(s, t) == Thr(Step(s, a), t) || a == Malloc(t, None)
  {
  }

  lemma LosersOwn(s: State, t: Tid)
    requires Inv(s)
    ensures Thr(s, t).Losing? ==> Owns(s, t, Thr(s, t).mine) && Thr(s, t).mine in s.heap
  {
    assert ThreadOk(s, t);
  }

  /** What a caller was given is freed only when the object is disposed of, by the last who held it. */
  lemma FreedAtDisposal(s: State, a: Action, d: Ref, buf: Addr)
    requires Reachable(s) && Enabled(s, a) && Cached(s, d, buf) && buf !in Step(s, a).heap
    ensures a.Release? && a.d == d && s.objs[d].holders == {a.t} && d !in Step(s, a).objs
  {
    ReachableInv(s);
    hide Reachable;
    assert ObjOk(s, d);
    LosersOwn(s, a.t);
    if a.Release? && a.d in s.objs && s.objs[a.d].buf.Some? {
      assert Cached(s, a.d, s.objs[a.d].buf.value);
    }
    if a.Release? && s.objs[a.d].holders - {a.t} == {} {
      assert s.objs[a.d].holders == {a.t};
    }
  }

  /** Nothing leaks: with no call in progress, what is allocated is what the live objects cache, each its own. */
  lemma OnlyCachedStay(s: State, buf: Addr)
    requires Reachable(s) && (forall t :: Thr(s, t).Idle? || Thr(s, t).Using?)
    ensures buf in s.heap <==> exists d :: Cached(s, d, buf)
    ensures forall c, d :: Cached(s, c, buf) && Cached(s, d, buf) ==> c == d
  {
    ReachableInv(s);
    hide Reachable;
    assert forall t :: !Owns(s, t, buf);
    forall d | Cached(s, d, buf) ensures buf in s.heap {
      assert ObjOk(s, d);
    }
  }

  // ---------------------------------------------------------------- each buffer is installed or freed, once

  datatype Fate = Installed(buf: Addr) | Discarded(buf: Addr)

  function AllocatesNow(a: Action, t: Tid): seq<Addr> {
    if a.Malloc? && a.t == t && a.given.Some? then [a.given.value] else []
  }

  function SettlesNow(s: State, a: Action, t: Tid): seq<Fate>
    requires Enabled(s, a)
  {
    if a.t != t then []
    else if a.Free? then [Discarded(Thr(s, t).mine)]
    else if a.Cas? && Thr(s, t).d in s.objs && s.objs[Thr(s, t).d].buf.None? then [Installed(Thr(s, t).mine)]
    else []
  }

  ghost function AllocatesIn(s: State, run: seq<Action>, t: Tid): seq<Addr>
    requires Runs(s, run)
    decreases |run|
  {
    if run == [] then [] else AllocatesNow(run[0], t) + AllocatesIn(Step(s, run[0]), run[1..], t)
  }

  ghost function SettlesIn(s: State, run: seq<Action>, t: Tid): seq<Fate>
    requires Runs(s, run)
    decreases |run|
  {
    if run == [] then [] else SettlesNow(s, run[0], t) + SettlesIn(Step(s, run[0]), run[1..], t)
  }

  function Buffers(fates: seq<Fate>): seq<Addr> {
    seq(|fates|, i requires 0 <= i < |fates| => fates[i].buf)
  }

  /** The buffer t has in hand. */
  function InHand(th: Thread): seq<Addr> {
    if th.Copying? || th.Installing? || th.Losing? then [th.mine] else []
  }

  lemma SettleStep(s: State, a: Action, t: Tid)
    requires Inv(s) && Enabled(s, a)
    ensures InHand(Thr(s, t)) + AllocatesNow(a, t) == Buffers(SettlesNow(s, a, t)) + InHand(Thr(Step(s, a), t))
  {
    assert ThreadOk(s, t);
    if a.t == t && a.Copy? {
      SettleCopy(s, a);
    }
    if a.Release? {
      SettleRelease(s, a);
    }
    hide Inv;
    hide Join;
  }

  lemma SettleCopy(s: State, a: Action)
    requires Inv(s) && Enabled(s, a) && a.Copy?
    ensures InHand(Thr(Step(s, a), a.t)) == InHand(Thr(s, a.t))
  {
    assert ThreadOk(s, a.t);
  }

  lemma SettleRelease(s: State, a: Action)
    requires Inv(s) && Enabled(s, a) && a.Release?
    ensures Step(s, a).threads == s.threads
  {
    assert ObjOk(s, a.d);
    assert s.objs[a.d].buf.Some? ==> Cached(s, a.d, s.objs[a.d].buf.value);
  }

  /**
    In order: each buffer a thread allocates is installed or freed by it, once, but for one it may
    still have in hand.
  */
  lemma {:induction false} EveryBufferSettled(s: State, run: seq<Action>, t: Tid)
    requires Inv(s) && Runs(s, run)
    ensures InHand(Thr(s, t)) + AllocatesIn(s, run, t) == Buffers(SettlesIn(s, run, t)) + InHand(Thr(After(s, run), t))
    decreases |run|
  {
    hide Inv;
    hide Step;
    hide Enabled;
    hide InHand;
    hide AllocatesNow;
    hide SettlesNow;
    if run != [] {
      var (a, rest) := (run[0], run[1..]);
      var s' := Step(s, a);
      StepInv(s, a);
      SettleStep(s, a, t);
      EveryBufferSettled(s', rest, t);
      assert Buffers(SettlesIn(s, run, t)) == Buffers(SettlesNow(s, a, t)) + Buffers(SettlesIn(s', rest, t));
      calc {
        InHand(Thr(s, t)) + AllocatesIn(s, run, t);
        (InHand(Thr(s, t)) + AllocatesNow(a, t)) + AllocatesIn(s', rest, t);
        Buffers(SettlesNow(s, a, t)) + (InHand(Thr(s', t)) + AllocatesIn(s', rest, t));
        Buffers(SettlesIn(s, run, t)) + InHand(Thr(After(s, run), t));
      }
    }
  }

  // ---------------------------------------------------------------- the bytes of an object

  /** With a composite's records as the pieces, the buffer holds what the object stands for. */
  lemma BufferHoldsBytes(objs: Objects, d: Ref, s: State, buf: Addr)
    requires ObjectsOk(objs) && d in objs && |objs[d].records| > 1 && d != EMPTY
    requires Reachable(s) && Cached(s, d, buf) && s.objs[d].pieces == PiecesOf(objs, objs[d].records)
    ensures HasBytes(s, buf, Bytes(objs, d))
  {
    ReachableInv(s);
    hide Reachable;
    assert ObjOk(s, d);
    hide Inv;
    JoinIsFlat(objs, objs[d].records);
  }

  // ---------------------------------------------------------------- the code

  ghost predicate ByOthers(t: Tid, run: seq<Action>) {
    forall a :: a in run ==> a.t != t
  }

  lemma OtherStep(s: State, a: Action, t: Tid, d: Ref)
    requires Inv(s) && Enabled(s, a) && a.t != t && Holds(s, t, d)
    ensures var s' := Step(s, a);
      && Thr(s', t) == Thr(s, t) && Holds(s', t, d) && s'.objs[d].pieces == s.objs[d].pieces
      && (s.objs[d].buf.Some? ==> s'.objs[d].buf == s.objs[d].buf)
  {
    assert t in s.objs[d].holders - {a.t};
  }

  /** What a caller may rely on across any run of the others' steps. */
  lemma {:induction false} OthersRely(s: State, run: seq<Action>, t: Tid, d: Ref)
    requires Inv(s) && Runs(s, run) && ByOthers(t, run) && Holds(s, t, d)
    ensures var s' := After(s, run);
      && Inv(s') && Thr(s', t) == Thr(s, t) && Holds(s', t, d) && s'.objs[d].pieces == s.objs[d].pieces
      && (s.objs[d].buf.Some? ==> s'.objs[d].buf == s.objs[d].buf)
    decreases |run|
  {
    hide Inv;
    hide Step;
    hide Enabled;
    if run != [] {
      StepInv(s, run[0]);
      OtherStep(s, run[0], t, d);
      OthersRely(Step(s, run[0]), run[1..], t, d);
    }
  }

  class Process {
    var objs: map<Ref, Composite>
    var heap: map<Addr, seq<Byte>>
    var threads: map<Tid, Thread>  // where each thread is

    ghost function View(): State
      reads this
    {
      State(objs, heap, threads)
    }

    constructor ()
      ensures View() == Init && Inv(View())
    {
      objs, heap, threads := map[], map[], map[];
    }

    /** Any run of steps of the others (see OthersRely); the empty one is one of them. */
    method Others(t: Tid, d: Ref)
      requires Inv(View()) && Holds(View(), t, d)
      modifies this
      ensures Inv(View()) && Thr(View(), t) == old(Thr(View(), t)) && Holds(View(), t, d)
      ensures objs[d].pieces == old(objs[d].pieces)
      ensures old(objs[d].buf).Some? ==> objs[d].buf == old(objs[d].buf)
    {
    }

    /** _dispatch_data_map_direct, on a composite of several records */
    method MapDirect(t: Tid, d: Ref) returns (buffer: Option<Addr>)
      requires Inv(View()) && Holds(View(), t, d) && Thr(View(), t).Idle?
      modifies this
      ensures Inv(View()) && Holds(View(), t, d) && objs[d].pieces == old(objs[d].pieces)
      ensures Thr(View(), t) == if buffer.Some? then Using(d, buffer) else Allocating(d)
      ensures buffer.Some? ==> objs[d].buf == buffer
      ensures old(objs[d].buf).Some? ==> buffer == old(objs[d].buf)
    {
      hide Inv;
      StepInv(View(), Call(t, d));
      threads := threads[t := Mapping(d)];
      Others(t, d);
      StepInv(View(), Load(t));
      buffer := objs[d].buf;
      threads := threads[t := if buffer.Some? then Using(d, buffer) else Allocating(d)];
    }

    /** malloc: NULL when it fails, else any address that is not allocated */
    method Malloc(t: Tid, d: Ref, fails: bool) returns (mine: Option<Addr>)
      requires Inv(View()) && Holds(View(), t, d) && Thr(View(), t) == Allocating(d) && |objs[d].pieces| > 0
      modifies this
      ensures Inv(View()) && Holds(View(), t, d) && objs[d].pieces == old(objs[d].pieces)
      ensures mine.None? <==> fails
      ensures Thr(View(), t) == if mine.Some? then Copying(d, mine.value, 0) else Using(d, None)
      ensures old(objs[d].buf).Some? ==> objs[d].buf == old(objs[d].buf)
    {
      hide Inv;
      Others(t, d);
      if fails {
        mine := None;
        StepInv(View(), Action.Malloc(t, None));
        threads := threads[t := Using(d, None)];
      } else {
        ghost var free := FreeAddress(heap.Keys);
        var a: Addr :| a !in heap;
        mine := Some(a);
        StepInv(View(), Action.Malloc(t, mine));
        heap, threads := heap[mine.value := []], threads[t := Copying(d, mine.value, 0)];
      }
    }

    /** _dispatch_data_flatten: the copies made by dispatch_data_apply, region by region */
    method Flatten(t: Tid, d: Ref, mine: Addr)
      requires Inv(View()) && Holds(View(), t, d) && Thr(View(), t) == Copying(d, mine, 0)
      modifies this
      ensures Inv(View()) && Holds(View(), t, d) && objs[d].pieces == old(objs[d].pieces)
      ensures Thr(View(), t) == Installing(d, mine)
      ensures old(objs[d].buf).Some? ==> objs[d].buf == old(objs[d].buf)
    {
      var k := 0;
      InFlight(View(), t);
      hide Inv;
      while k < |objs[d].pieces|
        invariant Inv(View()) && Holds(View(), t, d) && objs[d].pieces == old(objs[d].pieces)
        invariant k <= |objs[d].pieces|
        invariant Thr(View(), t) == if k < |objs[d].pieces| then Copying(d, mine, k) else Installing(d, mine)
        invariant old(objs[d].buf).Some? ==> objs[d].buf == old(objs[d].buf)
        decreases |old(objs[d].pieces)| - k
      {
        Others(t, d);
        InFlight(View(), t);
        StepInv(View(), Copy(t));
        heap := heap[mine := heap[mine] + objs[d].pieces[k]];
        k := k + 1;
        threads := threads[t := if k < |objs[d].pieces| then Copying(d, mine, k) else Installing(d, mine)];
      }
    }

    /** The compare-and-swap of buf, and the loser's free. */
    method Install(t: Tid, d: Ref, mine: Addr) returns (buffer: Addr)
      requires Inv(View()) && Holds(View(), t, d) && Thr(View(), t) == Installing(d, mine)
      modifies this
      ensures Inv(View()) && Holds(View(), t, d) && objs[d].pieces == old(objs[d].pieces)
      ensures Thr(View(), t) == Using(d, Some(buffer)) && objs[d].buf == Some(buffer)
      ensures old(objs[d].buf).Some? ==> Some(buffer) == old(objs[d].buf)
    {
      hide Inv;
      Others(t, d);
      StepInv(View(), Cas(t));
      if objs[d].buf.None? {
        objs, threads := objs[d := objs[d].(buf := Some(mine))], threads[t := Using(d, Some(mine))];
        return mine;
      }
      buffer := objs[d].buf.value;
      threads := threads[t := Losing(d, mine, buffer)];
      Others(t, d);
      InFlight(View(), t);
      StepInv(View(), Free(t));
      heap, threads := heap - {mine}, threads[t := Using(d, Some(buffer))];
    }

    /**
      _dispatch_data_get_flattened_bytes, any steps of the others in between; `fails` is what malloc
      will do if it is called.  NULL only if it fails, and not when a buffer was cached at entry; else
      the address the object caches from then on, which is the one it cached before if it did; and
      the object's bytes are there.
    */
    method GetFlattenedBytes(t: Tid, d: Ref, fails: bool) returns (buffer: Option<Addr>)
      requires Inv(View()) && Holds(View(), t, d) && Thr(View(), t).Idle?
      modifies this
      ensures Inv(View()) && Holds(View(), t, d) && Thr(View(), t) == Using(d, buffer)
      ensures buffer.None? ==> fails && old(objs[d].buf).None?
      ensures buffer.Some? ==> objs[d].buf == buffer && HasBytes(View(), buffer.value, Join(old(objs[d].pieces)))
      ensures old(objs[d].buf).Some? ==> buffer == old(objs[d].buf)
    {
      InFlight(View(), t);
      PiecesThere(View(), d);
      buffer := MapDirect(t, d);
      if buffer.None? {
        var mine := Malloc(t, d, fails);
        if mine.Some? {
          Flatten(t, d, mine.value);
          var installed := Install(t, d, mine.value);
          buffer := Some(installed);
        }
      }
      PiecesThere(View(), d);
    }
  }

  /** Memory never runs out of addresses. */
  lemma {:induction false} FreeAddress(keys: set<Addr>) returns (a: Addr)
    ensures a !in keys && forall k :: k in keys ==> k < a
  {
    if keys == {} {
      a := 0;
    } else {
      var k :| k in keys;
      var b := FreeAddress(keys - {k});
      a := if b <= k then k + 1 else b;
      assert forall j :: j in keys ==> j == k || j in keys - {k};
    }
  }

  lemma InFlight(s: State, t: Tid)
    requires Inv(s)
    ensures ThreadOk(s, t)
  {
  }

  lemma PiecesThere(s: State, d: Ref)
    requires Inv(s)
    ensures ObjOk(s, d)
  {
  }
}
