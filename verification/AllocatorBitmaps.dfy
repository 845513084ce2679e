/**
  The continuation allocator's bitmaps under concurrent allocation, free and page reclaim:
  a state machine with one step per access to a shared bitmap.  A bitmap is the set of its
  set bits.  Which bitmap an allocation tries is left open: the search order and the
  supermaps only choose it.
*/
module AllocatorBitmaps {
  import opened Common

  type Tid = nat
  type Bits = set<nat>
  datatype Slot = Slot(bitmap: nat, index: nat)

  /**
    CONTINUATIONS_PER_BITMAP, BITMAPS_PER_SUPERMAP, BITMAPS_PER_PAGE.  Bitmaps below mainMaps
    are those of maps[][]; from there on they are those of packed first pages, a few of
    which (`short`) govern less than a whole bitmap of continuations.
  */
  datatype Config = Config(perBitmap: nat, perSupermap: nat, perPage: nat, mainMaps: nat, short: map<nat, nat>) {
    predicate Valid() {
      && perBitmap >= 1 && perSupermap >= 1 && perPage >= 1 && mainMaps % perPage == 0
      && forall b :: b in short ==> mainMaps <= b && short[b] <= perBitmap
    }

    function AllOnes(): Bits { Upto(perBitmap) }

    predicate InMain(b: nat) { b < mainMaps }

    /** How many continuations bitmap b governs. */
    function Size(b: nat): nat { if b in short then short[b] else perBitmap }

    /** The k-th bitmap of a page. */
    function InPage(page: nat, k: nat): nat { page * perPage + k }

    predicate IsPage(page: nat) { InPage(page, perPage) <= mainMaps }
  }

  datatype Thread =
    | Idle
    | Searching(b: nat)                  // os_atomic_set_first_bit, before the load
    | Loaded(b: nat, bits: Bits)         // ... before its compare-and-swap
    | Marking(b: nat)                    // mark_bitmap_as_full_if_still_full, before its first test
    | MarkFull(b: nat)                   // ... which saw all ones, before the supermap is loaded
    | MarkLoaded(b: nat, sup: Bits)      // ... with a supermap value, before its compare-and-swap
    | MarkAgain(b: nat, sup: Bits)        // ... which failed, before the second test
    | Freeing(slot: Slot)                // before the and that clears the bit
    | Cleared(b: nat, empty: bool)       // before the supermap bit is cleared
    | Scanning(page: nat, k: nat)        // are all bitmaps of the page zero?
    | Locking(page: nat, k: nat)         // k bitmaps taken, before the next compare-and-swap
    | Owning(page: nat)                  // all taken, before madvise
    | Unlocking(page: nat, k: nat)       // bitmaps below k still taken

  datatype State = State(
    cfg: Config,
    maps: map<nat, Bits>,
    supers: map<nat, Bits>,
    threads: map<Tid, Thread>,
    held: map<Tid, set<Slot>>)  // continuations each thread has and may use

  datatype Action =
    | AllocStart(t: Tid, b: nat)
    | AllocLoad(t: Tid)
    | AllocCas(t: Tid)
    | AllocBts(t: Tid)
    | MarkTest(t: Tid)
    | MarkLoad(t: Tid)
    | MarkCas(t: Tid, spurious: bool)
    | MarkRetest(t: Tid)
    | HandOver(t: Tid, u: Tid, slot: Slot)
    | FreeStart(t: Tid, slot: Slot)
    | FreeAnd(t: Tid)
    | FreeSuper(t: Tid)
    | Scan(t: Tid)
    | LockCas(t: Tid)
    | Madvise(t: Tid)
    | Unlock(t: Tid)

  function Get<K, V>(m: map<K, V>, k: K, default: V): V {
    if k in m then m[k] else default
  }

  function At(s: State, b: nat): Bits { Get(s.maps, b, {}) }

  function Thr(s: State, t: Tid): Thread { Get(s.threads, t, Idle) }

  function Held(s: State, t: Tid): set<Slot> { Get(s.held, t, {}) }

  function Super(s: State, b: nat): nat
    requires s.cfg.Valid()
  {
    b / s.cfg.perSupermap
  }

  /** ffs(~bits) - 1: the lowest index that is not set. */
  function FirstUnset(bits: Bits, from: nat): (i: nat)
    ensures i >= from && i !in bits
    ensures forall j :: from <= j < i ==> j in bits
    decreases |bits|
  {
    if from !in bits then from
    else
      var rest := bits - {from};
      assert forall j :: j != from ==> (j in rest <==> j in bits);
      FirstUnset(rest, from + 1)
  }

  ghost predicate Enabled(s: State, a: Action) {
    s.cfg.Valid() &&
    match a
    case AllocStart(t, _) => Thr(s, t).Idle?
    case AllocLoad(t) => Thr(s, t).Searching?
    case AllocCas(t) => Thr(s, t).Loaded?
    case AllocBts(t) => Thr(s, t).Loaded?
    case MarkTest(t) => Thr(s, t).Marking?
    case MarkLoad(t) => Thr(s, t).MarkFull?
    case MarkCas(t, _) => Thr(s, t).MarkLoaded?
    case MarkRetest(t) => Thr(s, t).MarkAgain?
    case HandOver(t, u, slot) => Thr(s, t).Idle? && slot in Held(s, t) && t != u
    case FreeStart(t, slot) => Thr(s, t).Idle? && slot in Held(s, t)
    case FreeAnd(t) => Thr(s, t).Freeing?
    case FreeSuper(t) => Thr(s, t).Cleared?
    case Scan(t) => Thr(s, t).Scanning?
    case LockCas(t) => Thr(s, t).Locking?
    case Madvise(t) => Thr(s, t).Owning?
    case Unlock(t) => Thr(s, t).Unlocking?
  }

  /** First-page bitmaps have no supermap bit and are not reclaimed. */
  function AfterTaking(cfg: Config, b: nat): Thread {
    if cfg.InMain(b) then Marking(b) else Idle
  }

  /** Where a thread stands that has taken one bitmap more. */
  function AfterLock(cfg: Config, page: nat, k: nat): Thread {
    if k + 1 < cfg.perPage then Locking(page, k + 1) else Owning(page)
  }

  function Step(s: State, a: Action): State
    requires Enabled(s, a)
  {
    match a
    case AllocStart(t, b) => s.(threads := s.threads[t := Searching(b)])
    // b = *p
    case AllocLoad(t) =>
      var b := Thr(s, t).b;
      s.(threads := s.threads[t := Loaded(b, At(s, b))])
    // full: give up; else cmpxchg(p, b, b | mask), again from the load if it fails
    case AllocCas(t) =>
      var (b, bits) := (Thr(s, t).b, Thr(s, t).bits);
      var i := FirstUnset(bits, 0);
      if i >= s.cfg.Size(b) then s.(threads := s.threads[t := Idle])
      else if At(s, b) != bits then s.(threads := s.threads[t := Searching(b)])
      else s.(maps := s.maps[b := bits + {i}], threads := s.threads[t := AfterTaking(s.cfg, b)],
              held := s.held[t := Held(s, t) + {Slot(b, i)}])
    // the x86 form: lock bts on that bit, again from the load if it was set meanwhile
    case AllocBts(t) =>
      var (b, bits) := (Thr(s, t).b, Thr(s, t).bits);
      var i := FirstUnset(bits, 0);
      if i >= s.cfg.Size(b) then s.(threads := s.threads[t := Idle])
      else if i in At(s, b) then s.(threads := s.threads[t := Searching(b)])
      else s.(maps := s.maps[b := At(s, b) + {i}], threads := s.threads[t := AfterTaking(s.cfg, b)],
              held := s.held[t := Held(s, t) + {Slot(b, i)}])
    case MarkTest(t) =>
      var b := Thr(s, t).b;
      s.(threads := s.threads[t := if At(s, b) == s.cfg.AllOnes() then MarkFull(b) else Idle])
    case MarkLoad(t) =>
      var b := Thr(s, t).b;
      s.(threads := s.threads[t := MarkLoaded(b, Get(s.supers, Super(s, b), {}))])
    // a weak compare-and-swap, which may also fail for no reason
    case MarkCas(t, spurious) =>
      var (b, sup) := (Thr(s, t).b, Thr(s, t).sup);
      var now := Get(s.supers, Super(s, b), {});
      if now == sup && !spurious
      then s.(supers := s.supers[Super(s, b) := sup + {b % s.cfg.perSupermap}], threads := s.threads[t := Idle])
      else s.(threads := s.threads[t := MarkAgain(b, now)])
    case MarkRetest(t) =>
      var (b, sup) := (Thr(s, t).b, Thr(s, t).sup);
      s.(threads := s.threads[t := if At(s, b) == s.cfg.AllOnes() then MarkLoaded(b, sup) else Idle])
    case HandOver(t, u, slot) =>
      s.(held := s.held[t := Held(s, t) - {slot}][u := Held(s, u) + {slot}])
    case FreeStart(t, slot) => s.(threads := s.threads[t := Freeing(slot)])
    // and-and-fetch
    case FreeAnd(t) =>
      var slot := Thr(s, t).slot;
      var bits := At(s, slot.bitmap) - {slot.index};
      var after := if s.cfg.InMain(slot.bitmap) then Cleared(slot.bitmap, bits == {}) else Idle;
      s.(maps := s.maps[slot.bitmap := bits], threads := s.threads[t := after],
         held := s.held[t := Held(s, t) - {slot}])
    case FreeSuper(t) =>
      var (b, empty) := (Thr(s, t).b, Thr(s, t).empty);
      s.(supers := s.supers[Super(s, b) := Get(s.supers, Super(s, b), {}) - {b % s.cfg.perSupermap}],
         threads := s.threads[t := if empty then Scanning(b / s.cfg.perPage, 0) else Idle])
    case Scan(t) =>
      var (page, k) := (Thr(s, t).page, Thr(s, t).k);
      s.(threads := s.threads[t := if At(s, s.cfg.InPage(page, k)) != {} then Idle
                                   else if k + 1 < s.cfg.perPage then Scanning(page, k + 1)
                                   else Locking(page, 0)])
    // cmpxchg(&page_bitmaps[k], 0, all ones)
    case LockCas(t) =>
      var (page, k) := (Thr(s, t).page, Thr(s, t).k);
      var b := s.cfg.InPage(page, k);
      if At(s, b) != {} then s.(threads := s.threads[t := Unlocking(page, k)])
      else s.(maps := s.maps[b := s.cfg.AllOnes()],
              threads := s.threads[t := AfterLock(s.cfg, page, k)])
    case Madvise(t) => s.(threads := s.threads[t := Unlocking(Thr(s, t).page, s.cfg.perPage)])
    // page_bitmaps[--last_locked] = 0, index 0 last
    case Unlock(t) =>
      var (page, k) := (Thr(s, t).page, Thr(s, t).k);
      if k == 0 then s.(threads := s.threads[t := Idle])
      else s.(maps := s.maps[s.cfg.InPage(page, k - 1) := {}],
              threads := s.threads[t := if k > 1 then Unlocking(page, k - 1) else Idle])
  }

  /** A step changes the place of its own thread only. */
  lemma OthersStand(s: State, a: Action)
    requires Enabled(s, a)
    ensures Step(s, a).cfg == s.cfg && forall u :: u != a.t ==> Thr(Step(s, a), u) == Thr(s, u)
  {
    hide FirstUnset;
    hide Config.InPage;
    hide Config.InMain;
    hide Config.Size;
    hide Config.AllOnes;
    hide Config.Valid;
    hide AfterLock;
    hide AfterTaking;
    hide Held;
    hide At;
    var s' := Step(s, a);
    assert s'.threads == s.threads || s'.threads == s.threads[a.t := Thr(s', a.t)];
    hide Step;
    hide Enabled;
  }

  // ---------------------------------------------------------------- the invariant

  /** The first k bitmaps of a page. */
  function Taken(cfg: Config, page: nat, k: nat): (r: set<nat>)
    ensures forall b :: b in r ==> cfg.InPage(page, 0) <= b < cfg.InPage(page, k)
  {
    if k == 0 then {} else Taken(cfg, page, k - 1) + {cfg.InPage(page, k - 1)}
  }

  /** The bitmaps a thread has taken to madvise their page. */
  function Locks(cfg: Config, th: Thread): set<nat> {
    match th
    case Locking(page, k) => Taken(cfg, page, k)
    case Owning(page) => Taken(cfg, page, cfg.perPage)
    case Unlocking(page, k) => Taken(cfg, page, k)
    case _ => {}
  }

  predicate LocksBitmap(s: State, t: Tid, b: nat) {
    b in Locks(s.cfg, Thr(s, t))
  }

  predicate HasSlot(s: State, t: Tid, slot: Slot) {
    slot in Held(s, t)
  }

  /** Nobody has a continuation of bitmap b. */
  ghost predicate NoneHeld(s: State, b: nat) {
    forall t, i :: !HasSlot(s, t, Slot(b, i))
  }

  /**
    A bitmap's set bits are exactly its held continuations, each held once; or one thread has
    taken the whole bitmap, all its bits are set, and nothing in it is held.
  */
  ghost predicate BitmapOk(s: State, b: nat) {
    && At(s, b) <= Upto(s.cfg.Size(b))
    && (forall t, i :: HasSlot(s, t, Slot(b, i)) ==> i in At(s, b))
    && (forall t, u, i :: HasSlot(s, t, Slot(b, i)) && HasSlot(s, u, Slot(b, i)) ==> t == u)
    && (forall t :: LocksBitmap(s, t, b) ==> At(s, b) == s.cfg.AllOnes() && NoneHeld(s, b))
    && (forall t, u :: LocksBitmap(s, t, b) && LocksBitmap(s, u, b) ==> t == u)
    && (forall i :: i in At(s, b) ==>
          (exists t :: HasSlot(s, t, Slot(b, i))) || (exists t :: LocksBitmap(s, t, b)))
  }

  predicate ThreadOk(s: State, t: Tid) {
    match Thr(s, t)
    case Freeing(slot) => HasSlot(s, t, slot)
    case Marking(b) => s.cfg.InMain(b)
    case MarkFull(b) => s.cfg.InMain(b)
    case MarkLoaded(b, _) => s.cfg.InMain(b)
    case MarkAgain(b, _) => s.cfg.InMain(b)
    case Cleared(b, _) => s.cfg.InMain(b)
    case Scanning(page, k) => s.cfg.IsPage(page) && k < s.cfg.perPage
    case Locking(page, k) => s.cfg.IsPage(page) && k < s.cfg.perPage
    case Owning(page) => s.cfg.IsPage(page)
    case Unlocking(page, k) => s.cfg.IsPage(page) && k <= s.cfg.perPage
    case _ => true
  }

  ghost predicate Inv(s: State) {
    s.cfg.Valid() && (forall b :: BitmapOk(s, b)) && (forall t :: ThreadOk(s, t))
  }

  // ---------------------------------------------------------------- every step keeps it

  /** Nothing about bitmap b changes. */
  lemma BitmapFrame(s: State, s': State, b: nat)
    requires BitmapOk(s, b) && s'.cfg == s.cfg && At(s', b) == At(s, b)
    requires forall t, i :: HasSlot(s', t, Slot(b, i)) <==> HasSlot(s, t, Slot(b, i))
    requires forall t :: LocksBitmap(s', t, b) <==> LocksBitmap(s, t, b)
    ensures BitmapOk(s', b)
  {
    forall i | i in At(s', b)
      ensures (exists t :: HasSlot(s', t, Slot(b, i))) || (exists t :: LocksBitmap(s', t, b))
    {
      assert i in At(s, b);
    }
  }

  /** A step of t at bitmap b leaves every other bitmap and every other thread alone. */
  lemma OthersKept(s: State, s': State, t: Tid, b: nat)
    requires Inv(s) && s'.cfg == s.cfg
    requires forall c: nat :: c != b ==> At(s', c) == At(s, c)
    requires forall u, slot: Slot :: slot.bitmap != b ==> (HasSlot(s', u, slot) <==> HasSlot(s, u, slot))
    requires forall u, c :: c != b || u != t ==> (LocksBitmap(s', u, c) <==> LocksBitmap(s, u, c))
    requires forall u :: u != t ==> Thr(s', u) == Thr(s, u) && (Thr(s, u).Freeing? ==> HasSlot(s', u, Thr(s, u).slot))
    requires BitmapOk(s', b) && ThreadOk(s', t)
    ensures Inv(s')
  {
    hide BitmapOk;
    forall c ensures BitmapOk(s', c) {
      if c != b {
        assert BitmapOk(s, c);
        BitmapFrame(s, s', c);
      }
    }
    forall u ensures ThreadOk(s', u) {
      if u != t {
        assert ThreadOk(s, u);
      }
    }
  }

  /** A step that moves no bit, holder or lock: only where thread t stands. */
  lemma MoveOnly(s: State, s': State, t: Tid, th: Thread)
    requires Inv(s) && s'.cfg == s.cfg && s'.maps == s.maps && s'.held == s.held
    requires s'.threads == s.threads[t := th]
    requires Locks(s.cfg, th) == Locks(s.cfg, Thr(s, t)) && ThreadOk(s', t)
    ensures Inv(s')
  {
    hide BitmapOk;
    assert BitmapOk(s, 0);
    assert forall u :: u != t && Thr(s, u).Freeing? ==> ThreadOk(s, u);
    BitmapFrame(s, s', 0);
    OthersKept(s, s', t, 0);
  }

  predicate TouchesNoMap(a: Action) {
    !a.AllocCas? && !a.AllocBts? && !a.FreeAnd? && !a.LockCas? && !a.Unlock? && !a.HandOver?
  }

  lemma ReadStepInv(s: State, a: Action)
    requires Inv(s) && Enabled(s, a) && TouchesNoMap(a)
    ensures Inv(Step(s, a))
  {
    hide BitmapOk;
    var s' := Step(s, a);
    assert ThreadOk(s, a.t);
    if a.FreeSuper? {
      PageOfBitmap(s.cfg, Thr(s, a.t).b);
    }
    ReadStepMoves(s, a);
    hide Step;
    MoveOnly(s, s', a.t, Thr(s', a.t));
  }

  /** Pages do not straddle the end of the main bitmaps. */
  lemma PageOfBitmap(cfg: Config, b: nat)
    requires cfg.Valid() && cfg.InMain(b)
    ensures cfg.IsPage(b / cfg.perPage)
  {
    var w, pages := cfg.perPage, cfg.mainMaps / cfg.perPage;
    assert b / w * w <= b && pages * w == cfg.mainMaps;
    Cancel(b / w, pages, w);
    Product(b / w + 1, pages, w);
  }

  lemma ReadStepMoves(s: State, a: Action)
    requires Enabled(s, a) && TouchesNoMap(a) && ThreadOk(s, a.t)
    requires a.FreeSuper? ==> s.cfg.IsPage(Thr(s, a.t).b / s.cfg.perPage)
    ensures var s', t := Step(s, a), a.t;
      && s'.cfg == s.cfg && s'.maps == s.maps && s'.held == s.held && s'.threads == s.threads[t := Thr(s', t)]
      && Locks(s.cfg, Thr(s', t)) == Locks(s.cfg, Thr(s, t)) && ThreadOk(s', t)
  {
  }

  lemma AllocCasInv(s: State, t: Tid)
    requires Inv(s) && Enabled(s, AllocCas(t))
    ensures Inv(Step(s, AllocCas(t)))
  {
    hide BitmapOk;
    var s', b, bits := Step(s, AllocCas(t)), Thr(s, t).b, Thr(s, t).bits;
    var i := FirstUnset(bits, 0);
    if i >= s.cfg.Size(b) || At(s, b) != bits {
      MoveOnly(s, s', t, Thr(s', t));
    } else {
      Taking(s, s', t, b, i);
    }
  }

  lemma AllocBtsInv(s: State, t: Tid)
    requires Inv(s) && Enabled(s, AllocBts(t))
    ensures Inv(Step(s, AllocBts(t)))
  {
    hide BitmapOk;
    var s', b, bits := Step(s, AllocBts(t)), Thr(s, t).b, Thr(s, t).bits;
    var i := FirstUnset(bits, 0);
    if i >= s.cfg.Size(b) || i in At(s, b) {
      MoveOnly(s, s', t, Thr(s', t));
    } else {
      Taking(s, s', t, b, i);
    }
  }

  /** Setting an unset bit gives t a continuation nobody holds. */
  lemma Taking(s: State, s': State, t: Tid, b: nat, i: nat)
    requires Inv(s) && i < s.cfg.Size(b) && i !in At(s, b) && Locks(s.cfg, Thr(s, t)) == {}
    requires s' == s.(maps := s.maps[b := At(s, b) + {i}], threads := s.threads[t := AfterTaking(s.cfg, b)],
                      held := s.held[t := Held(s, t) + {Slot(b, i)}])
    ensures Inv(s')
  {
    hide BitmapOk;
    assert forall u :: u != t && Thr(s, u).Freeing? ==> ThreadOk(s, u);
    assert BitmapOk(s, b);
    TakingBitmap(s, s', t, b, i);
    OthersKept(s, s', t, b);
  }

  lemma TakingBitmap(s: State, s': State, t: Tid, b: nat, i: nat)
    requires BitmapOk(s, b) && i < s.cfg.Size(b) <= s.cfg.perBitmap && i !in At(s, b) && s'.cfg == s.cfg
    requires At(s', b) == At(s, b) + {i}
    requires forall u, j :: HasSlot(s', u, Slot(b, j)) <==> HasSlot(s, u, Slot(b, j)) || (u == t && j == i)
    requires forall u :: LocksBitmap(s', u, b) <==> LocksBitmap(s, u, b)
    ensures BitmapOk(s', b)
  {
    assert forall u :: !LocksBitmap(s, u, b);
    assert forall u :: !HasSlot(s, u, Slot(b, i));
    forall j | j in At(s', b)
      ensures exists u :: HasSlot(s', u, Slot(b, j))
    {
      if j == i {
        assert HasSlot(s', t, Slot(b, j));
      } else {
        var u :| HasSlot(s, u, Slot(b, j));
        assert HasSlot(s', u, Slot(b, j));
      }
    }
  }

  lemma FreeAndInv(s: State, t: Tid)
    requires Inv(s) && Enabled(s, FreeAnd(t))
    ensures Inv(Step(s, FreeAnd(t)))
  {
    var s', slot := Step(s, FreeAnd(t)), Thr(s, t).slot;
    assert ThreadOk(s, t);
    assert forall u :: u != t && Thr(s, u).Freeing? ==> ThreadOk(s, u);
    assert forall u, j :: HasSlot(s', u, Slot(slot.bitmap, j)) <==>
      HasSlot(s, u, Slot(slot.bitmap, j)) && (u != t || j != slot.index);
    assert BitmapOk(s, slot.bitmap);
    FreeingBitmap(s, s', t, slot.bitmap, slot.index);
    hide BitmapOk;
    OthersKept(s, s', t, slot.bitmap);
  }

  /** Clearing the bit of a continuation t holds leaves it to nobody. */
  lemma FreeingBitmap(s: State, s': State, t: Tid, b: nat, i: nat)
    requires BitmapOk(s, b) && HasSlot(s, t, Slot(b, i)) && s'.cfg == s.cfg
    requires At(s', b) == At(s, b) - {i}
    requires forall u, j :: HasSlot(s', u, Slot(b, j)) <==> HasSlot(s, u, Slot(b, j)) && (u != t || j != i)
    requires forall u :: LocksBitmap(s', u, b) <==> LocksBitmap(s, u, b)
    ensures BitmapOk(s', b)
  {
    assert forall u :: !LocksBitmap(s, u, b);
    forall j | j in At(s', b)
      ensures exists u :: HasSlot(s', u, Slot(b, j))
    {
      var u :| HasSlot(s, u, Slot(b, j));
      assert HasSlot(s', u, Slot(b, j));
    }
  }

  lemma HandOverInv(s: State, t: Tid, u: Tid, slot: Slot)
    requires Inv(s) && Enabled(s, HandOver(t, u, slot))
    ensures Inv(Step(s, HandOver(t, u, slot)))
  {
    var s' := Step(s, HandOver(t, u, slot));
    assert HasSlot(s, t, slot);
    assert forall v :: v != t && Thr(s, v).Freeing? ==> ThreadOk(s, v);
    assert BitmapOk(s, slot.bitmap);
    hide BitmapOk;
    assert forall v, x: Slot ::
        HasSlot(s', v, x) <==> (HasSlot(s, v, x) && (v != t || x != slot)) || (v == u && x == slot);
    assert s'.cfg == s.cfg && s'.maps == s.maps && s'.threads == s.threads;
    hide Step;
    hide HasSlot;
    HandingBitmap(s, s', t, u, slot.bitmap, slot.index);
    OthersKept(s, s', t, slot.bitmap);
  }

  lemma HandingBitmap(s: State, s': State, t: Tid, u: Tid, b: nat, i: nat)
    requires BitmapOk(s, b) && HasSlot(s, t, Slot(b, i)) && t != u && s'.cfg == s.cfg && At(s', b) == At(s, b)
    requires forall v, j :: j != i || (v != t && v != u) ==> (HasSlot(s', v, Slot(b, j)) <==> HasSlot(s, v, Slot(b, j)))
    requires HasSlot(s', u, Slot(b, i)) && !HasSlot(s', t, Slot(b, i))
    requires forall v :: LocksBitmap(s', v, b) <==> LocksBitmap(s, v, b)
    ensures BitmapOk(s', b)
  {
    assert forall v :: !LocksBitmap(s, v, b);
    assert forall v :: v != t ==> !HasSlot(s, v, Slot(b, i));
    forall j | j in At(s', b)
      ensures exists v :: HasSlot(s', v, Slot(b, j))
    {
      var v :| HasSlot(s, v, Slot(b, j));
      assert HasSlot(s', if j == i then u else v, Slot(b, j));
    }
  }

  lemma LockCasInv(s: State, t: Tid)
    requires Inv(s) && Enabled(s, LockCas(t))
    ensures Inv(Step(s, LockCas(t)))
  {
    hide BitmapOk;
    var s', page, k := Step(s, LockCas(t)), Thr(s, t).page, Thr(s, t).k;
    assert ThreadOk(s, t);
    LockCasMoves(s, t);
    hide Step;
    hide Locks;
    if At(s, s.cfg.InPage(page, k)) != {} {
      MoveOnly(s, s', t, Thr(s', t));
    } else {
      LockingOne(s, s', t, s.cfg.InPage(page, k), Thr(s', t));
    }
  }

  lemma InPageIsMain(cfg: Config, page: nat, k: nat)
    requires cfg.IsPage(page) && k < cfg.perPage
    ensures cfg.InMain(cfg.InPage(page, k))
  {
  }

  /** Either nothing but the thread's place changes, or it has one bitmap more. */
  lemma LockCasMoves(s: State, t: Tid)
    requires Enabled(s, LockCas(t)) && ThreadOk(s, t)
    ensures var (s', th) := (Step(s, LockCas(t)), Thr(s, t));
      var b := s.cfg.InPage(th.page, th.k);
      && s.cfg.InMain(b) && s'.cfg == s.cfg && s'.held == s.held && s'.threads == s.threads[t := Thr(s', t)]
      && ThreadOk(s', t)
      && if At(s, b) != {} then s'.maps == s.maps && Locks(s.cfg, Thr(s', t)) == Locks(s.cfg, th)
         else s'.maps == s.maps[b := s.cfg.AllOnes()] && Locks(s.cfg, Thr(s', t)) == Locks(s.cfg, th) + {b}
  {
    hide Config.InPage;
    hide Config.IsPage;
    hide Config.AllOnes;
    hide Locks;
    hide Step;
    hide AfterLock;
    var (cfg, page, k, s') := (s.cfg, Thr(s, t).page, Thr(s, t).k, Step(s, LockCas(t)));
    LockCasState(s, t);
    InPageIsMain(cfg, page, k);
    LocksOne(cfg, page, k);
    hide ThreadOk;
    hide At;
    PlaceOk(s', t, cfg, page, k);
  }

  /** Either place a lock attempt leads to is in order. */
  lemma PlaceOk(s: State, t: Tid, cfg: Config, page: nat, k: nat)
    requires s.cfg == cfg && cfg.IsPage(page) && k < cfg.perPage
    requires Thr(s, t) == Unlocking(page, k) || Thr(s, t) == AfterLock(cfg, page, k)
    ensures ThreadOk(s, t)
  {
    hide Config.InPage;
    hide Config.IsPage;
  }

  lemma LocksOne(cfg: Config, page: nat, k: nat)
    requires k < cfg.perPage
    ensures Locks(cfg, Unlocking(page, k)) == Locks(cfg, Locking(page, k))
    ensures Locks(cfg, AfterLock(cfg, page, k)) == Locks(cfg, Locking(page, k)) + {cfg.InPage(page, k)}
  {
    hide Config.InPage;
    assert Taken(cfg, page, k + 1) == Taken(cfg, page, k) + {cfg.InPage(page, k)};
  }

  lemma LockCasState(s: State, t: Tid)
    requires Enabled(s, LockCas(t))
    ensures var (page, k, s') := (Thr(s, t).page, Thr(s, t).k, Step(s, LockCas(t)));
      var b := s.cfg.InPage(page, k);
      && s'.cfg == s.cfg && s'.held == s.held
      && s'.maps == (if At(s, b) != {} then s.maps else s.maps[b := s.cfg.AllOnes()])
      && s'.threads
         == s.threads[t := if At(s, b) != {} then Unlocking(page, k) else AfterLock(s.cfg, page, k)]
  {
    hide Config.InPage;
  }

  lemma LockingOne(s: State, s': State, t: Tid, b: nat, th: Thread)
    requires Inv(s) && At(s, b) == {} && Locks(s.cfg, th) == Locks(s.cfg, Thr(s, t)) + {b}
    requires s'.cfg == s.cfg && s'.held == s.held && s'.maps == s.maps[b := s.cfg.AllOnes()]
    requires s'.threads == s.threads[t := th] && ThreadOk(s', t)
    requires s.cfg.InMain(b)
    ensures Inv(s')
  {
    hide BitmapOk;
    hide Locks;
    assert forall u :: u != t && Thr(s, u).Freeing? ==> ThreadOk(s, u);
    assert BitmapOk(s, b);
    LockingBitmap(s, s', t, b);
    OthersKept(s, s', t, b);
  }

  /** All ones in place of zero: t has a bitmap nobody holds a continuation of. */
  lemma LockingBitmap(s: State, s': State, t: Tid, b: nat)
    requires s.cfg.Valid() && s.cfg.InMain(b) && BitmapOk(s, b) && At(s, b) == {}
    requires s'.cfg == s.cfg && At(s', b) == s.cfg.AllOnes()
    requires forall u, j :: HasSlot(s', u, Slot(b, j)) <==> HasSlot(s, u, Slot(b, j))
    requires forall u :: LocksBitmap(s', u, b) <==> LocksBitmap(s, u, b) || u == t
    ensures BitmapOk(s', b)
  {
    assert 0 in s.cfg.AllOnes();
    assert forall u :: !LocksBitmap(s, u, b);
    assert LocksBitmap(s', t, b);
  }

  lemma UnlockInv(s: State, t: Tid)
    requires Inv(s) && Enabled(s, Unlock(t))
    ensures Inv(Step(s, Unlock(t)))
  {
    hide BitmapOk;
    hide Config.InPage;
    var s', page, k := Step(s, Unlock(t)), Thr(s, t).page, Thr(s, t).k;
    assert ThreadOk(s, t);
    if k == 0 {
      MoveOnly(s, s', t, Idle);
    } else {
      var b := s.cfg.InPage(page, k - 1);
      assert forall u :: u != t && Thr(s, u).Freeing? ==> ThreadOk(s, u);
      assert BitmapOk(s, b);
      assert Locks(s.cfg, Thr(s', t)) == Locks(s.cfg, Thr(s, t)) - {b};
      UnlockingBitmap(s, s', t, b);
      OthersKept(s, s', t, b);
    }
  }

  /** Zero again: t gives back a bitmap it had taken. */
  lemma UnlockingBitmap(s: State, s': State, t: Tid, b: nat)
    requires BitmapOk(s, b) && LocksBitmap(s, t, b) && s'.cfg == s.cfg && At(s', b) == {}
    requires forall u, j :: HasSlot(s', u, Slot(b, j)) <==> HasSlot(s, u, Slot(b, j))
    requires forall u :: LocksBitmap(s', u, b) <==> LocksBitmap(s, u, b) && u != t
    ensures BitmapOk(s', b)
  {
  }

  lemma StepInv(s: State, a: Action)
    requires Inv(s) && Enabled(s, a)
    ensures Inv(Step(s, a))
  {
    hide Inv;
    hide Enabled;
    hide Step;
    match a {
      case AllocCas(t) => AllocCasInv(s, t);
      case AllocBts(t) => AllocBtsInv(s, t);
      case FreeAnd(t) => FreeAndInv(s, t);
      case HandOver(t, u, slot) => HandOverInv(s, t, u, slot);
      case LockCas(t) => LockCasInv(s, t);
      case Unlock(t) => UnlockInv(s, t);
      case _ => ReadStepInv(s, a);
    }
  }

  // ---------------------------------------------------------------- all interleavings

  ghost predicate Runs(s: State, run: seq<Action>)
    decreases |run|
  {
    run == [] || (Enabled(s, run[0]) && Runs(Step(s, run[0]), run[1..]))
  }

  ghost function After(s: State, run: seq<Action>): State
    requires Runs(s, run)
    decreases |run|
  {
    if run == [] then s else After(Step(s, run[0]), run[1..])
  }

  /** Fresh magazines; the supermaps may hold anything. */
  predicate Start(s: State) {
    s.cfg.Valid() && s.maps == map[] && s.threads == map[] && s.held == map[]
  }

  ghost predicate Reachable(s: State) {
    exists s0, run :: Start(s0) && Runs(s0, run) && After(s0, run) == s
  }

  lemma {:induction false} RunInv(s: State, run: seq<Action>)
    requires Inv(s) && Runs(s, run)
    ensures Inv(After(s, run))
    decreases |run|
  {
    hide Inv;
    if run != [] {
      StepInv(s, run[0]);
      RunInv(Step(s, run[0]), run[1..]);
    }
  }

  lemma ReachableInv(s: State)
    requires Reachable(s)
    ensures Inv(s)
  {
    hide Inv;
    hide Step;
    hide Enabled;
    var s0, run :| Start(s0) && Runs(s0, run) && After(s0, run) == s;
    StartInv(s0);
    RunInv(s0, run);
  }

  lemma StartInv(s: State)
    requires Start(s)
    ensures Inv(s)
  {
  }

  /** No continuation is ever with two threads. */
  lemma NoDoubleOwner(s: State, t: Tid, u: Tid, slot: Slot)
    requires Reachable(s) && slot in Held(s, t) && slot in Held(s, u)
    ensures t == u
  {
    ReachableInv(s);
    assert HasSlot(s, t, Slot(slot.bitmap, slot.index)) && HasSlot(s, u, Slot(slot.bitmap, slot.index));
    assert BitmapOk(s, slot.bitmap);
  }

  /** The compare-and-swap finds the word it loaded, or the bts its bit clear. */
  ghost predicate Succeeds(s: State, a: Action) {
    Enabled(s, a) && (a.AllocCas? || a.AllocBts?) &&
    var (b, bits) := (Thr(s, a.t).b, Thr(s, a.t).bits);
    var i := FirstUnset(bits, 0);
    i < s.cfg.Size(b) && if a.AllocCas? then At(s, b) == bits else i !in At(s, b)
  }

  /** What a successful allocation returns. */
  ghost function GivenOut(s: State, a: Action): Slot
    requires Succeeds(s, a)
  {
    Slot(Thr(s, a.t).b, FirstUnset(Thr(s, a.t).bits, 0))
  }

  /** The thread has what it was given; nothing else moves. */
  lemma TakesSlot(s: State, a: Action, u: Tid, slot: Slot)
    requires Succeeds(s, a)
    ensures slot in Held(Step(s, a), u) <==> slot in Held(s, u) || (u == a.t && slot == GivenOut(s, a))
  {
    hide FirstUnset;
  }

  lemma TakesNothing(s: State, a: Action)
    requires Enabled(s, a) && (a.AllocCas? || a.AllocBts?) && !Succeeds(s, a)
    ensures Step(s, a).held == s.held && Step(s, a).maps == s.maps
  {
    hide FirstUnset;
  }

  lemma ClearHasNoHolder(s: State, slot: Slot, u: Tid)
    requires Inv(s) && slot.index !in At(s, slot.bitmap)
    ensures slot !in Held(s, u)
  {
    assert BitmapOk(s, slot.bitmap);
    assert HasSlot(s, u, Slot(slot.bitmap, slot.index)) ==> slot.index in At(s, slot.bitmap);
  }

  lemma FreshSlot(s: State, a: Action)
    requires Inv(s) && Succeeds(s, a)
    ensures var slot := GivenOut(s, a);
      && slot.index < s.cfg.Size(slot.bitmap) && slot.index !in At(s, slot.bitmap)
      && (forall u :: slot !in Held(s, u))
      && (forall u :: slot in Held(Step(s, a), u) <==> u == a.t)
  {
    hide Inv;
    hide FirstUnset;
    var slot := GivenOut(s, a);
    assert slot.index !in At(s, slot.bitmap);
    hide Step;
    forall u ensures slot !in Held(s, u) && (slot in Held(Step(s, a), u) <==> u == a.t) {
      ClearHasNoHolder(s, slot, u);
      TakesSlot(s, a, u, slot);
    }
  }

  /** All continuations of the bitmap were in use when it was loaded. */
  ghost predicate SeenFull(s: State, t: Tid)
    requires Thr(s, t).Loaded?
  {
    forall i: nat :: i < s.cfg.Size(Thr(s, t).b) ==> i in Thr(s, t).bits
  }

  lemma FailsOrRetries(s: State, a: Action)
    requires Enabled(s, a) && (a.AllocCas? || a.AllocBts?) && !Succeeds(s, a)
    ensures Thr(Step(s, a), a.t) == if SeenFull(s, a.t) then Idle else Searching(Thr(s, a.t).b)
  {
    var (b, bits) := (Thr(s, a.t).b, Thr(s, a.t).bits);
    var i := FirstUnset(bits, 0);
    assert i !in bits && forall j: nat :: j < i ==> j in bits;
    hide FirstUnset;
    assert SeenFull(s, a.t) <==> i >= s.cfg.Size(b);
    hide SeenFull;
  }

  /**
    What a successful allocation returns nobody has, the thread itself included; afterwards that
    thread alone has it.  An unsuccessful one returns nothing.
  */
  lemma AllocationIsFresh(s: State, a: Action)
    requires Reachable(s) && Enabled(s, a) && (a.AllocCas? || a.AllocBts?)
    ensures !Succeeds(s, a) ==> Step(s, a).held == s.held && Step(s, a).maps == s.maps
    ensures !Succeeds(s, a) ==>
              Thr(Step(s, a), a.t) == if SeenFull(s, a.t) then Idle else Searching(Thr(s, a.t).b)
    ensures Succeeds(s, a) ==>
              var slot := GivenOut(s, a);
              && slot.index < s.cfg.Size(slot.bitmap) && slot.index !in At(s, slot.bitmap)
              && (forall u :: slot !in Held(s, u))
              && (forall u :: slot in Held(Step(s, a), u) <==> u == a.t)
  {
    ReachableInv(s);
    hide Reachable;
    hide Inv;
    hide Step;
    if Succeeds(s, a) {
      FreshSlot(s, a);
    } else {
      TakesNothing(s, a);
      FailsOrRetries(s, a);
    }
  }

  /** The run frees this continuation. */
  ghost predicate Frees(s: State, run: seq<Action>, slot: Slot)
    requires Runs(s, run)
    decreases |run|
  {
    run != [] && ((run[0].FreeAnd? && Thr(s, run[0].t).slot == slot) || Frees(Step(s, run[0]), run[1..], slot))
  }

  lemma {:induction false} HeldUntilFreed(s: State, run: seq<Action>, slot: Slot, t: Tid)
    requires Runs(s, run) && HasSlot(s, t, slot) && !Frees(s, run, slot)
    ensures exists u :: HasSlot(After(s, run), u, slot)
    decreases |run|
  {
    if run == [] {
      assert HasSlot(After(s, run), t, slot);
    } else {
      var a := run[0];
      var s' := Step(s, a);
      var u := if a.HandOver? && a.t == t && a.slot == slot then a.u else t;
      assert HasSlot(s', u, slot);
      HeldUntilFreed(s', run[1..], slot, u);
      assert After(s, run) == After(s', run[1..]);
    }
  }

  /** A continuation that was given out is given out again, to anybody, only after it has been freed. */
  lemma NoDoubleAllocation(s: State, a: Action, run: seq<Action>, again: Action)
    requires Reachable(s) && Succeeds(s, a) && Runs(Step(s, a), run)
    requires Succeeds(After(Step(s, a), run), again) && GivenOut(After(Step(s, a), run), again) == GivenOut(s, a)
    ensures Frees(Step(s, a), run, GivenOut(s, a))
  {
    var slot := GivenOut(s, a);
    var s1 := Step(s, a);
    ReachableInv(s);
    FreshSlot(s, a);
    StepInv(s, a);
    RunInv(s1, run);
    hide Inv;
    hide Step;
    hide Succeeds;
    FreshSlot(After(s1, run), again);
    if !Frees(s1, run, slot) {
      assert HasSlot(s1, a.t, slot);
      HeldUntilFreed(s1, run, slot, a.t);
    }
  }

  /** The exclusive clear of a free never finds its bit clear already. */
  lemma FreeFindsItsBit(s: State, t: Tid)
    requires Reachable(s) && Enabled(s, FreeAnd(t))
    ensures Thr(s, t).slot.index in At(s, Thr(s, t).slot.bitmap)
  {
    ReachableInv(s);
    var slot := Thr(s, t).slot;
    assert ThreadOk(s, t) && BitmapOk(s, slot.bitmap);
    assert HasSlot(s, t, Slot(slot.bitmap, slot.index));
  }

  lemma {:induction false} TakenContains(cfg: Config, page: nat, k: nat, j: nat)
    requires j < k
    ensures cfg.InPage(page, j) in Taken(cfg, page, k)
  {
    if j < k - 1 {
      TakenContains(cfg, page, k - 1, j);
    }
  }

  /** A page is madvised only while nothing in it is live, and nothing in it can be allocated. */
  lemma MadviseOnlyWhenEmpty(s: State, t: Tid, k: nat)
    requires Reachable(s) && Enabled(s, Madvise(t)) && k < s.cfg.perPage
    ensures var b := s.cfg.InPage(Thr(s, t).page, k); NoneHeld(s, b) && At(s, b) == s.cfg.AllOnes()
  {
    ReachableInv(s);
    TakenContains(s.cfg, Thr(s, t).page, s.cfg.perPage, k);
    assert BitmapOk(s, s.cfg.InPage(Thr(s, t).page, k));
    assert LocksBitmap(s, t, s.cfg.InPage(Thr(s, t).page, k));
  }

  /** A reclaim never takes a bitmap of a packed first page. */
  lemma ReclaimsMainOnly(s: State, t: Tid, b: nat)
    requires Reachable(s) && LocksBitmap(s, t, b)
    ensures s.cfg.InMain(b)
  {
    ReachableInv(s);
    assert ThreadOk(s, t);
    var th := Thr(s, t);
    var k := if th.Owning? then s.cfg.perPage else th.k;
    assert b < s.cfg.InPage(th.page, k);
    Product(0, th.page, s.cfg.perPage);
  }

  /** Two threads never own a page at once. */
  lemma OneOwnerPerPage(s: State, t: Tid, u: Tid)
    requires Reachable(s) && Thr(s, t).Owning? && Thr(s, u).Owning? && Thr(s, t).page == Thr(s, u).page
    ensures t == u
  {
    ReachableInv(s);
    var page := Thr(s, t).page;
    TakenContains(s.cfg, page, s.cfg.perPage, 0);
    assert LocksBitmap(s, t, s.cfg.InPage(page, 0)) && LocksBitmap(s, u, s.cfg.InPage(page, 0));
    assert BitmapOk(s, s.cfg.InPage(page, 0));
  }

  /**
    The unlock path clears a bitmap this thread has taken and nobody else has, and forgets
    exactly that one; when it ends the thread has none left.
  */
  lemma UnlockClearsOwn(s: State, t: Tid)
    requires Reachable(s) && Enabled(s, Unlock(t))
    ensures var th, s' := Thr(s, t), Step(s, Unlock(t));
      if th.k == 0 then s'.maps == s.maps && Thr(s', t).Idle? && Locks(s.cfg, th) == {}
      else
        var b := s.cfg.InPage(th.page, th.k - 1);
        && LocksBitmap(s, t, b) && (forall u :: u != t ==> !LocksBitmap(s, u, b))
        && At(s', b) == {} && (forall c: nat :: c != b ==> At(s', c) == At(s, c))
        && Locks(s.cfg, Thr(s', t)) == Locks(s.cfg, th) - {b}
        && (Thr(s', t).Idle? <==> Locks(s.cfg, th) == {b})
  {
    hide BitmapOk;
    ReachableInv(s);
    var th := Thr(s, t);
    if th.k > 0 {
      var b := s.cfg.InPage(th.page, th.k - 1);
      OneLocker(s, t, b);
      if th.k > 1 {
        TakenContains(s.cfg, th.page, th.k, 0);
        assert s.cfg.InPage(th.page, 0) < b;
      }
    }
  }

  lemma OneLocker(s: State, t: Tid, b: nat)
    requires Inv(s) && LocksBitmap(s, t, b)
    ensures forall u :: u != t ==> !LocksBitmap(s, u, b)
  {
    assert BitmapOk(s, b);
  }

  /** The bitmap a step of t takes, by turning it from zero to all ones. */
  ghost function TakenNow(s: State, a: Action, t: Tid): seq<nat>
    requires Enabled(s, a)
  {
    if a != LockCas(t) then []
    else
      var b := s.cfg.InPage(Thr(s, t).page, Thr(s, t).k);
      if At(s, b) == {} then [b] else []
  }

  /** The bitmap a step of t zeroes. */
  ghost function ZeroedNow(s: State, a: Action, t: Tid): seq<nat>
    requires Enabled(s, a)
  {
    if a == Unlock(t) && Thr(s, t).k > 0 then [s.cfg.InPage(Thr(s, t).page, Thr(s, t).k - 1)] else []
  }

  /** The bitmaps t takes in a run, in order. */
  ghost function TakenIn(s: State, run: seq<Action>, t: Tid): seq<nat>
    requires Runs(s, run)
    decreases |run|
  {
    if run == [] then [] else TakenNow(s, run[0], t) + TakenIn(Step(s, run[0]), run[1..], t)
  }

  /** The bitmaps t zeroes in a run, in order. */
  ghost function ZeroedIn(s: State, run: seq<Action>, t: Tid): seq<nat>
    requires Runs(s, run)
    decreases |run|
  {
    if run == [] then [] else ZeroedNow(s, run[0], t) + ZeroedIn(Step(s, run[0]), run[1..], t)
  }

  /** What a thread has taken and not zeroed yet changes only by these. */
  lemma LocksStep(s: State, a: Action, t: Tid)
    requires Inv(s) && Enabled(s, a)
    ensures Step(s, a).cfg == s.cfg
    ensures multiset(Locks(s.cfg, Thr(s, t))) + multiset(TakenNow(s, a, t))
            == multiset(Locks(s.cfg, Thr(Step(s, a), t))) + multiset(ZeroedNow(s, a, t))
  {
    hide BitmapOk;
    assert ThreadOk(s, t);
    hide Inv;
    if a == LockCas(t) {
      LockCasMoves(s, t);
      hide Step;
      hide Locks;
    } else if a == Unlock(t) {
      UnlockMoves(s, t);
      hide Step;
      hide Locks;
    } else {
      if a.FreeSuper? && a.t == t {
        PageOfBitmap(s.cfg, Thr(s, t).b);
      }
      OtherMoves(s, a, t);
    }
  }

  lemma UnlockMoves(s: State, t: Tid)
    requires Enabled(s, Unlock(t))
    ensures var (th, s') := (Thr(s, t), Step(s, Unlock(t)));
      && s'.cfg == s.cfg
      && if th.k == 0 then Locks(s.cfg, Thr(s', t)) == Locks(s.cfg, th)
         else
           var b := s.cfg.InPage(th.page, th.k - 1);
           b in Locks(s.cfg, th) && Locks(s.cfg, Thr(s', t)) == Locks(s.cfg, th) - {b}
  {
  }

  lemma OtherMoves(s: State, a: Action, t: Tid)
    requires Enabled(s, a) && a != LockCas(t) && a != Unlock(t)
    requires a.t == t ==> ThreadOk(s, t) && (a.FreeSuper? ==> s.cfg.IsPage(Thr(s, t).b / s.cfg.perPage))
    ensures Step(s, a).cfg == s.cfg && Locks(s.cfg, Thr(Step(s, a), t)) == Locks(s.cfg, Thr(s, t))
  {
    hide FirstUnset;
    if a.t != t {
      OthersStand(s, a);
    } else if TouchesNoMap(a) {
      ReadStepMoves(s, a);
    } else {
      hide Config.InPage;
      hide Config.IsPage;
      assert Locks(s.cfg, Thr(s, t)) == {} && Locks(s.cfg, Thr(Step(s, a), t)) == {};
    }
    hide Step;
    hide Locks;
  }

  lemma Chain(x: multiset<nat>, y: multiset<nat>, z: multiset<nat>,
              in1: seq<nat>, in2: seq<nat>, out1: seq<nat>, out2: seq<nat>)
    requires x + multiset(in1) == y + multiset(out1) && y + multiset(in2) == z + multiset(out2)
    ensures x + multiset(in1 + in2) == z + multiset(out1 + out2)
  {
    assert multiset(in1 + in2) == multiset(in1) + multiset(in2);
    assert multiset(out1 + out2) == multiset(out1) + multiset(out2);
    assert x + (multiset(in1) + multiset(in2)) == (x + multiset(in1)) + multiset(in2);
    assert z + (multiset(out1) + multiset(out2)) == (z + multiset(out2)) + multiset(out1);
    assert (y + multiset(out1)) + multiset(in2) == (y + multiset(in2)) + multiset(out1);
  }

  /**
    Over every run: what a thread takes to reclaim pages it zeroes again, as often as it takes it,
    but for what it has at the end; whether it got the whole page or gave up half way.
  */
  lemma {:induction false} ReclaimGivesBack(s: State, run: seq<Action>, t: Tid)
    requires Inv(s) && Runs(s, run)
    ensures multiset(Locks(s.cfg, Thr(s, t))) + multiset(TakenIn(s, run, t))
            == multiset(Locks(s.cfg, Thr(After(s, run), t))) + multiset(ZeroedIn(s, run, t))
    decreases |run|
  {
    hide Step;
    hide Enabled;
    hide Inv;
    hide Locks;
    hide TakenNow;
    hide ZeroedNow;
    if run == [] {
      assert TakenIn(s, run, t) == [] && ZeroedIn(s, run, t) == [] && After(s, run) == s;
    } else {
      var (a, rest) := (run[0], run[1..]);
      var s' := Step(s, a);
      StepInv(s, a);
      LocksStep(s, a, t);
      ReclaimGivesBack(s', rest, t);
      assert TakenIn(s, run, t) == TakenNow(s, a, t) + TakenIn(s', rest, t);
      assert ZeroedIn(s, run, t) == ZeroedNow(s, a, t) + ZeroedIn(s', rest, t);
      assert After(s, run) == After(s', rest);
      Chain(multiset(Locks(s.cfg, Thr(s, t))), multiset(Locks(s.cfg, Thr(s', t))),
            multiset(Locks(s.cfg, Thr(After(s, run), t))),
            TakenNow(s, a, t), TakenIn(s', rest, t), ZeroedNow(s, a, t), ZeroedIn(s', rest, t));
    }
  }

  /** From idle to idle it zeroes exactly what it took. */
  lemma ReclaimsBalance(s: State, run: seq<Action>, t: Tid)
    requires Reachable(s) && Runs(s, run) && Thr(s, t).Idle? && Thr(After(s, run), t).Idle?
    ensures multiset(TakenIn(s, run, t)) == multiset(ZeroedIn(s, run, t))
  {
    ReachableInv(s);
    hide Inv;
    hide Reachable;
    hide Runs;
    hide After;
    hide TakenIn;
    hide ZeroedIn;
    ReclaimGivesBack(s, run, t);
    assert Locks(s.cfg, Thr(s, t)) == {} && Locks(s.cfg, Thr(After(s, run), t)) == {};
    assert multiset(Locks(s.cfg, Thr(s, t))) == multiset{};
    assert multiset{} + multiset(TakenIn(s, run, t)) == multiset(TakenIn(s, run, t));
    assert multiset{} + multiset(ZeroedIn(s, run, t)) == multiset(ZeroedIn(s, run, t));
  }

  /** Nothing is lost: a set bit is held by a thread, or its bitmap is being madvised. */
  lemma NoLeak(s: State, b: nat, i: nat)
    requires Reachable(s) && i in At(s, b)
    ensures (exists t :: HasSlot(s, t, Slot(b, i))) || (exists t :: LocksBitmap(s, t, b))
  {
    ReachableInv(s);
    assert BitmapOk(s, b);
  }

  // ---------------------------------------------------------------- which page is reclaimed, and when

  /** The bitmap t freed into last. */
  ghost function LastFreed(s: State, run: seq<Action>, t: Tid, b: nat): nat
    requires Runs(s, run)
    decreases |run|
  {
    if run == [] then b
    else LastFreed(Step(s, run[0]), run[1..], t, FreedNow(s, run[0], t, b))
  }

  function FreedNow(s: State, a: Action, t: Tid, b: nat): nat {
    if a.FreeAnd? && a.t == t && Thr(s, t).Freeing? then Thr(s, t).slot.bitmap else b
  }

  predicate OnPage(cfg: Config, page: nat, b: nat) {
    cfg.InPage(page, 0) <= b < cfg.InPage(page, cfg.perPage)
  }

  /** t is done with the bitmap it freed into, or at work on its page. */
  predicate AtFreed(cfg: Config, th: Thread, b: nat) {
    match th
    case Cleared(c, _) => c == b
    case Scanning(page, _) => OnPage(cfg, page, b)
    case Locking(page, _) => OnPage(cfg, page, b)
    case Owning(page) => OnPage(cfg, page, b)
    case Unlocking(page, _) => OnPage(cfg, page, b)
    case _ => true
  }

  lemma PageOf(cfg: Config, b: nat)
    requires cfg.perPage >= 1
    ensures OnPage(cfg, b / cfg.perPage, b)
  {
    var w := cfg.perPage;
    assert b / w * w <= b < b / w * w + w;
  }

  lemma AtFreedStep(s: State, a: Action, t: Tid, b: nat)
    requires Enabled(s, a) && AtFreed(s.cfg, Thr(s, t), b)
    ensures Step(s, a).cfg == s.cfg && AtFreed(s.cfg, Thr(Step(s, a), t), FreedNow(s, a, t, b))
  {
    OthersStand(s, a);
    hide FirstUnset;
    hide Config.InPage;
    hide Config.AllOnes;
    hide Config.Size;
    hide Config.InMain;
    hide OnPage;
    if a.t == t && a.FreeSuper? {
      PageOf(s.cfg, b);
    }
  }

  /** Over every run: the page a thread reclaims is that of the continuation it freed last. */
  lemma {:induction false} ReclaimsFreedPage(s: State, run: seq<Action>, t: Tid, b: nat)
    requires AtFreed(s.cfg, Thr(s, t), b) && Runs(s, run)
    ensures AtFreed(After(s, run).cfg, Thr(After(s, run), t), LastFreed(s, run, t, b))
    decreases |run|
  {
    hide Step;
    hide Enabled;
    hide AtFreed;
    hide FreedNow;
    if run != [] {
      AtFreedStep(s, run[0], t, b);
      ReclaimsFreedPage(Step(s, run[0]), run[1..], t, FreedNow(s, run[0], t, b));
    }
  }

  ghost function Times(a: Action, n: nat): seq<Action> {
    if n == 0 then [] else [a] + Times(a, n - 1)
  }

  /** The run is possible, and leaves t there. */
  ghost predicate Gets(s: State, run: seq<Action>, t: Tid, th: Thread) {
    Runs(s, run) && Thr(After(s, run), t) == th
  }

  lemma RunFirst(s: State, a: Action, rest: seq<Action>, t: Tid, th: Thread)
    requires Enabled(s, a) && Gets(Step(s, a), rest, t, th)
    ensures Gets(s, [a] + rest, t, th)
  {
    hide Enabled;
    hide Step;
    assert ([a] + rest)[1..] == rest;
  }

  /** The bitmaps of the page from the k-th on are zero. */
  ghost predicate ZeroFrom(s: State, page: nat, k: nat) {
    forall j: nat :: k <= j < s.cfg.perPage ==> At(s, s.cfg.InPage(page, j)) == {}
  }

  lemma ScanOne(s: State, t: Tid, page: nat, k: nat)
    requires s.cfg.Valid() && Thr(s, t) == Scanning(page, k) && k < s.cfg.perPage && ZeroFrom(s, page, 0)
    ensures Enabled(s, Scan(t))
    ensures var s' := Step(s, Scan(t));
      && s'.cfg == s.cfg && ZeroFrom(s', page, 0)
      && Thr(s', t) == if k + 1 < s.cfg.perPage then Scanning(page, k + 1) else Locking(page, 0)
  {
    assert At(s, s.cfg.InPage(page, k)) == {};
    var s' := Step(s, Scan(t));
    assert s'.maps == s.maps && s'.cfg == s.cfg;
    hide Step;
    hide Config.InPage;
    forall j: nat | j < s.cfg.perPage ensures At(s', s.cfg.InPage(page, j)) == {} {
      assert At(s, s.cfg.InPage(page, j)) == {};
    }
  }

  lemma LockOne(s: State, t: Tid, page: nat, k: nat)
    requires s.cfg.Valid() && Thr(s, t) == Locking(page, k) && k < s.cfg.perPage && ZeroFrom(s, page, k)
    ensures var s' := Step(s, LockCas(t));
      && s'.cfg == s.cfg && Thr(s', t) == AfterLock(s.cfg, page, k)
      && forall b: nat :: b != s.cfg.InPage(page, k) ==> At(s', b) == At(s, b)
  {
    assert At(s, s.cfg.InPage(page, k)) == {};
  }

  /** A set bit met in the scan is the end of it; a bitmap no longer zero when it is to be taken, of the taking. */
  lemma ReclaimGivesUp(s: State, a: Action)
    requires Enabled(s, a) && (a.Scan? || a.LockCas?)
    requires At(s, s.cfg.InPage(Thr(s, a.t).page, Thr(s, a.t).k)) != {}
    ensures Step(s, a).maps == s.maps
    ensures Thr(Step(s, a), a.t) == if a.Scan? then Idle else Unlocking(Thr(s, a.t).page, Thr(s, a.t).k)
  {
    hide FirstUnset;
    hide Config.InPage;
    hide Upto;
    match a {
      case Scan(_) =>
      case LockCas(_) =>
    }
  }

  /** All of the page's bitmaps are zero: t takes them. */
  lemma {:induction false} LockAll(s: State, t: Tid, page: nat, k: nat)
    requires s.cfg.Valid() && Thr(s, t) == Locking(page, k) && k < s.cfg.perPage && ZeroFrom(s, page, k)
    ensures Gets(s, Times(LockCas(t), s.cfg.perPage - k), t, Owning(page))
    decreases s.cfg.perPage - k
  {
    var (a, s') := (LockCas(t), Step(s, LockCas(t)));
    LockOne(s, t, page, k);
    assert Enabled(s, a);
    hide Step;
    hide Enabled;
    if k + 1 < s.cfg.perPage {
      forall j: nat | k + 1 <= j < s.cfg.perPage ensures At(s', s.cfg.InPage(page, j)) == {} {
        assert At(s, s.cfg.InPage(page, j)) == {};
      }
      LockAll(s', t, page, k + 1);
    } else {
      assert Gets(s', [], t, Owning(page));
    }
    hide Gets;
    RunFirst(s, a, Times(a, s.cfg.perPage - k - 1), t, Owning(page));
  }

  /** It finds them zero first. */
  lemma {:induction false} ScanAll(s: State, t: Tid, page: nat, k: nat)
    requires s.cfg.Valid() && Thr(s, t) == Scanning(page, k) && k < s.cfg.perPage && ZeroFrom(s, page, 0)
    ensures Gets(s, Times(Scan(t), s.cfg.perPage - k) + Times(LockCas(t), s.cfg.perPage), t, Owning(page))
    decreases s.cfg.perPage - k
  {
    hide Step;
    hide Enabled;
    hide Gets;
    hide ZeroFrom;
    hide Thr;
    ScanOne(s, t, page, k);
    var (a, s', locks) := (Scan(t), Step(s, Scan(t)), Times(LockCas(t), s.cfg.perPage));
    if k + 1 < s.cfg.perPage {
      ScanAll(s', t, page, k + 1);
    } else {
      LockAll(s', t, page, 0);
      assert [] + locks == locks;
    }
    RunFirst(s, a, Times(a, s.cfg.perPage - k - 1) + locks, t, Owning(page));
    assert [a] + (Times(a, s.cfg.perPage - k - 1) + locks) == Times(a, s.cfg.perPage - k) + locks;
  }

  /** t is about to free the last continuation of a page. */
  ghost predicate FreesLast(s: State, t: Tid) {
    s.cfg.Valid() && Thr(s, t).Freeing? && s.cfg.InMain(Thr(s, t).slot.bitmap) &&
    var b := Thr(s, t).slot.bitmap;
    && At(s, b) == {Thr(s, t).slot.index}
    && forall j: nat :: j < s.cfg.perPage ==>
         var c := s.cfg.InPage(b / s.cfg.perPage, j); c != b ==> At(s, c) == {}
  }

  /** Undisturbed it goes on to scan and to take all bitmaps of that page, which it is then to madvise. */
  lemma LastFreeReclaims(s: State, t: Tid)
    requires FreesLast(s, t)
    ensures var reclaim := Times(Scan(t), s.cfg.perPage) + Times(LockCas(t), s.cfg.perPage);
      Gets(s, [FreeAnd(t)] + ([FreeSuper(t)] + reclaim), t, Owning(Thr(s, t).slot.bitmap / s.cfg.perPage))
  {
    var page := Thr(s, t).slot.bitmap / s.cfg.perPage;
    var reclaim := Times(Scan(t), s.cfg.perPage) + Times(LockCas(t), s.cfg.perPage);
    FreesFirst(s, t);
    hide FreesLast;
    hide Step;
    hide Enabled;
    hide Gets;
    var s1 := Step(s, FreeAnd(t));
    ScanAll(Step(s1, FreeSuper(t)), t, page, 0);
    RunFirst(s1, FreeSuper(t), reclaim, t, Owning(page));
    RunFirst(s, FreeAnd(t), [FreeSuper(t)] + reclaim, t, Owning(page));
  }

  lemma FreesFirst(s: State, t: Tid)
    requires FreesLast(s, t)
    ensures Enabled(s, FreeAnd(t)) && Enabled(Step(s, FreeAnd(t)), FreeSuper(t))
    ensures var (s2, page) := (Step(Step(s, FreeAnd(t)), FreeSuper(t)), Thr(s, t).slot.bitmap / s.cfg.perPage);
      s2.cfg == s.cfg && Thr(s2, t) == Scanning(page, 0) && ZeroFrom(s2, page, 0)
  {
    var (s1, b) := (Step(s, FreeAnd(t)), Thr(s, t).slot.bitmap);
    assert At(s, b) - {Thr(s, t).slot.index} == {};
    var s2 := Step(s1, FreeSuper(t));
    var page := b / s.cfg.perPage;
    forall j: nat | j < s.cfg.perPage ensures At(s2, s2.cfg.InPage(page, j)) == {} {
      var c := s.cfg.InPage(page, j);
      assert c != b ==> At(s, c) == {};
    }
  }
}
