/**
  The supermaps, which only advise the search: exactly when one is right.  A bitmap's supermap
  bit is set by whoever fills the bitmap and cleared by whoever frees into it, each in a second
  access of its own, so two threads can leave it wrong, in either direction.
*/
module AllocatorSupermaps {
  import opened Common
  import opened AllocatorBitmaps

  predicate Marked(s: State, b: nat)
    requires s.cfg.Valid()
  {
    b % s.cfg.perSupermap in Get(s.supers, Super(s, b), {})
  }

  /** What a thread is about to do to the supermap bit of b. */
  datatype Role = Neither | Marker | Clearer

  function RoleOf(th: Thread, b: nat): Role {
    match th
    case Marking(c) => if c == b then Marker else Neither
    case MarkFull(c) => if c == b then Marker else Neither
    case MarkLoaded(c, _) => if c == b then Marker else Neither
    case MarkAgain(c, _) => if c == b then Marker else Neither
    case Cleared(c, _) => if c == b then Clearer else Neither
    case _ => Neither
  }

  predicate Marks(s: State, t: Tid, b: nat) {
    RoleOf(Thr(s, t), b) == Marker
  }

  predicate Clears(s: State, t: Tid, b: nat) {
    RoleOf(Thr(s, t), b) == Clearer
  }

  ghost predicate SomebodyMarks(s: State, b: nat) {
    exists t :: Marks(s, t, b)
  }

  ghost predicate SomebodyClears(s: State, b: nat) {
    exists t :: Clears(s, t, b)
  }

  ghost predicate Locked(s: State, b: nat) {
    exists t :: LocksBitmap(s, t, b)
  }

  /** Every continuation of b is held; a reclaim's all ones do not count. */
  ghost predicate Full(s: State, b: nat) {
    At(s, b) == s.cfg.AllOnes() && !Locked(s, b)
  }

  /** The supermap bit of b is right, or somebody is about to put it right. */
  ghost predicate Settled(s: State, b: nat)
    requires s.cfg.Valid()
  {
    (Marked(s, b) && !Full(s, b) ==> SomebodyClears(s, b)) && (Full(s, b) && !Marked(s, b) ==> SomebodyMarks(s, b))
  }

  ghost predicate AtRest(s: State) {
    forall t :: Thr(s, t).Idle?
  }

  ghost predicate Exact(s: State, b: nat)
    requires s.cfg.Valid()
  {
    Marked(s, b) <==> At(s, b) == s.cfg.AllOnes()
  }

  // ---------------------------------------------------------------- the steps that matter

  /** The compare-and-swap on the supermap word goes through. */
  predicate Swaps(s: State, a: Action, b: nat) {
    && s.cfg.Valid() && a.MarkCas? && Thr(s, a.t).MarkLoaded? && Thr(s, a.t).b == b && !a.spurious
    && Get(s.supers, Super(s, b), {}) == Thr(s, a.t).sup
  }

  predicate FreesInto(s: State, a: Action, b: nat) {
    a.FreeAnd? && Thr(s, a.t).Freeing? && Thr(s, a.t).slot.bitmap == b
  }

  ghost predicate Fills(s: State, a: Action, b: nat) {
    Succeeds(s, a) && Thr(s, a.t).b == b && At(s, b) + {GivenOut(s, a).index} == s.cfg.AllOnes()
  }

  /** The mark goes in when the bitmap is no longer full and nobody is left to take the mark out. */
  ghost predicate MarksLate(s: State, a: Action, b: nat) {
    Swaps(s, a, b) && !Full(s, b) && !SomebodyClears(s, b)
  }

  /** The mark goes out when the bitmap is full again and nobody is left to put it in. */
  ghost predicate ClearsLate(s: State, a: Action, b: nat) {
    a.FreeSuper? && Clears(s, a.t, b) && Full(s, b) && !SomebodyMarks(s, b)
  }

  /** The next free into the bitmap, or the allocation that fills it, puts the bit right. */
  ghost predicate Repairs(s: State, a: Action, b: nat) {
    FreesInto(s, a, b) || Fills(s, a, b)
  }

  ghost predicate SettledNext(s: State, a: Action, b: nat, settled: bool) {
    if settled then !MarksLate(s, a, b) && !ClearsLate(s, a, b) else Repairs(s, a, b)
  }

  // ---------------------------------------------------------------- one step

  /** The steps that change what matters about b. */
  ghost predicate Touches(s: State, a: Action, b: nat) {
    || (Succeeds(s, a) && Thr(s, a.t).b == b)
    || ((a.MarkTest? || a.MarkRetest?) && Marks(s, a.t, b) && At(s, b) != s.cfg.AllOnes())
    || Swaps(s, a, b) || FreesInto(s, a, b) || (a.FreeSuper? && Clears(s, a.t, b))
  }

  /** Nobody's role changes but t's. */
  lemma RolesAfter(s: State, s': State, t: Tid, b: nat)
    requires forall u :: u != t ==> Thr(s', u) == Thr(s, u)
    ensures (Marks(s, t, b) ==> SomebodyMarks(s, b)) && (Marks(s', t, b) ==> SomebodyMarks(s', b))
    ensures (Clears(s, t, b) ==> SomebodyClears(s, b)) && (Clears(s', t, b) ==> SomebodyClears(s', b))
    ensures Marks(s', t, b) || !Marks(s, t, b) ==> (SomebodyMarks(s', b) <==> SomebodyMarks(s, b) || Marks(s', t, b))
    ensures Clears(s', t, b) || !Clears(s, t, b) ==>
              (SomebodyClears(s', b) <==> SomebodyClears(s, b) || Clears(s', t, b))
  {
    hide RoleOf;
    if SomebodyMarks(s, b) {
      var u :| Marks(s, u, b);
      assert u == t || Marks(s', u, b);
    }
    if SomebodyMarks(s', b) {
      var u :| Marks(s', u, b);
      assert u == t || Marks(s, u, b);
    }
    if SomebodyClears(s, b) {
      var u :| Clears(s, u, b);
      assert u == t || Clears(s', u, b);
    }
    if SomebodyClears(s', b) {
      var u :| Clears(s', u, b);
      assert u == t || Clears(s, u, b);
    }
  }

  lemma SameBit(p: nat, q: nat, w: nat)
    requires w >= 1 && p / w == q / w && p % w == q % w
    ensures p == q
  {
  }

  lemma QuietRole(s: State, a: Action, b: nat)
    requires Enabled(s, a) && !Touches(s, a, b) && s.cfg.InMain(b)
    ensures RoleOf(Thr(Step(s, a), a.t), b) == RoleOf(Thr(s, a.t), b)
  {
    hide FirstUnset;
    hide Config.InPage;
  }

  lemma QuietMark(s: State, a: Action, b: nat)
    requires Enabled(s, a) && !Swaps(s, a, b) && !(a.FreeSuper? && Clears(s, a.t, b))
    ensures Step(s, a).cfg == s.cfg && (Marked(Step(s, a), b) <==> Marked(s, b))
  {
    hide FirstUnset;
    if a.MarkCas? || a.FreeSuper? {
      var c := Thr(s, a.t).b;
      if c != b && c / s.cfg.perSupermap == b / s.cfg.perSupermap && c % s.cfg.perSupermap == b % s.cfg.perSupermap {
        SameBit(b, c, s.cfg.perSupermap);
      }
    }
  }

  /** Locks come and go on empty bitmaps only. */
  lemma LockedAfter(s: State, a: Action, b: nat)
    requires Inv(s) && Enabled(s, a)
    ensures Locked(Step(s, a), b) && !Locked(s, b) ==> a.LockCas? && At(s, b) == {}
    ensures Locked(s, b) && !Locked(Step(s, a), b) ==> At(Step(s, a), b) == {}
  {
    var s' := Step(s, a);
    OthersStand(s, a);
    LockedMoves(s, a, b);
    hide Step;
    hide Inv;
    if Locked(s', b) && !Locked(s, b) {
      var u :| LocksBitmap(s', u, b);
      assert u == a.t || LocksBitmap(s, u, b);
      assert !LocksBitmap(s, u, b);
    }
    if Locked(s, b) && !Locked(s', b) {
      var u :| LocksBitmap(s, u, b);
      assert u == a.t || LocksBitmap(s', u, b);
      assert !LocksBitmap(s', u, b);
    }
  }

  lemma LockedMoves(s: State, a: Action, b: nat)
    requires Inv(s) && Enabled(s, a)
    ensures LocksBitmap(Step(s, a), a.t, b) && !LocksBitmap(s, a.t, b) ==> a.LockCas? && At(s, b) == {}
    ensures LocksBitmap(s, a.t, b) && !LocksBitmap(Step(s, a), a.t, b) ==> At(Step(s, a), b) == {}
  {
    hide BitmapOk;
    var t := a.t;
    assert ThreadOk(s, t);
    if a.LockCas? {
      LockCasMoves(s, t);
      hide Step;
      hide Locks;
    } else if a.Unlock? {
      UnlockMoves(s, t);
      hide Locks;
      hide Config.InPage;
    } else {
      if a.FreeSuper? {
        PageOfBitmap(s.cfg, Thr(s, t).b);
      }
      OtherMoves(s, a, t);
      hide Step;
      hide Locks;
    }
  }

  lemma MapsAfter(s: State, a: Action, b: nat)
    requires Enabled(s, a) && !(Succeeds(s, a) && Thr(s, a.t).b == b) && !FreesInto(s, a, b)
    ensures At(Step(s, a), b) == At(s, b) || (a.LockCas? && At(s, b) == {}) || (a.Unlock? && At(Step(s, a), b) == {})
  {
    hide FirstUnset;
  }

  lemma UnlocksOwn(s: State, a: Action, b: nat)
    requires Inv(s) && Enabled(s, a) && a.Unlock? && At(Step(s, a), b) != At(s, b)
    ensures Locked(s, b)
  {
    var th := Thr(s, a.t);
    UnlockMoves(s, a.t);
    assert LocksBitmap(s, a.t, b);
  }

  /** A lock attempt that changes b leaves it locked. */
  lemma LocksOwn(s: State, a: Action, b: nat)
    requires Inv(s) && Enabled(s, a) && a.LockCas? && At(Step(s, a), b) != At(s, b)
    ensures Locked(Step(s, a), b)
  {
    hide BitmapOk;
    assert ThreadOk(s, a.t);
    LockCasMoves(s, a.t);
    hide Locks;
    assert LocksBitmap(Step(s, a), a.t, b);
  }

  lemma QuietFull(s: State, a: Action, b: nat)
    requires Inv(s) && Enabled(s, a) && !Touches(s, a, b)
    ensures Full(Step(s, a), b) <==> Full(s, b)
  {
    assert 0 in s.cfg.AllOnes();
    OthersStand(s, a);
    LockedAfter(s, a, b);
    MapsAfter(s, a, b);
    if At(Step(s, a), b) != At(s, b) {
      if a.Unlock? {
        UnlocksOwn(s, a, b);
      } else {
        LocksOwn(s, a, b);
      }
    }
    hide Step;
    hide Inv;
    hide Touches;
    hide Locked;
  }

  lemma QuietNext(s: State, a: Action, b: nat)
    requires Enabled(s, a) && !Touches(s, a, b)
    ensures !MarksLate(s, a, b) && !ClearsLate(s, a, b) && !Repairs(s, a, b)
  {
  }

  lemma QuietStep(s: State, a: Action, b: nat)
    requires Inv(s) && Enabled(s, a) && !Touches(s, a, b) && s.cfg.InMain(b)
    ensures Step(s, a).cfg == s.cfg
    ensures Settled(Step(s, a), b) <==> SettledNext(s, a, b, Settled(s, b))
  {
    OthersStand(s, a);
    QuietRole(s, a, b);
    QuietMark(s, a, b);
    QuietFull(s, a, b);
    QuietNext(s, a, b);
    hide Step;
    hide Inv;
    hide Enabled;
    hide Touches;
    hide RoleOf;
    hide Full;
    hide Marked;
    hide MarksLate;
    hide ClearsLate;
    hide Repairs;
    RolesAfter(s, Step(s, a), a.t, b);
    hide SomebodyMarks;
    hide SomebodyClears;
  }

  /** A free into b. */
  lemma FreeStep(s: State, a: Action, b: nat)
    requires Inv(s) && Enabled(s, a) && FreesInto(s, a, b) && s.cfg.InMain(b)
    ensures Step(s, a).cfg == s.cfg
    ensures Settled(Step(s, a), b) && !Full(Step(s, a), b) && SettledNext(s, a, b, Settled(s, b))
  {
    var s' := Step(s, a);
    var slot := Thr(s, a.t).slot;
    assert ThreadOk(s, a.t) && BitmapOk(s, b);
    assert HasSlot(s, a.t, Slot(b, slot.index));
    assert slot.index in s.cfg.AllOnes() && slot.index !in At(s', b);
    assert Clears(s', a.t, b);
  }

  /** An allocation from b. */
  lemma AllocStep(s: State, a: Action, b: nat)
    requires Inv(s) && Enabled(s, a) && Succeeds(s, a) && Thr(s, a.t).b == b && s.cfg.InMain(b)
    ensures Step(s, a).cfg == s.cfg
    ensures Marks(Step(s, a), a.t, b)
    ensures Settled(Step(s, a), b) <==> SettledNext(s, a, b, Settled(s, b))
  {
    var s' := Step(s, a);
    OthersStand(s, a);
    LockedAfter(s, a, b);
    AllocMoves(s, a, b);
    NotLocked(s, a, b);
    hide Step;
    hide Inv;
    hide RoleOf;
    hide Marked;
    hide Succeeds;
    RolesAfter(s, s', a.t, b);
    assert !Full(s, b) && !Locked(s', b);
    assert Full(s', b) <==> Fills(s, a, b);
    assert Settled(s', b) <==> Settled(s, b) || Full(s', b);
    assert !MarksLate(s, a, b) && !ClearsLate(s, a, b) && !FreesInto(s, a, b);
  }

  lemma AllocMoves(s: State, a: Action, b: nat)
    requires Enabled(s, a) && Succeeds(s, a) && Thr(s, a.t).b == b && s.cfg.InMain(b)
    ensures var s' := Step(s, a);
      && At(s', b) == At(s, b) + {GivenOut(s, a).index} && s'.supers == s.supers && s'.cfg == s.cfg
      && RoleOf(Thr(s, a.t), b) == Neither && RoleOf(Thr(s', a.t), b) == Marker
  {
    hide FirstUnset;
    match a {
      case AllocCas(t) =>
      case AllocBts(t) =>
    }
  }

  lemma NotLocked(s: State, a: Action, b: nat)
    requires Inv(s) && Enabled(s, a) && Succeeds(s, a) && Thr(s, a.t).b == b && s.cfg.InMain(b)
    ensures At(s, b) != s.cfg.AllOnes() && !Locked(s, b)
  {
    assert BitmapOk(s, b);
    hide Inv;
    hide Step;
    hide FirstUnset;
    assert GivenOut(s, a).index in s.cfg.AllOnes() && GivenOut(s, a).index !in At(s, b);
  }

  /** A test that sees a bitmap no longer full. */
  lemma TestStep(s: State, a: Action, b: nat)
    requires Inv(s) && Enabled(s, a) && (a.MarkTest? || a.MarkRetest?) && Marks(s, a.t, b)
    requires At(s, b) != s.cfg.AllOnes() && s.cfg.InMain(b)
    ensures Step(s, a).cfg == s.cfg
    ensures Settled(Step(s, a), b) <==> SettledNext(s, a, b, Settled(s, b))
  {
    var s' := Step(s, a);
    OthersStand(s, a);
    assert s'.supers == s.supers && s'.maps == s.maps && RoleOf(Thr(s', a.t), b) == Neither;
    hide Step;
    hide Inv;
    hide RoleOf;
    RolesAfter(s, s', a.t, b);
    assert !Full(s, b) && !Full(s', b);
    assert SomebodyClears(s', b) <==> SomebodyClears(s, b);
    assert Marked(s', b) <==> Marked(s, b);
    assert Settled(s', b) <==> Settled(s, b);
    assert !MarksLate(s, a, b) && !ClearsLate(s, a, b) && !Repairs(s, a, b);
  }

  /** The mark. */
  lemma SwapStep(s: State, a: Action, b: nat)
    requires Inv(s) && Enabled(s, a) && Swaps(s, a, b) && s.cfg.InMain(b)
    ensures Step(s, a).cfg == s.cfg && Marked(Step(s, a), b) && (Full(Step(s, a), b) <==> Full(s, b))
    ensures Settled(Step(s, a), b) <==> SettledNext(s, a, b, Settled(s, b))
  {
    var s' := Step(s, a);
    OthersStand(s, a);
    LockedAfter(s, a, b);
    assert 0 in s.cfg.AllOnes();
    assert s'.maps == s.maps && Marked(s', b) && RoleOf(Thr(s', a.t), b) == Neither;
    hide Step;
    hide Inv;
    hide RoleOf;
    hide Marked;
    RolesAfter(s, s', a.t, b);
  }

  /** The clearing of the mark. */
  lemma ClearStep(s: State, a: Action, b: nat)
    requires Inv(s) && Enabled(s, a) && a.FreeSuper? && Clears(s, a.t, b) && s.cfg.InMain(b)
    ensures Step(s, a).cfg == s.cfg && !Marked(Step(s, a), b) && (Full(Step(s, a), b) <==> Full(s, b))
    ensures Settled(Step(s, a), b) <==> SettledNext(s, a, b, Settled(s, b))
  {
    var s' := Step(s, a);
    OthersStand(s, a);
    LockedAfter(s, a, b);
    assert 0 in s.cfg.AllOnes();
    assert s'.maps == s.maps && !Marked(s', b) && RoleOf(Thr(s', a.t), b) == Neither;
    hide Step;
    hide Inv;
    hide RoleOf;
    hide Marked;
    RolesAfter(s, s', a.t, b);
  }

  /** What each step does: settled stays so but for the two late steps, and comes back only by a repair. */
  lemma SettledStep(s: State, a: Action, b: nat)
    requires Inv(s) && Enabled(s, a) && s.cfg.InMain(b)
    ensures Step(s, a).cfg == s.cfg
    ensures Settled(Step(s, a), b) <==> SettledNext(s, a, b, Settled(s, b))
  {
    hide Inv;
    hide Step;
    hide Settled;
    hide SettledNext;
    if !Touches(s, a, b) {
      QuietStep(s, a, b);
    } else if FreesInto(s, a, b) {
      FreeStep(s, a, b);
    } else if Swaps(s, a, b) {
      SwapStep(s, a, b);
    } else if a.FreeSuper? {
      ClearStep(s, a, b);
    } else if a.MarkTest? || a.MarkRetest? {
      TestStep(s, a, b);
    } else {
      AllocStep(s, a, b);
    }
  }

  // ---------------------------------------------------------------- all runs

  /** What the steps of a run make of it, one after the other. */
  ghost predicate SettledAfter(s: State, run: seq<Action>, b: nat, settled: bool)
    requires Runs(s, run)
    decreases |run|
  {
    if run == [] then settled
    else SettledAfter(Step(s, run[0]), run[1..], b, SettledNext(s, run[0], b, settled))
  }

  lemma {:induction false} SettledRun(s: State, run: seq<Action>, b: nat)
    requires Inv(s) && Runs(s, run) && s.cfg.InMain(b)
    ensures After(s, run).cfg == s.cfg
    ensures Settled(After(s, run), b) <==> SettledAfter(s, run, b, Settled(s, b))
    decreases |run|
  {
    hide Inv;
    hide Step;
    hide Enabled;
    hide Settled;
    hide SettledNext;
    if run != [] {
      StepInv(s, run[0]);
      SettledStep(s, run[0], b);
      SettledRun(Step(s, run[0]), run[1..], b);
    }
  }

  /** With nobody in the middle of anything, settled means right. */
  lemma SettledAtRest(s: State, b: nat)
    requires s.cfg.Valid() && AtRest(s)
    ensures Settled(s, b) <==> Exact(s, b)
  {
    assert !Locked(s, b) && !SomebodyMarks(s, b) && !SomebodyClears(s, b);
  }

  /**
    At rest, after any run: the supermap bit of b is right if and only if every late step at b was
    followed by a free into b or by an allocation that filled it.  Bits wrong from the start count
    as late.
  */
  lemma ExactAtRest(s0: State, run: seq<Action>, b: nat)
    requires Start(s0) && Runs(s0, run) && s0.cfg.InMain(b) && AtRest(After(s0, run))
    ensures After(s0, run).cfg == s0.cfg
    ensures Exact(After(s0, run), b) <==> SettledAfter(s0, run, b, !Marked(s0, b))
  {
    StartInv(s0);
    assert AtRest(s0);
    SettledAtRest(s0, b);
    assert 0 in s0.cfg.AllOnes();
    assert Exact(s0, b) <==> !Marked(s0, b);
    hide Inv;
    hide Runs;
    hide After;
    hide SettledAfter;
    SettledRun(s0, run, b);
    SettledAtRest(After(s0, run), b);
  }

  datatype Late = MarkedLate | ClearedLate

  ghost function LateNow(s: State, a: Action, b: nat): seq<Late> {
    if MarksLate(s, a, b) then [MarkedLate] else if ClearsLate(s, a, b) then [ClearedLate] else []
  }

  /** The late steps of a run at b. */
  ghost function LateSteps(s: State, run: seq<Action>, b: nat): seq<Late>
    requires Runs(s, run)
    decreases |run|
  {
    if run == [] then [] else LateNow(s, run[0], b) + LateSteps(Step(s, run[0]), run[1..], b)
  }

  lemma {:induction false} NoneLate(s: State, run: seq<Action>, b: nat)
    requires Runs(s, run) && LateSteps(s, run, b) == []
    ensures SettledAfter(s, run, b, true)
    decreases |run|
  {
    hide Step;
    hide Enabled;
    if run != [] {
      assert LateNow(s, run[0], b) == [];
      NoneLate(Step(s, run[0]), run[1..], b);
    }
  }

  /** Without a late step, from zeroed supermaps, every supermap bit is right whenever all is at rest. */
  lemma ExactUnlessLate(s0: State, run: seq<Action>, b: nat)
    requires Start(s0) && s0.supers == map[] && Runs(s0, run) && s0.cfg.InMain(b) && AtRest(After(s0, run))
    requires LateSteps(s0, run, b) == []
    ensures After(s0, run).cfg == s0.cfg && Exact(After(s0, run), b)
  {
    NoneLate(s0, run, b);
    ExactAtRest(s0, run, b);
  }

  // ---------------------------------------------------------------- what a late step follows from

  /** A thread on its way to mark b has a continuation of b. */
  ghost predicate MarkersHold(s: State, b: nat) {
    forall t :: Marks(s, t, b) ==> exists i :: HasSlot(s, t, Slot(b, i))
  }

  lemma HoldsOn(s: State, a: Action, b: nat, t: Tid, i: nat)
    requires Enabled(s, a) && HasSlot(s, t, Slot(b, i)) && (a.t == t ==> !a.HandOver? && !a.FreeAnd?)
    ensures HasSlot(Step(s, a), t, Slot(b, i))
  {
    hide FirstUnset;
  }

  lemma BecomesMarker(s: State, a: Action, b: nat)
    requires Enabled(s, a) && Marks(Step(s, a), a.t, b)
    ensures (Succeeds(s, a) && Thr(s, a.t).b == b) || (Marks(s, a.t, b) && !a.HandOver? && !a.FreeAnd?)
  {
    hide FirstUnset;
    hide Config.InPage;
  }

  lemma MarkersHoldStep(s: State, a: Action, b: nat)
    requires Enabled(s, a) && MarkersHold(s, b)
    ensures MarkersHold(Step(s, a), b)
  {
    var s' := Step(s, a);
    OthersStand(s, a);
    forall t | Marks(s', t, b)
      ensures exists i :: HasSlot(s', t, Slot(b, i))
    {
      if t == a.t {
        BecomesMarker(s, a, b);
      }
      if t == a.t && Succeeds(s, a) && Thr(s, a.t).b == b {
        TakesSlot(s, a, t, GivenOut(s, a));
        assert HasSlot(s', t, Slot(b, GivenOut(s, a).index));
      } else {
        assert Marks(s, t, b);
        var i :| HasSlot(s, t, Slot(b, i));
        HoldsOn(s, a, b, t, i);
      }
    }
  }

  lemma {:induction false} MarkersHoldRun(s: State, run: seq<Action>, b: nat)
    requires Runs(s, run) && MarkersHold(s, b)
    ensures MarkersHold(After(s, run), b)
    decreases |run|
  {
    hide Step;
    hide Enabled;
    hide MarkersHold;
    if run != [] {
      MarkersHoldStep(s, run[0], b);
      MarkersHoldRun(Step(s, run[0]), run[1..], b);
    }
  }

  lemma ReachableMarkersHold(s: State, b: nat)
    requires Reachable(s)
    ensures MarkersHold(s, b)
  {
    hide Step;
    hide Enabled;
    var s0, run :| Start(s0) && Runs(s0, run) && After(s0, run) == s;
    assert MarkersHold(s0, b);
    MarkersHoldRun(s0, run, b);
  }

  /** Only a free makes a full bitmap less than full. */
  lemma FullStays(s: State, a: Action, b: nat)
    requires Inv(s) && Enabled(s, a) && s.cfg.InMain(b) && Full(s, b) && !FreesInto(s, a, b)
    ensures Full(Step(s, a), b)
  {
    assert 0 in s.cfg.AllOnes();
    OthersStand(s, a);
    LockedAfter(s, a, b);
    if Succeeds(s, a) && Thr(s, a.t).b == b {
      NotLocked(s, a, b);
    }
    MapsAfter(s, a, b);
    if a.Unlock? && At(Step(s, a), b) != At(s, b) {
      UnlocksOwn(s, a, b);
    }
    hide Step;
    hide Inv;
    hide Succeeds;
    hide Locked;
  }

  ghost predicate FreesIn(s: State, run: seq<Action>, b: nat, t: Tid)
    requires Runs(s, run)
    decreases |run|
  {
    run != [] && ((FreesInto(s, run[0], b) && run[0].t != t) || FreesIn(Step(s, run[0]), run[1..], b, t))
  }

  predicate OnlyLoads(run: seq<Action>, t: Tid) {
    forall k :: 0 <= k < |run| && run[k].t == t ==> run[k].MarkLoad?
  }

  lemma {:induction false} FullUntilFreed(s: State, run: seq<Action>, b: nat, t: Tid)
    requires Inv(s) && Runs(s, run) && s.cfg.InMain(b) && Full(s, b) && OnlyLoads(run, t) && !FreesIn(s, run, b, t)
    ensures Full(After(s, run), b)
    decreases |run|
  {
    hide Inv;
    hide Step;
    hide Enabled;
    hide Full;
    if run != [] {
      StepInv(s, run[0]);
      OthersStand(s, run[0]);
      FullStays(s, run[0], b);
      assert forall k :: 0 <= k < |run[1..]| ==> run[1..][k] == run[k + 1];
      FullUntilFreed(Step(s, run[0]), run[1..], b, t);
    }
  }

  lemma FullAtTest(s: State, b: nat, t: Tid)
    requires Inv(s) && MarkersHold(s, b) && Marks(s, t, b) && At(s, b) == s.cfg.AllOnes()
    ensures Full(s, b)
  {
    var i :| HasSlot(s, t, Slot(b, i));
    assert BitmapOk(s, b);
  }

  /** Behind a late mark: another thread freed into b after this thread's test saw it full. */
  lemma LateMarkFollowsFree(s: State, test: Action, run: seq<Action>, b: nat)
    requires Reachable(s) && Enabled(s, test) && (test.MarkTest? || test.MarkRetest?) && Marks(s, test.t, b)
    requires At(s, b) == s.cfg.AllOnes() && s.cfg.InMain(b)
    requires Runs(Step(s, test), run) && OnlyLoads(run, test.t)
    requires MarksLate(After(Step(s, test), run), MarkCas(test.t, false), b)
    ensures FreesIn(Step(s, test), run, b, test.t)
  {
    ReachableInv(s);
    ReachableMarkersHold(s, b);
    hide Reachable;
    FullAtTest(s, b, test.t);
    FullStays(s, test, b);
    StepInv(s, test);
    OthersStand(s, test);
    hide Inv;
    hide Step;
    hide Enabled;
    hide Full;
    if !FreesIn(Step(s, test), run, b, test.t) {
      FullUntilFreed(Step(s, test), run, b, test.t);
    }
  }

  /** A mark of b goes in while b is full. */
  ghost predicate MarksIn(s: State, run: seq<Action>, b: nat)
    requires Runs(s, run)
    decreases |run|
  {
    run != [] && ((Swaps(s, run[0], b) && Full(s, b)) || MarksIn(Step(s, run[0]), run[1..], b))
  }

  /** Whoever fills b marks it, unless a free comes first. */
  ghost predicate FilledIsMarked(s: State, b: nat) {
    Full(s, b) ==> SomebodyMarks(s, b)
  }

  lemma FilledStep(s: State, a: Action, b: nat)
    requires Inv(s) && Enabled(s, a) && s.cfg.InMain(b) && FilledIsMarked(s, b) && !(Swaps(s, a, b) && Full(s, b))
    ensures Step(s, a).cfg == s.cfg && FilledIsMarked(Step(s, a), b)
  {
    hide Inv;
    hide Step;
    hide Full;
    OthersStand(s, a);
    if !Touches(s, a, b) {
      QuietFull(s, a, b);
      QuietRole(s, a, b);
      RolesAfter(s, Step(s, a), a.t, b);
    } else if FreesInto(s, a, b) {
      FreeStep(s, a, b);
    } else if Swaps(s, a, b) {
      SwapStep(s, a, b);
    } else if a.FreeSuper? {
      ClearStep(s, a, b);
      ClearerGone(s, a, b);
      RolesAfter(s, Step(s, a), a.t, b);
    } else if a.MarkTest? || a.MarkRetest? {
      TestFull(s, a, b);
    } else {
      AllocStep(s, a, b);
    }
  }

  lemma ClearerGone(s: State, a: Action, b: nat)
    requires Enabled(s, a) && a.FreeSuper?
    ensures RoleOf(Thr(Step(s, a), a.t), b) == Neither
  {
  }

  lemma TestFull(s: State, a: Action, b: nat)
    requires Inv(s) && Enabled(s, a) && (a.MarkTest? || a.MarkRetest?) && At(s, b) != s.cfg.AllOnes()
    ensures !Full(Step(s, a), b)
  {
  }

  lemma {:induction false} FilledRun(s: State, run: seq<Action>, b: nat)
    requires Inv(s) && Runs(s, run) && s.cfg.InMain(b) && FilledIsMarked(s, b) && !MarksIn(s, run, b)
    ensures FilledIsMarked(After(s, run), b)
    decreases |run|
  {
    hide Inv;
    hide Step;
    hide Enabled;
    hide FilledIsMarked;
    if run != [] {
      StepInv(s, run[0]);
      FilledStep(s, run[0], b);
      FilledRun(Step(s, run[0]), run[1..], b);
    }
  }

  /** Behind a late clear: b was filled again and marked since this thread's free. */
  lemma LateClearFollowsMark(s: State, free: Action, run: seq<Action>, b: nat)
    requires Reachable(s) && Enabled(s, free) && FreesInto(s, free, b) && s.cfg.InMain(b)
    requires Runs(Step(s, free), run) && (forall k :: 0 <= k < |run| ==> run[k].t != free.t)
    requires ClearsLate(After(Step(s, free), run), FreeSuper(free.t), b)
    ensures MarksIn(Step(s, free), run, b)
  {
    ReachableInv(s);
    hide Reachable;
    hide Inv;
    hide Step;
    hide Enabled;
    hide Full;
    FreeStep(s, free, b);
    StepInv(s, free);
    if !MarksIn(Step(s, free), run, b) {
      FilledRun(Step(s, free), run, b);
    }
  }

  // ---------------------------------------------------------------- each late step alone does it

  /** Reached from fresh magazines, with these late steps at b on the way. */
  ghost predicate Reached(s: State, b: nat, late: seq<Late>) {
    exists s0, run :: Start(s0) && s0.supers == map[] && Runs(s0, run) && After(s0, run) == s
                      && LateSteps(s0, run, b) == late
  }

  lemma {:induction false} LateAppend(s: State, run: seq<Action>, a: Action, b: nat)
    requires Runs(s, run) && Enabled(After(s, run), a)
    ensures Runs(s, run + [a]) && After(s, run + [a]) == Step(After(s, run), a)
    ensures LateSteps(s, run + [a], b) == LateSteps(s, run, b) + LateNow(After(s, run), a, b)
    decreases |run|
  {
    hide Enabled;
    hide Step;
    hide LateNow;
    if run == [] {
      assert run + [a] == [a] && [a][1..] == [];
    } else {
      assert (run + [a])[1..] == run[1..] + [a];
      LateAppend(Step(s, run[0]), run[1..], a, b);
    }
  }

  lemma Onward(s: State, a: Action, b: nat, late: seq<Late>) returns (s': State)
    requires Reached(s, b, late) && Enabled(s, a)
    ensures s' == Step(s, a) && Reached(s', b, late + LateNow(s, a, b))
  {
    hide Enabled;
    hide Step;
    var s0, run :| Start(s0) && s0.supers == map[] && Runs(s0, run) && After(s0, run) == s
                   && LateSteps(s0, run, b) == late;
    LateAppend(s0, run, a, b);
    s' := Step(s, a);
    assert After(s0, run + [a]) == s';
  }

  /** A step that touches no supermap is not late. */
  lemma Quietly(s: State, a: Action, b: nat, late: seq<Late>) returns (s': State)
    requires Reached(s, b, late) && Enabled(s, a) && !a.MarkCas? && !a.FreeSuper?
    ensures s' == Step(s, a) && Reached(s', b, late)
  {
    hide Reached;
    hide Step;
    s' := Onward(s, a, b, late);
    assert late + [] == late;
  }

  /** An undisturbed allocation of the lowest clear continuation of b. */
  lemma Allocate(s: State, t: Tid, b: nat, i: nat, late: seq<Late>) returns (s': State)
    requires Reached(s, b, late) && s.cfg.Valid() && s.cfg.InMain(b) && Thr(s, t).Idle?
    requires i < s.cfg.perBitmap && i !in At(s, b) && forall j: nat :: j < i ==> j in At(s, b)
    ensures Reached(s', b, late) && s'.cfg == s.cfg && s'.supers == s.supers && At(s', b) == At(s, b) + {i}
    ensures Thr(s', t) == Marking(b) && forall u :: u != t ==> Thr(s', u) == Thr(s, u)
    ensures forall u, slot :: HasSlot(s', u, slot) <==> HasSlot(s, u, slot) || (u == t && slot == Slot(b, i))
  {
    hide Reached;
    var s1 := Quietly(s, AllocStart(t, b), b, late);
    var s2 := Quietly(s1, AllocLoad(t), b, late);
    assert Thr(s2, t) == Loaded(b, At(s, b)) && FirstUnset(At(s, b), 0) == i;
    s' := Quietly(s2, AllocCas(t), b, late);
  }

  /** The two reads of a mark of a full bitmap. */
  lemma ReadFull(s: State, t: Tid, b: nat, late: seq<Late>) returns (s': State)
    requires Reached(s, b, late) && s.cfg.Valid() && Thr(s, t) == Marking(b) && At(s, b) == s.cfg.AllOnes()
    ensures Reached(s', b, late) && s'.cfg == s.cfg && s'.maps == s.maps && s'.supers == s.supers && s'.held == s.held
    ensures Thr(s', t) == MarkLoaded(b, Get(s.supers, Super(s, b), {})) && forall u :: u != t ==> Thr(s', u) == Thr(s, u)
  {
    hide Reached;
    var s1 := Quietly(s, MarkTest(t), b, late);
    s' := Quietly(s1, MarkLoad(t), b, late);
  }

  /** ... and its compare-and-swap. */
  lemma Swap(s: State, t: Tid, b: nat, late: seq<Late>) returns (s': State)
    requires Reached(s, b, late) && s.cfg.Valid() && Thr(s, t) == MarkLoaded(b, Get(s.supers, Super(s, b), {}))
    ensures Swaps(s, MarkCas(t, false), b) && Reached(s', b, late + LateNow(s, MarkCas(t, false), b))
    ensures s'.cfg == s.cfg && s'.maps == s.maps && s'.held == s.held && Marked(s', b)
    ensures Thr(s', t).Idle? && forall u :: u != t ==> Thr(s', u) == Thr(s, u)
  {
    hide Reached;
    s' := Onward(s, MarkCas(t, false), b, late);
  }

  /** A free up to its supermap access. */
  lemma ClearBit(s: State, t: Tid, b: nat, i: nat, late: seq<Late>) returns (s': State)
    requires Reached(s, b, late) && s.cfg.Valid() && s.cfg.InMain(b) && Thr(s, t).Idle? && HasSlot(s, t, Slot(b, i))
    ensures Reached(s', b, late) && s'.cfg == s.cfg && s'.supers == s.supers && At(s', b) == At(s, b) - {i}
    ensures Thr(s', t) == Cleared(b, At(s, b) - {i} == {}) && forall u :: u != t ==> Thr(s', u) == Thr(s, u)
  {
    hide Reached;
    var s1 := Quietly(s, FreeStart(t, Slot(b, i)), b, late);
    assert Thr(s1, t) == Freeing(Slot(b, i));
    s' := Quietly(s1, FreeAnd(t), b, late);
  }

  /** ... and that access, when the bitmap is not left empty. */
  lemma ClearMark(s: State, t: Tid, b: nat, late: seq<Late>) returns (s': State)
    requires Reached(s, b, late) && s.cfg.Valid() && Thr(s, t) == Cleared(b, false)
    ensures Reached(s', b, late + LateNow(s, FreeSuper(t), b))
    ensures s'.cfg == s.cfg && s'.maps == s.maps && s'.held == s.held && !Marked(s', b)
    ensures Get(s'.supers, Super(s, b), {}) == Get(s.supers, Super(s, b), {}) - {b % s.cfg.perSupermap}
    ensures Thr(s', t).Idle? && forall u :: u != t ==> Thr(s', u) == Thr(s, u)
  {
    hide Reached;
    s' := Onward(s, FreeSuper(t), b, late);
  }

  /** A mark that is not due. */
  lemma TestNotFull(s: State, t: Tid, b: nat, late: seq<Late>) returns (s': State)
    requires Reached(s, b, late) && s.cfg.Valid() && Thr(s, t) == Marking(b) && At(s, b) != s.cfg.AllOnes()
    ensures Reached(s', b, late) && s'.cfg == s.cfg && s'.maps == s.maps && s'.supers == s.supers && s'.held == s.held
    ensures Thr(s', t).Idle? && forall u :: u != t ==> Thr(s', u) == Thr(s, u)
  {
    hide Reached;
    s' := Quietly(s, MarkTest(t), b, late);
  }

  /** Thread 1 takes the first k continuations of b, all but the last. */
  lemma {:induction false} FillTo(cfg: Config, b: nat, k: nat) returns (s: State)
    requires cfg.Valid() && cfg.InMain(b) && k < cfg.perBitmap
    ensures Reached(s, b, []) && s.cfg == cfg && s.supers == map[] && At(s, b) == Upto(k) && AtRest(s)
    ensures forall i: nat :: i < k ==> HasSlot(s, 1, Slot(b, i))
  {
    if k == 0 {
      s := State(cfg, map[], map[], map[], map[]);
      assert Runs(s, []) && After(s, []) == s && LateSteps(s, [], b) == [];
    } else {
      hide Reached;
      hide Step;
      hide Enabled;
      hide FirstUnset;
      hide Start;
      hide LateNow;
      var s1 := FillTo(cfg, b, k - 1);
      var s2 := Allocate(s1, 1, b, k - 1, []);
      assert At(s2, b) == Upto(k);
      assert k in cfg.AllOnes() && k !in At(s2, b);
      s := TestNotFull(s2, 1, b, []);
      forall i: nat | i < k ensures HasSlot(s, 1, Slot(b, i)) {
        assert HasSlot(s2, 1, Slot(b, i));
      }
    }
  }

  /** Thread 0 takes the last one, and has read what it needs to mark the bitmap. */
  lemma FillUp(cfg: Config, b: nat) returns (s: State)
    requires cfg.Valid() && cfg.InMain(b) && cfg.perBitmap >= 2
    ensures Reached(s, b, []) && s.cfg == cfg && s.supers == map[] && At(s, b) == cfg.AllOnes()
    ensures Thr(s, 0) == MarkLoaded(b, {}) && (forall u :: u != 0 ==> Thr(s, u).Idle?) && HasSlot(s, 1, Slot(b, 0))
  {
    hide Reached;
    hide Step;
    hide Enabled;
    hide FirstUnset;
    hide Locks;
    var s1 := FillTo(cfg, b, cfg.perBitmap - 1);
    assert HasSlot(s1, 1, Slot(b, 0));
    var s2 := Allocate(s1, 0, b, cfg.perBitmap - 1, []);
    assert At(s2, b) == cfg.AllOnes();
    s := ReadFull(s2, 0, b, []);
    assert HasSlot(s2, 1, Slot(b, 0)) && s.held == s2.held;
  }

  lemma Unlocked(s: State, b: nat)
    requires forall u :: Thr(s, u).Idle? || Thr(s, u).MarkLoaded? || Thr(s, u).Cleared?
    ensures !Locked(s, b)
  {
    forall u ensures !LocksBitmap(s, u, b) {
      assert Thr(s, u).Idle? || Thr(s, u).MarkLoaded? || Thr(s, u).Cleared?;
    }
  }

  /**
    Marked and not full: thread 1 frees one continuation and clears the mark between thread 0's
    test and its compare-and-swap.
  */
  lemma SupermapCanBeStale(cfg: Config, b: nat) returns (s: State)
    requires cfg.Valid() && cfg.InMain(b) && cfg.perBitmap >= 2
    ensures Reached(s, b, [MarkedLate]) && s.cfg == cfg && AtRest(s)
    ensures Marked(s, b) && At(s, b) != cfg.AllOnes()
  {
    hide Reached;
    hide Step;
    hide Enabled;
    hide FirstUnset;
    hide Locks;
    var s1 := FillUp(cfg, b);
    assert 0 in cfg.AllOnes() && 1 in At(s1, b) - {0};
    var s2 := ClearBit(s1, 1, b, 0, []);
    assert 0 !in At(s2, b);
    var s3 := ClearMark(s2, 1, b, []);
    assert [] + LateNow(s2, FreeSuper(1), b) == [];
    s := Swap(s3, 0, b, []);
    assert !SomebodyClears(s3, b) && !Full(s3, b);
    assert [] + LateNow(s3, MarkCas(0, false), b) == [MarkedLate];
  }

  /** A bitmap filled and marked, undisturbed. */
  lemma MarkUp(cfg: Config, b: nat) returns (s: State)
    requires cfg.Valid() && cfg.InMain(b) && cfg.perBitmap >= 2
    ensures Reached(s, b, []) && s.cfg == cfg && AtRest(s) && At(s, b) == cfg.AllOnes() && HasSlot(s, 1, Slot(b, 0))
  {
    hide Reached;
    hide Step;
    hide Enabled;
    hide Locks;
    var s1 := FillUp(cfg, b);
    Unlocked(s1, b);
    s := Swap(s1, 0, b, []);
    assert [] + LateNow(s1, MarkCas(0, false), b) == [];
    assert HasSlot(s, 1, Slot(b, 0));
  }

  /** Thread 0 fills b again and marks it, while thread 1 has freed but not cleared the mark. */
  lemma RefillAndMark(s: State, b: nat) returns (s': State)
    requires Reached(s, b, []) && s.cfg.Valid() && s.cfg.InMain(b) && At(s, b) == s.cfg.AllOnes() - {0}
    requires Thr(s, 1) == Cleared(b, false) && forall u :: u != 1 ==> Thr(s, u).Idle?
    ensures Reached(s', b, []) && s'.cfg == s.cfg && At(s', b) == s.cfg.AllOnes()
    ensures Thr(s', 1) == Cleared(b, false) && forall u :: u != 1 ==> Thr(s', u).Idle?
  {
    hide Reached;
    hide Step;
    hide Enabled;
    hide Locks;
    assert 0 in s.cfg.AllOnes();
    var s4 := Allocate(s, 0, b, 0, []);
    assert At(s4, b) == s.cfg.AllOnes();
    var s5 := ReadFull(s4, 0, b, []);
    assert Clears(s5, 1, b);
    s' := Swap(s5, 0, b, []);
    assert [] + LateNow(s5, MarkCas(0, false), b) == [];
  }

  /**
    Full and not marked: thread 0 takes the continuation thread 1 freed and marks the bitmap
    before thread 1 clears the mark.
  */
  lemma SupermapCanMissFull(cfg: Config, b: nat) returns (s: State)
    requires cfg.Valid() && cfg.InMain(b) && cfg.perBitmap >= 2
    ensures Reached(s, b, [ClearedLate]) && s.cfg == cfg && AtRest(s)
    ensures !Marked(s, b) && At(s, b) == cfg.AllOnes()
  {
    hide Reached;
    hide Step;
    hide Enabled;
    hide Locks;
    var s2 := MarkUp(cfg, b);
    assert 1 in At(s2, b) - {0};
    var s3 := ClearBit(s2, 1, b, 0, []);
    var s6 := RefillAndMark(s3, b);
    Unlocked(s6, b);
    s := ClearMark(s6, 1, b, []);
    assert Full(s6, b) && !SomebodyMarks(s6, b) && Clears(s6, 1, b);
    assert [] + LateNow(s6, FreeSuper(1), b) == [ClearedLate];
  }
}
