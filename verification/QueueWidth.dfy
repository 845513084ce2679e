/**
  Reader/writer exclusion on `dq_state`: who holds width on a queue, and what every atomic
  update by any number of threads keeps.
*/
module QueueWidth {
  import opened Common
  import opened QueueState

  datatype Queue = Queue(
    word: Word,
    dqWidth: nat,
    units: nat,              // width held by dispatch_sync, async redirection and apply
    drainer: Option<Owned>,  // what the holder of the drain lock owns
    holder: nat)             // the thread that took the lock or was handed it, 0 when nobody has it

  datatype Action =
    | Sync
    | Async
    | Apply(daWidth: nat)
    | GiveBack(daWidth: nat)                        // by dispatch_apply
    | Complete(self: Self)                          // one unit back, and the lock if that frees the width
    | Lock(stealing: bool, self: Self)
    | BarrierSync(self: Self)
    | SlowWakeup(self: Self, overriding: bool, flush: bool)
    | Resume(self: Self)
    | DropBarrier                                   // the drainer goes from barriers to readers
    | HandOut                                       // ... leaves one of its units to a reader
    | DrainerReserve(waiting: bool)                 // ... takes another unit
    | Unlock(nextIsBarrier: bool)
    | Requeue(nextIsBarrier: bool, upgradeAllowed: bool)
    | Transfer(nextOwner: nat)                      // the barrier goes to a waiting thread
    | HandOver(count: nat, nextIsBarrier: bool)     // units to that many waiting readers, and unlock
    | Flags(word: Word)      // suspend, enqueue, override, dirty: no width moves

  function NewQueue(dqWidth: nat): Queue
    requires dqWidth <= WIDTH_FULL
  {
    Queue(InitWord(dqWidth), dqWidth, 0, None, 0)
  }

  predicate Start(q: Queue) {
    1 <= q.dqWidth < WIDTH_FULL && q == NewQueue(q.dqWidth)
  }

  /** What a drainer gives back when it hands `count` of its units to readers first. */
  function HandedOver(q: Queue, count: nat, nextIsBarrier: bool): Owned
    requires q.drainer.Some?
  {
    var owned := q.drainer.value;
    AdjustOwned(q.dqWidth, owned.(units := owned.units - count), nextIsBarrier)
  }

  predicate Enabled(q: Queue, a: Action) {
    q.word.Valid() && 1 <= q.dqWidth < WIDTH_FULL &&
    match a
    case Sync => ReserveSync(q.word).Some? && q.word.width + 1 < WIDTH_RANGE
    case Async => AcquireAsync(q.word).Some?
    case Apply(daWidth) => true
    case GiveBack(daWidth) => daWidth <= q.units && daWidth < WIDTH_RANGE
    case Complete(self) => q.units >= 1 && self.Valid()
    case Lock(stealing, self) => CanLock(q.word) && self.Valid()
    case BarrierSync(self) => AcquireBarrier(q.word, q.dqWidth, self).Some? && self.Valid()
    case SlowWakeup(self, overriding, flush) => !q.word.pended && self.Valid()
    case Resume(self) => q.word.suspend >= SUSPEND_INTERVAL && self.Valid()
    case DropBarrier => q.drainer.Some? && q.drainer.value.barrier
    case HandOut => q.drainer.Some? && !q.drainer.value.barrier && q.drainer.value.units >= 1
    case DrainerReserve(waiting) =>
      q.drainer.Some? && !q.drainer.value.barrier && q.drainer.value.units == 0 &&
      if waiting then q.word.width + 1 < WIDTH_RANGE else AcquireAsync(q.word).Some?
    case Unlock(nextIsBarrier) =>
      q.drainer.Some? && Holds(q.word, AdjustOwned(q.dqWidth, q.drainer.value, nextIsBarrier))
    case Requeue(nextIsBarrier, _) =>
      q.drainer.Some? && Holds(q.word, AdjustOwned(q.dqWidth, q.drainer.value, nextIsBarrier))
    case Transfer(nextOwner) => q.drainer.Some? && q.drainer.value.barrier && 0 < nextOwner < 0x8000_0000
    case HandOver(count, nextIsBarrier) =>
      q.drainer.Some? && Holds(q.word, HandedOver(q, count, nextIsBarrier)) &&
      (count > 0 ==> q.drainer.value.barrier && !nextIsBarrier)
    case Flags(w) =>
      var v := q.word;
      w.Valid() && w.(suspend := v.suspend, dirty := v.dirty, hasOverride := v.hasOverride, pended := v.pended,
                      enqueued := v.enqueued, noWaiters := v.noWaiters) == v
  }

  /** The width a pending barrier keeps reserved when no drainer runs. */
  function Reserved(q: Queue): int {
    if q.word.pending then q.dqWidth - 1 else 0
  }

  function DrainerUnits(q: Queue): int {
    if q.drainer.Some? then q.drainer.value.units else 0
  }

  /** What the holder of a barrier owns. */
  function Barrier(q: Queue): Option<Owned> {
    Some(Owned(true, q.dqWidth, false))
  }

  /** After an update that takes the whole width if it can: the word's owner is new if it did. */
  function Taken(q: Queue, w: Word, self: Self): Queue {
    if DrainLocked(w) && !DrainLocked(q.word) then q.(word := w, drainer := Barrier(q), holder := self.owner)
    else q.(word := w)
  }

  function Step(q: Queue, a: Action): Queue
    requires Enabled(q, a)
  {
    match a
    case Sync => q.(word := ReserveSync(q.word).value, units := q.units + 1)
    case Async => q.(word := AcquireAsync(q.word).value, units := q.units + 1)
    case Apply(daWidth) => var (k, w) := ReserveApply(q.word, daWidth); q.(word := w, units := q.units + k)
    case GiveBack(daWidth) => q.(word := Relinquish(q.word, daWidth), units := q.units - daWidth)
    case Complete(self) => Taken(q.(units := q.units - 1), QueueState.Complete(q.word, q.dqWidth, self), self)
    case Lock(stealing, self) =>
      // The drainer owns the width it is told about, and the reservation it found.
      var w := DrainLock(q.word, q.dqWidth, stealing, self).value;
      q.(word := w, drainer := Some(Owned(w.inBarrier, WIDTH_FULL - q.word.width + Reserved(q), false)),
         holder := self.owner)
    case BarrierSync(self) =>
      q.(word := AcquireBarrier(q.word, q.dqWidth, self).value, drainer := Barrier(q), holder := self.owner)
    case SlowWakeup(self, overriding, flush) =>
      Taken(q, QueueState.SlowWakeup(q.word, q.dqWidth, self, overriding, flush), self)
    case Resume(self) => Taken(q, QueueState.Resume(q.word, q.dqWidth, self), self)
    case DropBarrier => q.(word := q.word.(inBarrier := false), drainer := Some(q.drainer.value.(barrier := false)))
    case HandOut => q.(units := q.units + 1, drainer := Some(q.drainer.value.(units := q.drainer.value.units - 1)))
    case DrainerReserve(waiting) =>
      q.(word := if waiting then PlusWidth(q.word, 1) else AcquireAsync(q.word).value,
         drainer := Some(q.drainer.value.(units := 1)))
    case Unlock(nextIsBarrier) =>
      var (done, w) := DrainUnlock(q.word, AdjustOwned(q.dqWidth, q.drainer.value, nextIsBarrier));
      if done then q.(word := w, drainer := None, holder := 0) else q.(word := w)
    case Requeue(nextIsBarrier, upgradeAllowed) =>
      var w := QueueState.Requeue(q.word, AdjustOwned(q.dqWidth, q.drainer.value, nextIsBarrier), q.dqWidth,
                                  upgradeAllowed);
      if w.inBarrier then q.(word := w, drainer := Barrier(q)) else q.(word := w, drainer := None, holder := 0)
    case Transfer(nextOwner) =>
      q.(word := DrainTransfer(q.word, Owned(false, 0, false), nextOwner), holder := nextOwner)
    case HandOver(count, nextIsBarrier) =>
      q.(word := DrainTransfer(q.word, HandedOver(q, count, nextIsBarrier), 0),
         units := q.units + count, drainer := None, holder := 0)
    case Flags(w) => q.(word := w)
  }

  predicate Inv(q: Queue) {
    && q.word.Valid() && 1 <= q.dqWidth < WIDTH_FULL
    && q.word.width == WIDTH_FULL - q.dqWidth + q.units + Reserved(q) + DrainerUnits(q)
    && (q.drainer.Some? <==> DrainLocked(q.word)) && q.word.owner == q.holder
    && (q.drainer.None? ==> !q.word.inBarrier)
    && (q.drainer.Some? ==>
          var o := q.drainer.value;
          && !q.word.pending && !o.keepsPending && 0 <= o.units <= q.dqWidth
          && o.barrier == q.word.inBarrier
          && (o.barrier ==> o.units == q.dqWidth && q.units == 0))
  }

  /** The drain lock is a barrier exactly when nobody else holds width. */
  lemma LockIsBarrierIffAlone(q: Queue, stealing: bool, self: Self)
    requires Inv(q) && Enabled(q, Lock(stealing, self))
    ensures Step(q, Lock(stealing, self)).word.inBarrier <==> q.units == 0
    ensures q.word.pending ==> q.units == 0
    ensures q.units + DrainerUnits(Step(q, Lock(stealing, self))) == q.dqWidth
  {
    NumericTests(q.word);
    SumTest(q.word, q.dqWidth);
  }

  /** What try_lock returns is the width the drainer took beyond the reservation, and the barrier bit. */
  lemma LockReturnsOwned(q: Queue, stealing: bool, self: Self)
    requires Inv(q) && Enabled(q, Lock(stealing, self))
    ensures var o := Step(q, Lock(stealing, self)).drainer.value;
      DrainLockOwned(q.word, q.dqWidth) == o.(units := o.units - Reserved(q)).Raw()
  {
  }

  lemma ReserveInv(q: Queue, a: Action)
    requires Inv(q) && Enabled(q, a) && (a.Sync? || a.Async? || a.Apply? || a.GiveBack?)
    ensures Inv(Step(q, a))
  {
    hide Word.Raw;
    NumericTests(q.word);
  }

  lemma LockInv(q: Queue, a: Action)
    requires Inv(q) && Enabled(q, a) && (a.Lock? || a.BarrierSync?)
    ensures Inv(Step(q, a))
  {
    hide Word.Raw;
    NumericTests(q.word);
    if a.Lock? {
      LockIsBarrierIffAlone(q, a.stealing, a.self);
    }
  }

  /** Who frees the last unit, or lifts the last suspension, gets the whole width or changes nothing. */
  lemma TakeInv(q: Queue, v: Word, self: Self)
    requires Inv(q.(word := v)) && IsRunnable(v) && !DrainLocked(v) && self.Valid()
    ensures var w := TakeFullWidth(v, q.dqWidth, self);
      && (w.inBarrier <==> q.units == 0)
      && (w == v || (q.units == 0 && w.inBarrier && DrainLocked(w)
                     && Inv(q.(word := w, drainer := Barrier(q), holder := self.owner))))
  {
    hide Word.Raw;
    NumericTests(v);
  }

  /** One unit less, dirty or not. */
  lemma UnitBack(q: Queue)
    requires Inv(q) && q.units >= 1
    ensures var (v, r) := (PlusWidth(q.word, -1), q.(units := q.units - 1));
      && v.Valid() && v.suspend == q.word.suspend && v.inBarrier == q.word.inBarrier && v.owner == q.word.owner
      && Inv(r.(word := v)) && Inv(r.(word := v.(dirty := true)))
  {
    hide Word.Raw;
  }

  lemma CompleteInv(q: Queue, a: Action)
    requires Inv(q) && Enabled(q, a) && a.Complete?
    ensures Inv(Step(q, a))
    ensures Step(q, a).word.inBarrier && !q.word.inBarrier ==> q.units == 1 && q.drainer == None
  {
    hide TakeFullWidth;
    hide IsRunnable;
    UnitBack(q);
    hide PlusWidth;
    var v := PlusWidth(q.word, -1);
    var u := if IsRunnable(q.word) then v else v.(dirty := true);
    if IsRunnable(v) && !DrainLocked(u) {
      RunnableDirty(v);
      TakeInv(q.(units := q.units - 1), u, a.self);
    }
  }

  lemma RunnableDirty(v: Word)
    requires v.Valid()
    ensures IsRunnable(v.(dirty := true)) == IsRunnable(v)
  {
    hide Word.Raw;
    NumericTests(v);
    NumericTests(v.(dirty := true));
  }

  lemma ResumeInv(q: Queue, a: Action)
    requires Inv(q) && Enabled(q, a) && a.Resume?
    ensures Inv(Step(q, a))
    ensures Step(q, a).word.inBarrier && !q.word.inBarrier ==> q.units == 0 && q.drainer == None
  {
    hide TakeFullWidth;
    hide IsRunnable;
    var v := q.word.(suspend := q.word.suspend - SUSPEND_INTERVAL);
    assert Inv(q.(word := v));
    if IsRunnable(v) && !DrainLocked(v) {
      TakeInv(q, v, a.self);
    }
  }

  /** A slow waiter locks only when nobody holds width. */
  lemma SlowLockInv(q: Queue, v: Word, w: Word, self: Self)
    requires Inv(q.(word := v)) && IsRunnable(v) && !DrainLocked(v) && LocksAsBarrier(v, q.dqWidth)
    requires w.Valid() && w.suspend == 0 && w.inBarrier && w.width == WIDTH_FULL && !w.pending
    requires w.owner == self.owner && self.Valid()
    ensures q.units == 0 && Inv(q.(word := w, drainer := Barrier(q), holder := self.owner))
  {
    NumericTests(v);
    SumTest(v, q.dqWidth);
    hide Word.Raw;
  }

  lemma SlowWakeupInv(q: Queue, a: Action)
    requires Inv(q) && Enabled(q, a) && a.SlowWakeup?
    ensures Inv(Step(q, a))
    ensures Step(q, a).word.inBarrier && !q.word.inBarrier ==> q.units == 0 && q.drainer == None
  {
    hide Word.Raw;
    hide IsRunnable;
    hide LocksAsBarrier;
    var v := q.word.(noWaiters := true, dirty := q.word.dirty || a.overriding || a.flush,
                     hasOverride := q.word.hasOverride || a.overriding);
    assert Inv(q.(word := v));
    if !DrainLocked(v) && IsRunnable(v) && a.flush && LocksAsBarrier(v, q.dqWidth) {
      SlowLockInv(q, v, QueueState.SlowWakeup(q.word, q.dqWidth, a.self, a.overriding, a.flush), a.self);
    }
  }

  /** Readers after barriers, and one reader more or less: the drainer's units stay in the width bits. */
  lemma DrainInv(q: Queue, a: Action)
    requires Inv(q) && Enabled(q, a) && (a.DropBarrier? || a.HandOut? || a.DrainerReserve? || a.Transfer?)
    ensures Inv(Step(q, a))
    ensures Step(q, a).word.inBarrier ==> q.word.inBarrier
  {
    hide Word.Raw;
    NumericTests(q.word);
  }

  lemma UnlockInv(q: Queue, nextIsBarrier: bool)
    requires Inv(q) && Enabled(q, Unlock(nextIsBarrier))
    ensures Inv(Step(q, Unlock(nextIsBarrier)))
  {
    hide DrainUnlock;
  }

  lemma HandOverInv(q: Queue, a: Action)
    requires Inv(q) && Enabled(q, a) && a.HandOver?
    ensures Inv(Step(q, a)) && !Step(q, a).word.inBarrier
  {
    hide Word.Raw;
  }

  /** The upgrade at the end of a drain: the drainer gets the whole width only if nobody holds any. */
  lemma RequeueInv(q: Queue, a: Action)
    requires Inv(q) && Enabled(q, a) && a.Requeue?
    ensures Inv(Step(q, a))
    ensures Step(q, a).word.inBarrier ==> q.units == 0 && Step(q, a).drainer == Barrier(q)
  {
    var owned := AdjustOwned(q.dqWidth, q.drainer.value, a.nextIsBarrier);
    NumericTests(Minus(q.word, owned));
    hide Word.Raw;
    hide ShouldWakeup;
  }

  lemma StepInv(q: Queue, a: Action)
    requires Inv(q) && Enabled(q, a)
    ensures Inv(Step(q, a))
  {
    hide Inv;
    hide Enabled;
    hide Step;
    match a {
      case Lock(_, _) => LockInv(q, a);
      case BarrierSync(_) => LockInv(q, a);
      case Complete(_) => CompleteInv(q, a);
      case Resume(_) => ResumeInv(q, a);
      case SlowWakeup(_, _, _) => SlowWakeupInv(q, a);
      case DropBarrier => DrainInv(q, a);
      case HandOut => DrainInv(q, a);
      case DrainerReserve(_) => DrainInv(q, a);
      case Transfer(_) => DrainInv(q, a);
      case Unlock(nextIsBarrier) => UnlockInv(q, nextIsBarrier);
      case HandOver(_, _) => HandOverInv(q, a);
      case Requeue(_, _) => RequeueInv(q, a);
      case Flags(_) => FlagsInv(q, a);
      case _ => ReserveInv(q, a);
    }
  }

  lemma FlagsInv(q: Queue, a: Action)
    requires Inv(q) && Enabled(q, a) && a.Flags?
    ensures Inv(Step(q, a)) && Step(q, a).word.inBarrier == q.word.inBarrier
  {
    hide Word.Raw;
  }

  ghost predicate Runs(q: Queue, run: seq<Action>)
    decreases |run|
  {
    run == [] || (Enabled(q, run[0]) && Runs(Step(q, run[0]), run[1..]))
  }

  ghost function After(q: Queue, run: seq<Action>): Queue
    requires Runs(q, run)
    decreases |run|
  {
    if run == [] then q else After(Step(q, run[0]), run[1..])
  }

  lemma {:induction false} RunInv(q: Queue, run: seq<Action>)
    requires Inv(q) && Runs(q, run)
    ensures Inv(After(q, run))
    decreases |run|
  {
    if run != [] {
      StepInv(q, run[0]);
      RunInv(Step(q, run[0]), run[1..]);
    }
  }

  /**
    Exclusion: while the barrier bit is set the drainer owns the whole width and nobody else
    any, and every way to reserve width fails.
  */
  lemma BarrierExcludes(q0: Queue, run: seq<Action>, daWidth: nat, stealing: bool, self: Self)
    requires Start(q0) && Runs(q0, run) && After(q0, run).word.inBarrier
    ensures var q := After(q0, run);
      && Inv(q) && q.units == 0 && q.drainer == Some(Owned(true, q.dqWidth, false))
      && ReserveSync(q.word) == None && AcquireAsync(q.word) == None
      && ReserveApply(q.word, daWidth) == (0, q.word)
      && AcquireBarrier(q.word, q.dqWidth, self) == None
      && !CanLock(q.word) && DrainLockOwned(q.word, q.dqWidth) == 0
  {
    RunInv(q0, run);
    NumericTests(After(q0, run).word);
  }

  /** The updates that take the whole width: two locks, the last unit or suspension gone, the upgrade. */
  predicate TakesWidth(a: Action) {
    a.Lock? || a.BarrierSync? || a.Complete? || a.SlowWakeup? || a.Resume? || (a.Requeue? && a.upgradeAllowed)
  }

  /** Nothing else sets the barrier bit. */
  lemma BarrierNeedsLock(q: Queue, a: Action)
    requires Inv(q) && Enabled(q, a) && !q.word.inBarrier && !TakesWidth(a)
    ensures !Step(q, a).word.inBarrier
  {
    match a {
      case DropBarrier => DrainInv(q, a);
      case HandOut => DrainInv(q, a);
      case DrainerReserve(_) => DrainInv(q, a);
      case Transfer(_) => DrainInv(q, a);
      case HandOver(_, _) => HandOverInv(q, a);
      case Flags(_) => FlagsInv(q, a);
      case Unlock(_) => hide DrainUnlock;
      case Requeue(_, _) => hide Word.Raw;
      case _ => hide Word.Raw; NumericTests(q.word);
    }
  }

  /**
    Readers in, barrier out: a barrier starts only when no width is held, but the unit the same
    update gives back, and nobody drains, but the drainer that upgrades.  Who started it holds it.
  */
  lemma BarrierStartsAlone(q0: Queue, run: seq<Action>, a: Action)
    requires Start(q0) && Runs(q0, run) && Enabled(After(q0, run), a)
    requires !After(q0, run).word.inBarrier && Step(After(q0, run), a).word.inBarrier
    ensures var (q, q') := (After(q0, run), Step(After(q0, run), a));
      && TakesWidth(a) && q'.units == 0 && q'.drainer == Barrier(q')
      && (q.drainer == None || a.Requeue?) && q.units == if a.Complete? then 1 else 0
  {
    RunInv(q0, run);
    var q := After(q0, run);
    BarrierStarts(q, a);
  }

  lemma BarrierStarts(q: Queue, a: Action)
    requires Inv(q) && Enabled(q, a) && !q.word.inBarrier && Step(q, a).word.inBarrier
    ensures var q' := Step(q, a);
      && TakesWidth(a) && q'.units == 0 && q'.drainer == Barrier(q')
      && (q.drainer == None || a.Requeue?) && q.units == if a.Complete? then 1 else 0
  {
    StepInv(q, a);
    BarrierHeld(Step(q, a));
    if !TakesWidth(a) {
      BarrierNeedsLock(q, a);
    }
    match a {
      case Lock(stealing, self) => LockIsBarrierIffAlone(q, stealing, self);
      case Complete(_) => CompleteInv(q, a);
      case Resume(_) => ResumeInv(q, a);
      case SlowWakeup(_, _, _) => SlowWakeupInv(q, a);
      case Requeue(_, _) => RequeueInv(q, a);
      case _ =>
    }
  }

  /**
    When they do: the last unit given back, the last suspension lifted and the drainer's upgrade
    take the whole width exactly when nobody else holds any of it and the queue may run.
  */
  ghost predicate TakesWhenAlone(q: Queue, a: Action) {
    match a
    case Complete(_) => q.units == 1 && q.drainer == None && q.word.suspend == 0
    case Resume(_) => q.units == 0 && q.drainer == None && q.word.suspend == SUSPEND_INTERVAL
    case Requeue(nextIsBarrier, upgradeAllowed) =>
      q.units == 0 && q.word.suspend == 0 && q.dqWidth > 1 && nextIsBarrier && upgradeAllowed
    case _ => false
  }

  lemma TakesExactlyWhenAlone(q: Queue, a: Action)
    requires Inv(q) && Enabled(q, a)
    requires a.Requeue? || (!q.word.inBarrier && (a.Complete? || a.Resume?))
    ensures Step(q, a).word.inBarrier <==> TakesWhenAlone(q, a)
  {
    hide Inv;
    hide Enabled;
    hide Step;
    hide TakesWhenAlone;
    match a {
      case Complete(_) => CompleteWhenAlone(q, a);
      case Resume(_) => ResumeWhenAlone(q, a);
      case Requeue(_, _) => RequeueWhenAlone(q, a);
    }
  }

  /** The attempt, on a queue whose word has become v, or v made dirty. */
  lemma AttemptWhenAlone(r: Queue, v: Word, u: Word, self: Self)
    requires Inv(r.(word := v)) && Inv(r.(word := u)) && !v.inBarrier && self.Valid()
    requires u == v || u == v.(dirty := true)
    ensures var w := if !IsRunnable(v) then v else if DrainLocked(u) then u else TakeFullWidth(u, r.dqWidth, self);
      w.inBarrier <==> r.units == 0 && r.drainer == None && v.suspend == 0
  {
    hide Word.Raw;
    hide IsRunnable;
    hide TakeFullWidth;
    NumericTests(v);
    if IsRunnable(v) && !DrainLocked(u) {
      RunnableDirty(v);
      TakeInv(r, u, self);
    }
  }

  lemma CompleteWhenAlone(q: Queue, a: Action)
    requires Inv(q) && Enabled(q, a) && a.Complete? && !q.word.inBarrier
    ensures Step(q, a).word.inBarrier <==> TakesWhenAlone(q, a)
  {
    hide Word.Raw;
    hide IsRunnable;
    hide TakeFullWidth;
    UnitBack(q);
    hide PlusWidth;
    hide Inv;
    var v := PlusWidth(q.word, -1);
    var u := if IsRunnable(q.word) then v else v.(dirty := true);
    AttemptWhenAlone(q.(units := q.units - 1), v, u, a.self);
  }

  lemma ResumeWhenAlone(q: Queue, a: Action)
    requires Inv(q) && Enabled(q, a) && a.Resume? && !q.word.inBarrier
    ensures Step(q, a).word.inBarrier <==> TakesWhenAlone(q, a)
  {
    hide Word.Raw;
    hide IsRunnable;
    hide TakeFullWidth;
    var v := q.word.(suspend := q.word.suspend - SUSPEND_INTERVAL);
    assert Inv(q.(word := v));
    hide Inv;
    AttemptWhenAlone(q, v, v, a.self);
  }

  lemma RequeueWhenAlone(q: Queue, a: Action)
    requires Inv(q) && Enabled(q, a) && a.Requeue?
    ensures Step(q, a).word.inBarrier <==> TakesWhenAlone(q, a)
  {
    NumericTests(Minus(q.word, AdjustOwned(q.dqWidth, q.drainer.value, a.nextIsBarrier)));
    hide Word.Raw;
  }

  lemma BarrierHeld(q: Queue)
    requires Inv(q) && q.word.inBarrier
    ensures q.units == 0 && q.drainer == Barrier(q)
  {
  }

  /** The upgrade happens: after a barrier and readers, the next barrier is at the head and nobody reads. */
  lemma UpgradeExample(dqWidth: nat, self: Self)
    requires 2 <= dqWidth < WIDTH_FULL && self.Valid()
    ensures var q0 := NewQueue(dqWidth);
      var run := [Lock(true, self), DropBarrier];
      && Start(q0) && Runs(q0, run) && Enabled(After(q0, run), Requeue(true, true))
      && !After(q0, run).word.inBarrier && Step(After(q0, run), Requeue(true, true)).word.inBarrier
  {
    var q0 := NewQueue(dqWidth);
    var lock := Lock(true, self);
    NumericTests(q0.word);
    assert Inv(q0) && Enabled(q0, lock);
    LockInv(q0, lock);
    LockIsBarrierIffAlone(q0, true, self);
    var q1 := Step(q0, lock);
    BarrierHeld(q1);
    assert Enabled(q1, DropBarrier);
    var q2 := Step(q1, DropBarrier);
    assert q2.word.width == WIDTH_FULL && q2.word.suspend == 0 && !q2.word.pending;
    UpgradeFires(q2);
    RunTwo(q0, lock, DropBarrier);
  }

  lemma RunTwo(q: Queue, a: Action, b: Action)
    requires Enabled(q, a) && Enabled(Step(q, a), b)
    ensures Runs(q, [a, b]) && After(q, [a, b]) == Step(Step(q, a), b)
  {
    hide Enabled;
    hide Step;
    RunMore(Step(q, a), b, []);
    RunMore(q, a, [b]);
    assert [b] + [] == [b] && [a] + [b] == [a, b];
  }

  lemma RunMore(q: Queue, a: Action, rest: seq<Action>)
    requires Enabled(q, a) && Runs(Step(q, a), rest)
    ensures Runs(q, [a] + rest) && After(q, [a] + rest) == After(Step(q, a), rest)
  {
    hide Enabled;
    hide Step;
    assert ([a] + rest)[1..] == rest;
  }

  /** The upgrade fires exactly so. */
  lemma UpgradeFires(q: Queue)
    requires q.word.Valid() && q.word.width == WIDTH_FULL && q.word.suspend == 0 && !q.word.pending
    requires !q.word.inBarrier && q.drainer == Some(Owned(false, q.dqWidth, false)) && 2 <= q.dqWidth < WIDTH_FULL
    ensures Enabled(q, Requeue(true, true)) && Step(q, Requeue(true, true)).word.inBarrier
  {
    NumericTests(Minus(q.word, Owned(false, 1, true)));
    hide Word.Raw;
  }

  /** Async and apply reservations, a drainer's own among them, never go beyond the queue's width. */
  lemma ReserveWithinWidth(q0: Queue, run: seq<Action>, a: Action)
    requires Start(q0) && Runs(q0, run) && Enabled(After(q0, run), a)
    requires a.Async? || (a.DrainerReserve? && !a.waiting)
             || (a.Apply? && ReserveApply(After(q0, run).word, a.daWidth).0 > 0)
    ensures var q := Step(After(q0, run), a); q.units + DrainerUnits(q) + Reserved(q) <= q.dqWidth
  {
    hide Runs;
    hide After;
    RunInv(q0, run);
    ReserveFits(After(q0, run), a);
  }

  lemma ReserveFits(q: Queue, a: Action)
    requires Inv(q) && Enabled(q, a)
    requires a.Async? || (a.DrainerReserve? && !a.waiting) || (a.Apply? && ReserveApply(q.word, a.daWidth).0 > 0)
    ensures var r := Step(q, a); r.units + DrainerUnits(r) + Reserved(r) <= r.dqWidth
  {
    hide Word.Raw;
    NumericTests(q.word);
    StepInv(q, a);
  }

  /** _dq_state_used_width is the width in use, reservations for a pending barrier left out. */
  lemma UsedWidthExact(q0: Queue, run: seq<Action>)
    requires Start(q0) && Runs(q0, run)
    ensures var q := After(q0, run); UsedWidth(q.word, q.dqWidth) == q.units + DrainerUnits(q)
  {
    hide Runs;
    hide After;
    RunInv(q0, run);
    UsedWidthOf(After(q0, run));
  }

  lemma UsedWidthOf(q: Queue)
    requires Inv(q)
    ensures UsedWidth(q.word, q.dqWidth) == q.units + DrainerUnits(q)
  {
  }

  /** What is left of a queue's width, a pending barrier's reservation taken off; 0 beyond the limit. */
  function Unreserved(q: Queue): nat {
    Max(0, q.dqWidth - q.units - DrainerUnits(q) - Reserved(q))
  }

  /** _dq_state_available_width is that, and dispatch_apply gets all it asks for if there is that much. */
  lemma AvailableWidthExact(q0: Queue, run: seq<Action>, daWidth: nat)
    requires Start(q0) && Runs(q0, run)
    ensures var q := After(q0, run);
      && Inv(q) && AvailableWidth(q.word) == Unreserved(q)
      && ReserveApply(q.word, daWidth).0 == Min(daWidth, Unreserved(q))
  {
    hide Runs;
    hide After;
    RunInv(q0, run);
    AvailableWidthOf(After(q0, run), daWidth);
  }

  lemma AvailableWidthOf(q: Queue, daWidth: nat)
    requires Inv(q)
    ensures AvailableWidth(q.word) == Unreserved(q)
    ensures ReserveApply(q.word, daWidth).0 == Min(daWidth, Unreserved(q))
  {
  }

  // ---------------------------------------------------------------- a pending barrier

  /**
    While a barrier is pending no reader gets in by dispatch_sync or dispatch_async, and the lock,
    which will be a barrier, can be had exactly when no reader is left and the queue not suspended.
  */
  lemma PendingRefuses(q0: Queue, run: seq<Action>)
    requires Start(q0) && Runs(q0, run) && After(q0, run).word.pending
    ensures var q := After(q0, run);
      && Inv(q) && ReserveSync(q.word) == None && AcquireAsync(q.word) == None && q.drainer == None
      && (CanLock(q.word) <==> q.units == 0 && q.word.suspend == 0) && Unreserved(q) == Max(0, 1 - q.units)
  {
    hide Runs;
    hide After;
    RunInv(q0, run);
    PendingWord(After(q0, run));
  }

  lemma PendingWord(q: Queue)
    requires Inv(q) && q.word.pending
    ensures ReserveSync(q.word) == None && AcquireAsync(q.word) == None && q.drainer == None
    ensures CanLock(q.word) <==> q.units == 0 && q.word.suspend == 0
    ensures Unreserved(q) == Max(0, 1 - q.units)
  {
    hide Word.Raw;
    NumericTests(q.word);
    SyncWord(q.word);
    AsyncWord(q.word);
  }

  /**
    So its readers only leave; but dispatch_apply does not look at the reservation, and takes the
    one unit it leaves when nobody else holds any.
  */
  lemma PendingDrains(q0: Queue, run: seq<Action>, a: Action)
    requires Start(q0) && Runs(q0, run) && Enabled(After(q0, run), a)
    requires After(q0, run).word.pending && Step(After(q0, run), a).word.pending
    ensures var (q, q') := (After(q0, run), Step(After(q0, run), a));
      q'.units <= q.units || (a.Apply? && a.daWidth > 0 && q.units == 0 && q'.units == 1)
  {
    hide Runs;
    hide After;
    RunInv(q0, run);
    PendingStep(After(q0, run), a);
  }

  lemma PendingStep(q: Queue, a: Action)
    requires Inv(q) && Enabled(q, a) && q.word.pending
    ensures var q' := Step(q, a);
      q'.units <= q.units || (a.Apply? && a.daWidth > 0 && q.units == 0 && q'.units == 1)
  {
    PendingWord(q);
    if a.Apply? {
      AvailableWidthOf(q, a.daWidth);
    }
    hide Word.Raw;
    hide ReserveApply;
    hide Inv;
    hide QueueState.Complete;
    hide QueueState.Resume;
    hide QueueState.SlowWakeup;
    hide DrainLock;
  }

  /** A drainer that unlocks with a barrier next leaves it pending, on a queue wider than 1, and never else. */
  lemma UnlockReserves(q: Queue, a: Action)
    requires Inv(q) && Enabled(q, a) && (a.Unlock? || a.HandOver?) && !DrainLocked(Step(q, a).word)
    ensures Step(q, a).word.pending <==> a.nextIsBarrier && q.dqWidth > 1
  {
    hide Word.Raw;
  }

  // ---------------------------------------------------------------- no wakeup is lost

  /**
    DIRTY, by which an enqueuer tells a drainer to look again, goes away only if the queue is then
    locked, so that its holder will look, or in a hand-over, whose caller looks at the word it stored;
    unless somebody clears it for a reason outside this model.
  */
  lemma DirtyNotLost(q0: Queue, run: seq<Action>, a: Action)
    requires Start(q0) && Runs(q0, run) && Enabled(After(q0, run), a)
    requires After(q0, run).word.dirty && !Step(After(q0, run), a).word.dirty
    ensures DrainLocked(Step(After(q0, run), a).word) || a.HandOver? || a.Flags?
  {
    hide Runs;
    hide After;
    RunInv(q0, run);
    DirtyStep(After(q0, run), a);
  }

  lemma DirtyStep(q: Queue, a: Action)
    requires Inv(q) && Enabled(q, a) && q.word.dirty && !Step(q, a).word.dirty
    ensures DrainLocked(Step(q, a).word) || a.HandOver? || a.Flags?
  {
    match a {
      case Complete(self) => CompleteWord(q.word, q.dqWidth, self); hide QueueState.Complete;
      case Resume(self) => ResumeWord(q.word, q.dqWidth, self); hide QueueState.Resume;
      case SlowWakeup(self, overriding, flush) =>
        SlowWakeupWord(q.word, q.dqWidth, self, overriding, flush);
        hide QueueState.SlowWakeup;
      case Requeue(next, upgrade) =>
        RequeueWord(q.word, AdjustOwned(q.dqWidth, q.drainer.value, next), q.dqWidth, upgrade);
        hide QueueState.Requeue;
      case Unlock(_) => hide Word.Raw;
      case _ => hide Word.Raw;
    }
  }

  /** Nothing leaks: with nothing held, the width bits are back where the queue started. */
  lemma WidthReturns(q0: Queue, run: seq<Action>)
    requires Start(q0) && Runs(q0, run)
    requires var q := After(q0, run); q.units == 0 && q.drainer == None && !q.word.pending
    ensures var q := After(q0, run); Inv(q) && q.word.width == InitWord(q.dqWidth).width && !q.word.inBarrier
  {
    RunInv(q0, run);
  }

  /**
    The sync reservation does not look at the width bits, so the 2^16-th unit carries into the
    barrier bit.  It does exactly when the width bits are all ones.
  */
  lemma SyncCarriesIntoBarrier(w: Word)
    requires w.Valid() && ReserveSync(w).Some?
    ensures ReserveSync(w).value.inBarrier <==> w.width == WIDTH_RANGE - 1
    ensures w.width < WIDTH_RANGE - 1 ==> ReserveSync(w) == Some(w.(width := w.width + 1))
  {
  }

  /** n calls of dispatch_sync on a new queue. */
  ghost function Syncs(n: nat): seq<Action> {
    seq(n, _ => Sync)
  }

  lemma {:induction false} SyncsHold(q: Queue, n: nat)
    requires q.word.Valid() && 1 <= q.dqWidth < WIDTH_FULL && q.word.width + n < WIDTH_RANGE
    requires IsSyncRunnable(q.word) && !q.word.dirty && !q.word.pending
    ensures Runs(q, Syncs(n))
    ensures After(q, Syncs(n)) == q.(word := q.word.(width := q.word.width + n), units := q.units + n)
    decreases n
  {
    hide Word.Raw;
    if n > 0 {
      assert Syncs(n)[0] == Sync && Syncs(n)[1..] == Syncs(n - 1);
      NumericTests(q.word);
      NumericTests(q.word.(width := q.word.width + 1));
      SyncsHold(Step(q, Sync), n - 1);
    }
  }

  /**
    The words above are reached: on a new queue of any width, 0x7fff + dqWidth readers later the
    width bits are all ones, and the next reader sets the barrier bit with every reader still in.
  */
  lemma SyncCarryReached(dqWidth: nat)
    requires 2 <= dqWidth < WIDTH_FULL - 1
    ensures var q0 := NewQueue(dqWidth);
      var run := Syncs(0x7fff + dqWidth);
      && Start(q0) && Runs(q0, run)
      && var q := After(q0, run);
         && q.word.Valid() && q.units == 0x7fff + dqWidth && q.drainer == None
         && q.word.width == WIDTH_RANGE - 1 && !q.word.inBarrier
         && ReserveSync(q.word).Some? && ReserveSync(q.word).value.inBarrier
  {
    var q0 := NewQueue(dqWidth);
    NumericTests(q0.word);
    hide Word.Raw;
    SyncsHold(q0, 0x7fff + dqWidth);
    var w := After(q0, Syncs(0x7fff + dqWidth)).word;
    NumericTests(w);
    SyncCarriesIntoBarrier(w);
  }

  lemma OwnedIsPositive(w: Word, dqWidth: nat)
    requires w.Valid() && dqWidth >= 1
    ensures DrainLockOwned(w, dqWidth) != 0 <==> w.suspend == 0 && !w.inBarrier && w.width < WIDTH_FULL && w.owner == 0
  {
    hide Word.Raw;
    NumericTests(w);
  }

  // ---------------------------------------------------------------- the retry loops

  /** The word compared with by _dispatch_queue_try_acquire_barrier_sync, as a number. */
  lemma InitRaw(w: Word, dqWidth: nat)
    requires w.Valid() && dqWidth <= WIDTH_FULL
    ensures w == InitWord(dqWidth) <==> w.Raw() == (WIDTH_FULL - dqWidth) * WIDTH_INTERVAL
  {
    var init := InitWord(dqWidth);
    assert init.Raw() == (WIDTH_FULL - dqWidth) * WIDTH_INTERVAL;
    if w.Raw() == init.Raw() {
      RawIsInjective(w, init);
    }
  }

  /**
    A queue whose word other threads change.  `env` lists the values they leave in it between
    a load and the compare-and-swap that follows; with `env` used up the swap succeeds.  The
    ghost result is the word at the instant the operation took effect.
  */
  class DispatchQueue {
    var state: Word
    const dqWidth: nat

    constructor (width: nat)
      requires 1 <= width < WIDTH_FULL
      ensures state == InitWord(width) && dqWidth == width
    {
      state, dqWidth := InitWord(width), width;
    }

    /** The load and failed swaps of os_atomic_rmw_loop, up to an attempt nobody disturbs. */
    method Disturb(env: seq<Word>, i: nat) returns (disturbed: bool)
      requires i <= |env| && (forall w :: w in env ==> w.Valid()) && state.Valid()
      modifies this
      ensures state.Valid() && (disturbed <==> i < |env|)
      ensures state == if i < |env| then env[i] else old(state)
    {
      disturbed := i < |env|;
      if disturbed {
        state := env[i];
      }
    }

    method TryReserveSyncWidth(env: seq<Word>) returns (ok: bool, ghost seen: Word)
      requires state.Valid() && forall w :: w in env ==> w.Valid()
      modifies this
      ensures seen == old(state) || seen in env
      ensures seen.Valid() && ok == ReserveSync(seen).Some?
      ensures state == if ok then ReserveSync(seen).value else seen
      ensures ok <==> seen.suspend == 0 && !seen.inBarrier && !seen.dirty && !seen.pending
      ensures !ok ==> state == seen
      ensures ok && seen.width + 1 < WIDTH_RANGE ==> state == seen.(width := seen.width + 1)
    {
      hide Word.Raw;
      hide IsSyncRunnable;
      hide PlusWidth;
      var loaded, i := state, 0;
      while true
        invariant i <= |env| && loaded.Valid() && state == loaded
        invariant loaded == old(state) || loaded in env
        decreases |env| - i
      {
        seen := state;
        SyncWord(loaded);
        if !IsSyncRunnable(loaded) || loaded.dirty || loaded.pending {
          return false, seen;
        }
        var value := PlusWidth(loaded, 1);
        var disturbed := Disturb(env, i);
        if state == loaded {
          seen := state;
          state := value;
          return true, seen;
        }
        loaded, i := state, i + 1;
      }
    }

    method TryAcquireAsync(env: seq<Word>) returns (ok: bool, ghost seen: Word)
      requires state.Valid() && forall w :: w in env ==> w.Valid()
      modifies this
      ensures seen == old(state) || seen in env
      ensures seen.Valid() && ok == AcquireAsync(seen).Some?
      ensures state == if ok then AcquireAsync(seen).value else seen
      ensures ok <==> seen.suspend == 0 && !seen.inBarrier && seen.width < WIDTH_FULL && !seen.dirty && !seen.pending
      ensures state == if ok then seen.(width := seen.width + 1) else seen
    {
      hide Word.Raw;
      hide IsRunnable;
      hide PlusWidth;
      var loaded, i := state, 0;
      while true
        invariant i <= |env| && loaded.Valid() && state == loaded
        invariant loaded == old(state) || loaded in env
        decreases |env| - i
      {
        seen := state;
        AsyncWord(loaded);
        if !IsRunnable(loaded) || loaded.dirty || loaded.pending {
          return false, seen;
        }
        var value := PlusWidth(loaded, 1);
        var disturbed := Disturb(env, i);
        if state == loaded {
          seen := state;
          state := value;
          return true, seen;
        }
        loaded, i := state, i + 1;
      }
    }

    method TryReserveApplyWidth(daWidth: nat, env: seq<Word>) returns (width: nat, ghost seen: Word)
      requires state.Valid() && forall w :: w in env ==> w.Valid()
      modifies this
      ensures seen == old(state) || seen in env
      ensures seen.Valid() && (width, state) == ReserveApply(seen, daWidth)
      ensures width == Min(daWidth, Max(0, WIDTH_FULL - seen.width)) && state == seen.(width := seen.width + width)
    {
      var loaded, i := state, 0;
      while true
        invariant i <= |env| && loaded.Valid() && state == loaded
        invariant loaded == old(state) || loaded in env
        decreases |env| - i
      {
        seen := state;
        width := AvailableWidth(loaded);
        if width == 0 {
          return;
        }
        if width > daWidth {
          width := daWidth;
        }
        var value := PlusWidth(loaded, width);
        var disturbed := Disturb(env, i);
        if state == loaded {
          seen := state;
          state := value;
          return;
        }
        loaded, i := state, i + 1;
      }
    }

    /** An atomic subtraction: no loop. */
    method RelinquishWidth(daWidth: nat)
      requires state.Valid() && daWidth < WIDTH_RANGE
      modifies this
      ensures daWidth <= old(state).width ==> state == old(state).(width := old(state).width - daWidth)
      ensures state.Valid()
      ensures exists wraps: int :: state.Raw() == old(state).Raw() - daWidth * WIDTH_INTERVAL - wraps * WORD
      ensures state == Relinquish(old(state), daWidth)
    {
      hide Word.Raw;
      PlusWidthIsAddition(state, 0 - daWidth);
      state := PlusWidth(state, 0 - daWidth);
    }

    /** The body of the retry loop: the word to store, if any, and what the lock would own. */
    method DrainLockAttempt(loaded: Word, stealing: bool, self: Self) returns (value: Option<Word>, owned: int)
      requires dqWidth >= 1
      ensures value == DrainLock(loaded, dqWidth, stealing, self)
      ensures owned == DrainLockOwned(loaded, dqWidth)
    {
      var newState := loaded;
      owned := 0;
      if !stealing {
        newState := newState.(enqueued := !newState.enqueued);
      }
      if IsRunnable(loaded) && !DrainLocked(loaded) {
        // keep HAS_OVERRIDE, ENQUEUED and the waiters bit; xor in the owner; set full width
        newState := Word(0, false, WIDTH_FULL, false, false, newState.hasOverride, false, newState.enqueued,
                          self.owner, newState.noWaiters != self.noWaiters);
        if LocksAsBarrier(loaded, dqWidth) {
          newState := newState.(inBarrier := true);
        }
        owned := Bit(newState.inBarrier) * IN_BARRIER + WIDTH_FULL * WIDTH_INTERVAL - loaded.width * WIDTH_INTERVAL;
      } else if stealing {
        return None, 0;
      }
      value := Some(newState);
    }

    method DrainTryLock(stealing: bool, self: Self, env: seq<Word>) returns (owned: int, ghost seen: Word)
      requires state.Valid() && dqWidth >= 1 && self.Valid() && forall w :: w in env ==> w.Valid()
      modifies this
      ensures seen == old(state) || seen in env
      ensures seen.Valid() && owned == DrainLockOwned(seen, dqWidth)
      ensures state == DrainLock(seen, dqWidth, stealing, self).GetOr(seen)
      ensures var free := seen.suspend == 0 && !seen.inBarrier && seen.width < WIDTH_FULL && seen.owner == 0;
        && (owned != 0 <==> free)
        && (free ==>
              && state.owner == self.owner && state.noWaiters == (seen.noWaiters != self.noWaiters)
              && state.width == WIDTH_FULL && state.suspend == 0
              && (state.inBarrier <==> seen.pending || seen.width + dqWidth - 1 < WIDTH_FULL)
              && !state.dirty && !state.pending && !state.pended && state.hasOverride == seen.hasOverride
              && state.enqueued == if stealing then seen.enqueued else !seen.enqueued)
        && (!free ==> state == if stealing then seen else seen.(enqueued := !seen.enqueued))
    {
      hide DrainLock;
      hide DrainLockOwned;
      var loaded, i := state, 0;
      while true
        invariant i <= |env| && loaded.Valid() && state == loaded
        invariant loaded == old(state) || loaded in env
        decreases |env| - i
      {
        seen := state;
        var value;
        DrainLockWord(loaded, dqWidth, stealing, self);
        OwnedIsPositive(loaded, dqWidth);
        value, owned := DrainLockAttempt(loaded, stealing, self);
        if value.None? {
          return;
        }
        var disturbed := Disturb(env, i);
        if state == loaded {
          seen := state;
          state := value.value;
          return;
        }
        loaded, i := state, i + 1;
      }
    }

    /** One compare-and-swap, no loop. */
    method TryAcquireBarrierSync(self: Self) returns (ok: bool)
      requires state.Valid() && 1 <= dqWidth < WIDTH_FULL && self.Valid()
      modifies this
      ensures ok <==> old(state).Raw() == (WIDTH_FULL - dqWidth) * WIDTH_INTERVAL
      ensures ok <==> old(state) == InitWord(dqWidth)
      ensures ok ==> state.Valid() && state.Raw() == WIDTH_FULL_BIT + IN_BARRIER + self.owner * 2 + Bit(self.noWaiters)
      ensures ok == AcquireBarrier(old(state), dqWidth, self).Some?
      ensures state == AcquireBarrier(old(state), dqWidth, self).GetOr(old(state))
    {
      InitRaw(state, dqWidth);
      ok := state == InitWord(dqWidth);
      if ok {
        state := InitWord(dqWidth).(inBarrier := true, width := WIDTH_FULL, owner := self.owner,
                                    noWaiters := self.noWaiters);
      }
    }
  }
}
