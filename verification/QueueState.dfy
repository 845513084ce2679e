/**
  The 64-bit `dq_state` word of a dispatch queue.  A word is its bit fields; `Raw` is the
  number the C code compares and adds to.
*/
module QueueState {
  import opened Common

  const WORD := 0x1_0000_0000_0000_0000
  const NEEDS_ACTIVATION := 0x0040_0000_0000_0000
  const IN_BARRIER := 0x0020_0000_0000_0000
  const WIDTH_FULL_BIT := 0x0010_0000_0000_0000
  const PENDING_BARRIER := 0x0000_0010_0000_0000
  const WIDTH_INTERVAL := 0x0000_0020_0000_0000
  const WIDTH_FULL := 0x8000
  const WIDTH_RANGE := 0x1_0000  // the width bits, WIDTH_FULL_BIT included, are 16

  function Bit(b: bool): nat {
    if b then 1 else 0
  }

  datatype Word = Word(
    suspend: nat,       // bits 63-54: suspend count, side count, inactive, needs activation
    inBarrier: bool,    // bit 53
    width: nat,         // bits 52-37, bit 52 being WIDTH_FULL_BIT
    pending: bool,      // bit 36, pending barrier
    dirty: bool,        // bit 35
    hasOverride: bool,  // bit 34
    pended: bool,       // bit 33
    enqueued: bool,     // bit 32
    owner: nat,         // bits 31-1, the drain lock owner
    noWaiters: bool)    // bit 0
  {
    predicate Valid() {
      suspend < 0x400 && width < WIDTH_RANGE && owner < 0x8000_0000
    }

    /** Bits 35-32. */
    function Flags(): int {
      Bit(dirty) * 8 + Bit(hasOverride) * 4 + Bit(pended) * 2 + Bit(enqueued)
    }

    /** Bits 36-0. */
    function Low(): int {
      Bit(pending) * 0x10_0000_0000 + Flags() * 0x1_0000_0000 + owner * 2 + Bit(noWaiters)
    }

    /** Bits 63-53. */
    function High(): int {
      suspend * 2 + Bit(inBarrier)
    }

    function Raw(): int {
      High() * 0x20_0000_0000_0000 + width * 0x20_0000_0000 + Low()
    }
  }

  lemma MulAtLeast(k: int, unit: int)
    requires k >= 1 && unit >= 0
    ensures k * unit >= unit
  {
  }

  lemma Split(unit: int, a: int, x: int, b: int, y: int)
    requires a * unit + x == b * unit + y && 0 <= x < unit && 0 <= y < unit
    ensures a == b && x == y
  {
    assert (a - b) * unit == y - x;
    if a > b {
      MulAtLeast(a - b, unit);
    } else if a < b {
      MulAtLeast(b - a, unit);
    }
  }

  lemma LowBound(w: Word)
    requires w.Valid()
    ensures 0 <= w.Low() < 0x20_0000_0000 && 0 <= w.Flags() < 16 && 0 <= w.High() < 0x800
  {
  }

  /** A word is determined by its number. */
  lemma RawIsInjective(v: Word, w: Word)
    requires v.Valid() && w.Valid() && v.Raw() == w.Raw()
    ensures v == w
  {
    LowBound(v);
    LowBound(w);
    Split(0x20_0000_0000, v.High() * 0x1_0000 + v.width, v.Low(), w.High() * 0x1_0000 + w.width, w.Low());
    Split(0x1_0000, v.High(), v.width, w.High(), w.width);
    LowIsInjective(v, w);
  }

  lemma FlagsAreInjective(v: Word, w: Word)
    requires v.Flags() == w.Flags()
    ensures v.dirty == w.dirty && v.hasOverride == w.hasOverride && v.pended == w.pended && v.enqueued == w.enqueued
  {
  }

  lemma LowIsInjective(v: Word, w: Word)
    requires v.Valid() && w.Valid() && v.Low() == w.Low()
    ensures v.pending == w.pending && v.dirty == w.dirty && v.hasOverride == w.hasOverride && v.pended == w.pended
    ensures v.enqueued == w.enqueued && v.owner == w.owner && v.noWaiters == w.noWaiters
  {
    hide Word.Flags;
    LowBound(v);
    LowBound(w);
    Split(0x1_0000_0000, Bit(v.pending) * 16 + v.Flags(), v.owner * 2 + Bit(v.noWaiters),
          Bit(w.pending) * 16 + w.Flags(), w.owner * 2 + Bit(w.noWaiters));
    Split(16, Bit(v.pending), v.Flags(), Bit(w.pending), w.Flags());
    Split(2, v.owner, Bit(v.noWaiters), w.owner, Bit(w.noWaiters));
    FlagsAreInjective(v, w);
  }

  // ---------------------------------------------------------------- reading a word

  predicate IsSuspended(w: Word) {
    w.Raw() >= NEEDS_ACTIVATION
  }

  predicate IsSyncRunnable(w: Word) {
    w.Raw() < IN_BARRIER
  }

  predicate IsRunnable(w: Word) {
    w.Raw() < WIDTH_FULL_BIT
  }

  predicate DrainLocked(w: Word) {
    w.owner != 0
  }

  function AvailableWidth(w: Word): nat {
    if w.width < WIDTH_FULL then WIDTH_FULL - w.width else 0
  }

  /** Unsigned 32-bit arithmetic; the width a pending barrier has reserved is not counted. */
  function UsedWidth(w: Word, dqWidth: nat): int {
    (w.width - (WIDTH_FULL - dqWidth) - (if w.pending then dqWidth - 1 else 0)) % 0x1_0000_0000
  }

  /** What the numeric tests say about the fields. */
  lemma NumericTests(w: Word)
    requires w.Valid()
    ensures 0 <= w.Raw() < WORD
    ensures IsSuspended(w) <==> w.suspend > 0
    ensures IsSyncRunnable(w) <==> w.suspend == 0 && !w.inBarrier
    ensures IsRunnable(w) <==> w.suspend == 0 && !w.inBarrier && w.width < WIDTH_FULL
  {
    LowBound(w);
  }

  // ---------------------------------------------------------------- updating a word

  const Idle: Word := Word(0, false, 0, false, false, false, false, false, 0, false)

  /** DISPATCH_QUEUE_STATE_INIT_VALUE */
  function InitWord(dqWidth: nat): Word
    requires dqWidth <= WIDTH_FULL
  {
    Idle.(width := WIDTH_FULL - dqWidth)
  }

  /** The words have the same bits 36-0. */
  predicate AgreesLow(v: Word, w: Word) {
    && v.pending == w.pending && v.dirty == w.dirty && v.hasOverride == w.hasOverride && v.pended == w.pended
    && v.enqueued == w.enqueued && v.owner == w.owner && v.noWaiters == w.noWaiters
  }

  /** How often 2^64 is passed when the eleven bits above the width become `high`. */
  function Wraps(high: int): int {
    if high < 0 then -1 else if high < 0x800 then 0 else 1
  }

  /** A carry out of the width bits, or a borrow, into IN_BARRIER and the bits above, modulo 2^64. */
  function Carried(w: Word, carry: int): (r: Word)
    requires w.Valid() && -1 <= carry <= 1
    ensures r.Valid() && r.width == w.width && AgreesLow(r, w)
    ensures r.High() == w.High() + carry - Wraps(w.High() + carry) * 0x800
  {
    var high := w.High() + carry;
    var top := high - Wraps(high) * 0x800;
    w.(inBarrier := top % 2 == 1, suspend := top / 2)
  }

  /** The word plus k widths, as 64-bit addition: a carry out of the width bits goes on up. */
  function PlusWidth(w: Word, k: int): (r: Word)
    requires w.Valid() && -WIDTH_RANGE < k < WIDTH_RANGE
    ensures r.Valid()
    ensures 0 <= w.width + k < WIDTH_RANGE ==> r == w.(width := w.width + k)
  {
    var sum := w.width + k;
    if sum < 0 then Carried(w, -1).(width := sum + WIDTH_RANGE)
    else if sum < WIDTH_RANGE then w.(width := sum)
    else Carried(w, 1).(width := sum - WIDTH_RANGE)
  }

  function Carry(sum: int): int {
    if sum < 0 then -1 else if sum < WIDTH_RANGE then 0 else 1
  }

  lemma SameLow(v: Word, w: Word)
    requires AgreesLow(v, w)
    ensures v.Low() == w.Low()
  {
    assert v.Flags() == w.Flags();
    hide Word.Flags;
  }

  lemma PlusWidthLow(w: Word, k: int)
    requires w.Valid() && -WIDTH_RANGE < k < WIDTH_RANGE
    ensures AgreesLow(PlusWidth(w, k), w)
    ensures PlusWidth(w, k).width == w.width + k - Carry(w.width + k) * 0x1_0000
  {
    hide Word.Raw;
    hide Word.High;
    hide Carried;
  }

  lemma SameHigh(v: Word, w: Word)
    requires v.suspend == w.suspend && v.inBarrier == w.inBarrier
    ensures v.High() == w.High()
  {
  }

  lemma BorrowHigh(w: Word, k: int)
    requires w.Valid() && -WIDTH_RANGE < k < WIDTH_RANGE && w.width + k < 0
    ensures PlusWidth(w, k).High() == w.High() - 1 - Wraps(w.High() - 1) * 0x800
  {
    hide Carried;
    hide Word.Low;
    hide Word.Raw;
    SameHigh(PlusWidth(w, k), Carried(w, -1));
  }

  lemma CarryHigh(w: Word, k: int)
    requires w.Valid() && -WIDTH_RANGE < k < WIDTH_RANGE && w.width + k >= WIDTH_RANGE
    ensures PlusWidth(w, k).High() == w.High() + 1 - Wraps(w.High() + 1) * 0x800
  {
    hide Carried;
    hide Word.Low;
    hide Word.Raw;
    SameHigh(PlusWidth(w, k), Carried(w, 1));
  }

  lemma PlusWidthHigh(w: Word, k: int)
    requires w.Valid() && -WIDTH_RANGE < k < WIDTH_RANGE
    ensures PlusWidth(w, k).High()
            == w.High() + Carry(w.width + k) - Wraps(w.High() + Carry(w.width + k)) * 0x800
  {
    if w.width + k < 0 {
      BorrowHigh(w, k);
    } else if w.width + k < WIDTH_RANGE {
      SameHigh(PlusWidth(w, k), w);
      LowBound(w);
    } else {
      CarryHigh(w, k);
    }
  }

  /** PlusWidth is the addition of the C code, wrap-around included. */
  lemma PlusWidthIsAddition(w: Word, k: int)
    requires w.Valid() && -WIDTH_RANGE < k < WIDTH_RANGE
    ensures exists wraps: int :: PlusWidth(w, k).Raw() == w.Raw() + k * WIDTH_INTERVAL - wraps * WORD
  {
    var r := PlusWidth(w, k);
    PlusWidthLow(w, k);
    SameLow(r, w);
    PlusWidthHigh(w, k);
    hide PlusWidth;
    hide AgreesLow;
    hide Wraps;
    hide Carry;
    hide Word.High;
    hide Word.Low;
    hide Word.Valid;
    var carry := Carry(w.width + k);
    var wraps := Wraps(w.High() + carry);
    assert r.Raw() == w.Raw() + k * 0x20_0000_0000 - wraps * 0x1_0000_0000_0000_0000;
  }

  /** _dispatch_queue_try_reserve_sync_width */
  function ReserveSync(w: Word): Option<Word>
    requires w.Valid()
  {
    if !IsSyncRunnable(w) || w.dirty || w.pending then None else Some(PlusWidth(w, 1))
  }

  /** _dispatch_queue_try_acquire_async */
  function AcquireAsync(w: Word): Option<Word>
    requires w.Valid()
  {
    if !IsRunnable(w) || w.dirty || w.pending then None else Some(PlusWidth(w, 1))
  }

  /** When a synchronous reader gets in, and what that does to the word. */
  lemma SyncWord(w: Word)
    requires w.Valid()
    ensures ReserveSync(w).Some? <==> w.suspend == 0 && !w.inBarrier && !w.dirty && !w.pending
    ensures ReserveSync(w).Some? && w.width + 1 < WIDTH_RANGE ==> ReserveSync(w).value == w.(width := w.width + 1)
  {
    NumericTests(w);
    hide Word.Raw;
  }

  /** When an asynchronous one does: below the limit only. */
  lemma AsyncWord(w: Word)
    requires w.Valid()
    ensures AcquireAsync(w).Some? <==>
            w.suspend == 0 && !w.inBarrier && w.width < WIDTH_FULL && !w.dirty && !w.pending
    ensures AcquireAsync(w).Some? ==> AcquireAsync(w).value == w.(width := w.width + 1)
  {
    NumericTests(w);
    hide Word.Raw;
  }

  function Min(a: int, b: int): int {
    if a <= b then a else b
  }

  function Max(a: int, b: int): int {
    if a >= b then a else b
  }

  /**
    _dispatch_queue_try_reserve_apply_width: how much was reserved, all that is asked if there is
    that much below the limit, else what there is
  */
  function ReserveApply(w: Word, daWidth: nat): (r: (nat, Word))
    requires w.Valid()
    ensures r.1.Valid() && r.0 == Min(daWidth, Max(0, WIDTH_FULL - w.width)) && r.1.width == w.width + r.0
    ensures AgreesLow(r.1, w) && r.1.suspend == w.suspend && r.1.inBarrier == w.inBarrier
  {
    var width := if AvailableWidth(w) > daWidth then daWidth else AvailableWidth(w);
    if AvailableWidth(w) == 0 then (0, w) else (width, PlusWidth(w, width))
  }

  /** _dispatch_queue_relinquish_width */
  function Relinquish(w: Word, daWidth: nat): Word
    requires w.Valid() && daWidth < WIDTH_RANGE
  {
    PlusWidth(w, 0 - daWidth)
  }

  /** The identity of a thread, as it is XORed into the drain lock. */
  datatype Self = Self(owner: nat, noWaiters: bool) {
    predicate Valid() { 0 < owner < 0x8000_0000 }
  }

  predicate CanLock(w: Word) {
    IsRunnable(w) && !DrainLocked(w)
  }

  /** A lock taken now is a barrier: one was pending, or the whole width is free. */
  predicate LocksAsBarrier(w: Word, dqWidth: nat)
    requires dqWidth >= 1
  {
    w.pending || w.Raw() + (dqWidth - 1) * WIDTH_INTERVAL < WIDTH_FULL_BIT
  }

  /** _dispatch_queue_drain_try_lock: the word it stores, or None when it gives up */
  function DrainLock(w: Word, dqWidth: nat, stealing: bool, self: Self): Option<Word>
    requires dqWidth >= 1
  {
    var enqueued := if stealing then w.enqueued else !w.enqueued;
    if CanLock(w) then
      Some(Word(0, LocksAsBarrier(w, dqWidth), WIDTH_FULL, false, false, w.hasOverride, false, enqueued, self.owner,
                w.noWaiters != self.noWaiters))
    else if stealing then None
    else Some(w.(enqueued := enqueued))
  }

  /** The word of a drain lock: what is kept, what is cleared, and whose it is. */
  lemma DrainLockWord(w: Word, dqWidth: nat, stealing: bool, self: Self)
    requires w.Valid() && dqWidth >= 1
    ensures var free := w.suspend == 0 && !w.inBarrier && w.width < WIDTH_FULL && w.owner == 0;
      var enqueued := if stealing then w.enqueued else !w.enqueued;
      var r := DrainLock(w, dqWidth, stealing, self);
      if free then
        && r.Some? && r.value.owner == self.owner && r.value.noWaiters == (w.noWaiters != self.noWaiters)
        && r.value.width == WIDTH_FULL && r.value.suspend == 0
        && (r.value.inBarrier <==> w.pending || w.width + dqWidth - 1 < WIDTH_FULL)
        && !r.value.dirty && !r.value.pending && !r.value.pended
        && r.value.hasOverride == w.hasOverride && r.value.enqueued == enqueued
      else if stealing then r.None?
      else r == Some(w.(enqueued := !w.enqueued))
  {
    NumericTests(w);
    LowBound(w);
    if IsRunnable(w) {
      SumTest(w, dqWidth);
    }
    hide Word.Raw;
  }

  /** old_state + pending_barrier_width < WIDTH_FULL_BIT compares the width bits alone. */
  lemma SumTest(w: Word, dqWidth: nat)
    requires w.Valid() && IsRunnable(w) && dqWidth >= 1
    ensures w.Raw() + (dqWidth - 1) * WIDTH_INTERVAL < WIDTH_FULL_BIT <==> w.width + dqWidth - 1 < WIDTH_FULL
  {
    NumericTests(w);
    LowBound(w);
  }

  /** ... and what it returns: the barrier bit and the width it now owns, in one number */
  function DrainLockOwned(w: Word, dqWidth: nat): int
    requires dqWidth >= 1
  {
    if CanLock(w) then
      Bit(LocksAsBarrier(w, dqWidth)) * IN_BARRIER + WIDTH_FULL * WIDTH_INTERVAL - w.width * WIDTH_INTERVAL
    else 0
  }

  /** _dispatch_queue_try_acquire_barrier_sync */
  function AcquireBarrier(w: Word, dqWidth: nat, self: Self): Option<Word>
    requires dqWidth <= WIDTH_FULL
  {
    if w == InitWord(dqWidth)
    then Some(Idle.(inBarrier := true, width := WIDTH_FULL, owner := self.owner, noWaiters := self.noWaiters))
    else None
  }

  /** What a drainer gives back: barrier bit, width, and, negatively, a pending-barrier reservation. */
  datatype Owned = Owned(barrier: bool, units: int, keepsPending: bool) {
    function Raw(): int {
      Bit(barrier) * IN_BARRIER + units * WIDTH_INTERVAL - Bit(keepsPending) * PENDING_BARRIER
    }
  }

  /** _dispatch_queue_adjust_owned */
  function AdjustOwned(dqWidth: nat, owned: Owned, nextIsBarrier: bool): Owned {
    if dqWidth > 1 && nextIsBarrier
    then owned.(units := owned.units - (dqWidth - 1), keepsPending := true)
    else owned
  }

  /** The word holds what `owned` gives back. */
  predicate Holds(w: Word, owned: Owned) {
    (owned.barrier ==> w.inBarrier) && (owned.keepsPending ==> !w.pending) && 0 <= w.width - owned.units < WIDTH_RANGE
  }

  /** old_state - owned */
  function Minus(w: Word, owned: Owned): (r: Word)
    requires w.Valid() && Holds(w, owned)
    ensures r.Valid()
  {
    w.(inBarrier := w.inBarrier && !owned.barrier, width := w.width - owned.units,
       pending := w.pending || owned.keepsPending)
  }

  lemma RawFromParts(v: Word, r: Word, high: int, width: int, pending: int)
    requires r.High() == v.High() + high && r.width == v.width + width
    requires r.Low() == v.Low() + pending * 0x10_0000_0000
    ensures r.Raw() == v.Raw() + high * IN_BARRIER + width * WIDTH_INTERVAL + pending * PENDING_BARRIER
  {
    hide Word.High;
    hide Word.Low;
  }

  lemma MinusIsSubtraction(w: Word, owned: Owned)
    requires w.Valid() && Holds(w, owned)
    ensures Minus(w, owned).Raw() == w.Raw() - owned.Raw()
  {
    hide Word.Raw;
    var r := Minus(w, owned);
    assert r.High() == w.High() - Bit(owned.barrier);
    assert r.Flags() == w.Flags();
    hide Word.Flags;
    assert r.Low() == w.Low() + Bit(owned.keepsPending) * 0x10_0000_0000;
    RawFromParts(w, r, 0 - Bit(owned.barrier), 0 - owned.units, Bit(owned.keepsPending));
  }

  /**
    _dispatch_queue_drain_try_unlock: whether the lock was given up, and the word stored.  It is
    refused exactly when DIRTY is set and the queue is not suspended.
  */
  function DrainUnlock(w: Word, owned: Owned): (r: (bool, Word))
    requires w.Valid() && Holds(w, owned)
    ensures r.1.Valid()
    ensures r.0 <==> !w.dirty || IsSuspended(w)
    ensures !r.0 ==> r.1 == w.(dirty := false)
    ensures r.0 ==>
              var limited := r.1.width >= WIDTH_FULL || IsSuspended(w);
              && r.1.dirty == (w.dirty && limited) && !r.1.pended
              && r.1.hasOverride == (w.hasOverride && limited) && r.1.noWaiters == (!w.noWaiters && limited)
    ensures r.0 ==> r.1.owner == 0 && r.1.width == w.width - owned.units
                    && r.1.inBarrier == (w.inBarrier && !owned.barrier)
                    && r.1.pending == (w.pending || owned.keepsPending)
                    && r.1.suspend == w.suspend && r.1.enqueued == w.enqueued
  {
    hide IsSuspended;
    if w.dirty && !IsSuspended(w) then (false, w.(dirty := false))
    else
      var v := Minus(w, owned);
      if v.width >= WIDTH_FULL || IsSuspended(w)
      then (true, v.(pended := false, owner := 0, noWaiters := !v.noWaiters))
      else (true, v.(dirty := false, pended := false, owner := 0, noWaiters := false, hasOverride := false))
  }

  /** _dispatch_queue_drain_lock_transfer_or_unlock: to nextOwner, or for 0 to nobody */
  function DrainTransfer(w: Word, owned: Owned, nextOwner: nat): (r: Word)
    requires w.Valid() && Holds(w, owned)
    ensures r.owner == nextOwner && !r.dirty && !r.pended
    ensures r.noWaiters == if nextOwner == 0 then !w.noWaiters else w.noWaiters
    ensures r.suspend == w.suspend && r.hasOverride == w.hasOverride && r.enqueued == w.enqueued
    ensures r.width == w.width - owned.units && r.inBarrier == (w.inBarrier && !owned.barrier)
    ensures r.pending == (w.pending || owned.keepsPending)
  {
    Minus(w, owned).(pended := false, dirty := false, owner := nextOwner,
                     noWaiters := if nextOwner == 0 then !w.noWaiters else w.noWaiters)
  }

  /** full_width: the word with the barrier bit and the rest of the width added, a reservation used. */
  function FullWidth(v: Word, dqWidth: nat): Word {
    if v.pending then v.(pending := false, width := v.width + 1, inBarrier := true)
    else v.(width := v.width + dqWidth, inBarrier := true)
  }

  lemma FullWidthParts(v: Word, dqWidth: nat)
    requires !v.inBarrier
    ensures FullWidth(v, dqWidth).High() == v.High() + 1
    ensures FullWidth(v, dqWidth).Low() == v.Low() - Bit(v.pending) * 0x10_0000_0000
  {
    var r := FullWidth(v, dqWidth);
    assert r.Flags() == v.Flags();
    hide Word.Flags;
  }

  /** On a runnable word nothing carries: the fields are those of the 64-bit sum. */
  lemma FullWidthIsAddition(v: Word, dqWidth: nat)
    requires v.Valid() && IsRunnable(v) && dqWidth < WIDTH_FULL
    ensures FullWidth(v, dqWidth).Valid()
    ensures FullWidth(v, dqWidth).Raw() == v.Raw() + IN_BARRIER +
      (if v.pending then WIDTH_INTERVAL - PENDING_BARRIER else dqWidth * WIDTH_INTERVAL)
  {
    hide Word.Raw;
    NumericTests(v);
    FullWidthParts(v, dqWidth);
    RawFromParts(v, FullWidth(v, dqWidth), 1, if v.pending then 1 else dqWidth, 0 - Bit(v.pending));
  }

  /** The attempt on the whole width by who has just made the word runnable. */
  function TakeFullWidth(v: Word, dqWidth: nat, self: Self): Word {
    var full := FullWidth(v, dqWidth);
    if full.width == WIDTH_FULL
    then full.(dirty := false, owner := self.owner, noWaiters := v.noWaiters || self.noWaiters)
    else v
  }

  lemma TakeWord(v: Word, dqWidth: nat, self: Self)
    ensures var r := TakeFullWidth(v, dqWidth, self);
      var takes := WIDTH_FULL == v.width + if v.pending then 1 else dqWidth;
      && r.owner == (if takes then self.owner else v.owner) && r.width == (if takes then WIDTH_FULL else v.width)
      && r.inBarrier == (takes || v.inBarrier) && r.pending == (v.pending && !takes)
      && r.dirty == (v.dirty && !takes) && r.noWaiters == (v.noWaiters || (takes && self.noWaiters))
      && r.suspend == v.suspend && r.hasOverride == v.hasOverride && r.pended == v.pended && r.enqueued == v.enqueued
  {
    var full := FullWidth(v, dqWidth);
    assert full.width == v.width + if v.pending then 1 else dqWidth;
    assert full.inBarrier && !full.pending && full.suspend == v.suspend && full.hasOverride == v.hasOverride;
    assert full.pended == v.pended && full.enqueued == v.enqueued;
    hide FullWidth;
    if full.width == WIDTH_FULL {
      assert TakeFullWidth(v, dqWidth, self)
          == full.(dirty := false, owner := self.owner, noWaiters := v.noWaiters || self.noWaiters);
    } else {
      assert TakeFullWidth(v, dqWidth, self) == v;
    }
    hide TakeFullWidth;
  }

  /** _dispatch_non_barrier_complete */
  function Complete(w: Word, dqWidth: nat, self: Self): Word
    requires w.Valid()
  {
    var v := PlusWidth(w, -1);
    if !IsRunnable(v) then v
    else
      var u := if IsRunnable(w) then v else v.(dirty := true);
      if DrainLocked(u) then u else TakeFullWidth(u, dqWidth, self)
  }

  /**
    The word after a reader has left: the lock and the whole width are the leaving thread's exactly
    when nobody holds the lock and, the reservation of a pending barrier apart, no other unit is
    out; and DIRTY tells a drainer that the queue is below its limit again.
  */
  lemma CompleteWord(w: Word, dqWidth: nat, self: Self)
    requires w.Valid() && w.width >= 1 && dqWidth < WIDTH_FULL
    ensures var r := Complete(w, dqWidth, self);
      var free := w.suspend == 0 && !w.inBarrier && w.width <= WIDTH_FULL;
      var takes := free && w.owner == 0 && w.width == if w.pending then WIDTH_FULL else WIDTH_FULL - dqWidth + 1;
      && r.owner == (if takes then self.owner else w.owner)
      && r.width == (if takes then WIDTH_FULL else w.width - 1)
      && r.inBarrier == (takes || w.inBarrier) && r.pending == (w.pending && !takes)
      && r.dirty == (!takes && (w.dirty || (free && w.width == WIDTH_FULL)))
      && r.noWaiters == (w.noWaiters || (takes && self.noWaiters))
      && r.suspend == w.suspend && r.hasOverride == w.hasOverride && r.pended == w.pended && r.enqueued == w.enqueued
  {
    hide Word.Raw;
    hide IsRunnable;
    hide PlusWidth;
    var v := PlusWidth(w, -1);
    NumericTests(w);
    NumericTests(v);
    assert IsRunnable(v) <==> w.suspend == 0 && !w.inBarrier && w.width <= WIDTH_FULL;
    hide Word.Valid;
    if !IsRunnable(v) {
      assert Complete(w, dqWidth, self) == v;
    } else {
      var u := if IsRunnable(w) then v else v.(dirty := true);
      if DrainLocked(u) {
        assert Complete(w, dqWidth, self) == u;
      } else {
        assert Complete(w, dqWidth, self) == TakeFullWidth(u, dqWidth, self);
        TakeWord(u, dqWidth, self);
        hide TakeFullWidth;
      }
    }
    hide Complete;
  }

  const SUSPEND_INTERVAL := 8  // bit 57, counted from bit 54

  /** The part of _dispatch_queue_resume that takes a suspend count off. */
  function Resume(w: Word, dqWidth: nat, self: Self): Word
    requires w.Valid() && w.suspend >= SUSPEND_INTERVAL
  {
    var v := w.(suspend := w.suspend - SUSPEND_INTERVAL);
    if IsRunnable(v) && !DrainLocked(v) then TakeFullWidth(v, dqWidth, self) else v
  }

  /** The word after the resumption: likewise, when the last suspension goes. */
  lemma ResumeWord(w: Word, dqWidth: nat, self: Self)
    requires w.Valid() && w.suspend >= SUSPEND_INTERVAL && dqWidth < WIDTH_FULL
    ensures var r := Resume(w, dqWidth, self);
      var takes := w.suspend == SUSPEND_INTERVAL && !w.inBarrier && w.width < WIDTH_FULL && w.owner == 0
                   && w.width == if w.pending then WIDTH_FULL - 1 else WIDTH_FULL - dqWidth;
      && r.owner == (if takes then self.owner else w.owner)
      && r.width == (if takes then WIDTH_FULL else w.width)
      && r.inBarrier == (takes || w.inBarrier) && r.pending == (w.pending && !takes)
      && r.dirty == (w.dirty && !takes) && r.noWaiters == (w.noWaiters || (takes && self.noWaiters))
      && r.suspend == w.suspend - SUSPEND_INTERVAL
      && r.hasOverride == w.hasOverride && r.pended == w.pended && r.enqueued == w.enqueued
  {
    hide Word.Raw;
    hide IsRunnable;
    var v := w.(suspend := w.suspend - SUSPEND_INTERVAL);
    NumericTests(v);
    hide Word.Valid;
    TakeWord(v, dqWidth, self);
    hide TakeFullWidth;
  }

  predicate ShouldWakeup(w: Word) {
    IsRunnable(w) && !w.enqueued && !DrainLocked(w)
  }

  /** The end of _dispatch_queue_class_invoke: give back, or upgrade to the whole width and drain on. */
  function Requeue(w: Word, owned: Owned, dqWidth: nat, upgradeAllowed: bool): Word
    requires w.Valid() && Holds(w, owned)
  {
    var v := Minus(w, owned);
    if upgradeAllowed && IsRunnable(v) && v.pending
    then FullWidth(v, dqWidth)
    else
      var u := v.(pended := false, owner := 0, noWaiters := !v.noWaiters);
      if ShouldWakeup(u) then u.(enqueued := true, dirty := true) else u
  }

  /**
    The word after a drain: the lock is kept for an upgrade to the whole width, or gone; then the
    queue is marked enqueued and dirty exactly when it could be drained and nobody is to do so.
  */
  lemma RequeueWord(w: Word, owned: Owned, dqWidth: nat, upgradeAllowed: bool)
    requires w.Valid() && Holds(w, owned) && dqWidth < WIDTH_FULL
    ensures var r := Requeue(w, owned, dqWidth, upgradeAllowed);
      var (width, pending) := (w.width - owned.units, w.pending || owned.keepsPending);
      var free := w.suspend == 0 && (!w.inBarrier || owned.barrier) && width < WIDTH_FULL;
      var upgrades := upgradeAllowed && free && pending;
      var again := !upgrades && free && !w.enqueued;
      && r.suspend == w.suspend && r.hasOverride == w.hasOverride
      && r.owner == (if upgrades then w.owner else 0)
      && r.width == (if upgrades then width + 1 else width) && r.pending == (pending && !upgrades)
      && r.inBarrier == (upgrades || (w.inBarrier && !owned.barrier))
      && r.pended == (w.pended && upgrades) && r.noWaiters == (w.noWaiters == upgrades)
      && r.enqueued == (w.enqueued || again) && r.dirty == (w.dirty || again)
  {
    hide Word.Raw;
    hide IsRunnable;
    var v := Minus(w, owned);
    var u := v.(pended := false, owner := 0, noWaiters := !v.noWaiters);
    NumericTests(v);
    NumericTests(u);
    hide Word.Valid;
    hide Holds;
    if upgradeAllowed && IsRunnable(v) && v.pending {
      assert Requeue(w, owned, dqWidth, upgradeAllowed) == FullWidth(v, dqWidth);
    } else if ShouldWakeup(u) {
      assert Requeue(w, owned, dqWidth, upgradeAllowed) == u.(enqueued := true, dirty := true);
    } else {
      assert Requeue(w, owned, dqWidth, upgradeAllowed) == u;
    }
    hide Requeue;
  }

  /** The slow-waiter case of _dispatch_queue_class_wakeup, on a lock that is not pended. */
  function SlowWakeup(w: Word, dqWidth: nat, self: Self, overriding: bool, flush: bool): Word
    requires dqWidth >= 1
  {
    var v := w.(noWaiters := true, dirty := w.dirty || overriding || flush,
                hasOverride := w.hasOverride || overriding);
    if DrainLocked(v) then v.(noWaiters := false)
    else if !IsRunnable(v) || !flush then v
    else if LocksAsBarrier(v, dqWidth)
    then Word(0, true, WIDTH_FULL, false, false, v.hasOverride, false, v.enqueued, self.owner,
              v.noWaiters != self.noWaiters)
    else v.(enqueued := true)
  }

  /**
    The word after it: a waiter leaves its mark on a lock, takes a lock nobody has if nobody holds
    width, and otherwise sees to it that the queue gets drained.
  */
  lemma SlowWakeupWord(w: Word, dqWidth: nat, self: Self, overriding: bool, flush: bool)
    requires w.Valid() && 1 <= dqWidth < WIDTH_FULL
    ensures var r := SlowWakeup(w, dqWidth, self, overriding, flush);
      var free := flush && w.suspend == 0 && !w.inBarrier && w.width < WIDTH_FULL && w.owner == 0;
      var takes := free && (w.pending || w.width + dqWidth - 1 < WIDTH_FULL);
      && r.hasOverride == (w.hasOverride || overriding)
      && r.owner == (if takes then self.owner else w.owner)
      && r.width == (if takes then WIDTH_FULL else w.width) && r.suspend == w.suspend
      && r.inBarrier == (takes || w.inBarrier) && r.pending == (w.pending && !takes)
      && r.dirty == (!takes && (w.dirty || overriding || flush)) && r.pended == (w.pended && !takes)
      && r.enqueued == (w.enqueued || (free && !takes))
      && r.noWaiters == if takes then !self.noWaiters else w.owner == 0
  {
    var v := w.(noWaiters := true, dirty := w.dirty || overriding || flush, hasOverride := w.hasOverride || overriding);
    hide Word.Raw;
    hide IsRunnable;
    hide LocksAsBarrier;
    NumericTests(v);
    if IsRunnable(v) {
      LocksAlone(v, dqWidth);
    }
    hide Word.Valid;
  }

  lemma LocksAlone(w: Word, dqWidth: nat)
    requires w.Valid() && IsRunnable(w) && 1 <= dqWidth < WIDTH_FULL
    ensures LocksAsBarrier(w, dqWidth) <==> w.pending || w.width + dqWidth - 1 < WIDTH_FULL
  {
    SumTest(w, dqWidth);
  }
}
