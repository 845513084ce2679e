/**
  One magazine's two-level bitmaps as the code updates them when calls do not overlap, and
  the chain of heaps above them.  Both refine a plain set of continuations in use.
*/
module AllocatorMagazine {
  import opened Common
  import opened AllocatorBitmaps

  /** A continuation of a magazine: in the packed first page, or in the main array. */
  datatype Place = FirstPage(bitmap: nat, index: nat) | Main(bitmap: nat, index: nat) {
    /** Search order inside one of the two areas. */
    predicate Before(q: Place) {
      bitmap < q.bitmap || (bitmap == q.bitmap && index < q.index)
    }
  }

  /** The constants the magazine layout is compiled with. */
  datatype Layout = Layout(
    perBitmap: nat,    // CONTINUATIONS_PER_BITMAP
    perSupermap: nat,  // BITMAPS_PER_SUPERMAP
    perPage: nat,      // BITMAPS_PER_PAGE
    supermaps: nat,    // SUPERMAPS_PER_MAGAZINE
    fullFirst: nat,    // FULL_BITMAPS_IN_FIRST_PAGE, 0 when the first page is not packed
    remainder: nat)    // REMAINDERED_CONTINUATIONS_IN_FIRST_PAGE
  {
    ghost predicate Valid() {
      && perBitmap >= 1 && perSupermap >= 1 && perPage >= 1 && supermaps >= 1
      && remainder < perBitmap
      && (supermaps * perSupermap) % perPage == 0
    }

    function Full(): Bits { Upto(perBitmap) }

    function Bitmaps(): nat { supermaps * perSupermap }

    /** BITMAPS_IN_FIRST_PAGE */
    function FirstBitmaps(): nat { fullFirst + if remainder == 0 then 0 else 1 }

    /** How many continuations the k-th bitmap of the first page governs. */
    function FirstSize(k: nat): nat { if k < fullFirst then perBitmap else remainder }

    function Super(b: nat): nat
      requires perSupermap >= 1
    {
      b / perSupermap
    }

    function Bit(b: nat): nat
      requires perSupermap >= 1
    {
      b % perSupermap
    }

    /** first_bitmap_in_same_page */
    function PageStart(b: nat): nat
      requires perPage >= 1
    {
      b - b % perPage
    }

    predicate Exists(p: Place) {
      match p
      case FirstPage(b, i) => b < FirstBitmaps() && i < FirstSize(b)
      case Main(b, i) => b < Bitmaps() && i < perBitmap
    }
  }

  /** What the arrays of a magazine hold, with the set of continuations in use. */
  datatype View = View(supermaps: seq<Bits>, maps: seq<Bits>, fpMaps: seq<Bits>, live: set<Place>)

  ghost predicate Shape(l: Layout, v: View) {
    && l.Valid()
    && |v.supermaps| == l.supermaps && |v.maps| == l.Bitmaps() && |v.fpMaps| == l.FirstBitmaps()
  }

  /** Every set bit stands for a continuation that exists. */
  ghost predicate InRange(l: Layout, v: View)
    requires Shape(l, v)
  {
    && (forall b :: 0 <= b < |v.maps| ==> v.maps[b] <= l.Full())
    && (forall k :: 0 <= k < |v.fpMaps| ==> v.fpMaps[k] <= Upto(l.FirstSize(k)))
  }

  ghost predicate Marked(l: Layout, v: View, b: nat)
    requires Shape(l, v) && b < |v.maps|
  {
    l.Super(b) < |v.supermaps| && l.Bit(b) in v.supermaps[l.Super(b)]
  }

  /** A supermap bit is set exactly when its bitmap is full. */
  ghost predicate SupermapsExact(l: Layout, v: View)
    requires Shape(l, v)
  {
    && (forall s :: 0 <= s < |v.supermaps| ==> v.supermaps[s] <= Upto(l.perSupermap))
    && (forall b :: 0 <= b < |v.maps| ==> (Marked(l, v, b) <==> v.maps[b] == l.Full()))
  }

  ghost predicate InUse(l: Layout, v: View, p: Place)
    requires Shape(l, v) && l.Exists(p)
  {
    match p
    case FirstPage(b, i) => i in v.fpMaps[b]
    case Main(b, i) => i in v.maps[b]
  }

  /** The bitmaps hold exactly the set of continuations in use. */
  ghost predicate Represents(l: Layout, v: View)
    requires Shape(l, v)
  {
    && (forall p :: p in v.live ==> l.Exists(p))
    && (forall p :: l.Exists(p) ==> (p in v.live <==> InUse(l, v, p)))
  }

  ghost predicate Consistent(l: Layout, v: View) {
    Shape(l, v) && InRange(l, v) && SupermapsExact(l, v) && Represents(l, v)
  }

  /** Index i of bitmap b of the main array is given out. */
  function Take(l: Layout, v: View, b: nat, i: nat): View
    requires Shape(l, v) && b < |v.maps| && l.Super(b) < |v.supermaps|
  {
    var bits := v.maps[b] + {i};
    var s := l.Super(b);
    v.(maps := v.maps[b := bits],
       supermaps := if bits == l.Full() then v.supermaps[s := v.supermaps[s] + {l.Bit(b)}] else v.supermaps,
       live := v.live + {Main(b, i)})
  }

  /** Index i of bitmap b of the main array comes back. */
  function Give(l: Layout, v: View, b: nat, i: nat): View
    requires Shape(l, v) && b < |v.maps| && l.Super(b) < |v.supermaps|
  {
    var s := l.Super(b);
    v.(maps := v.maps[b := v.maps[b] - {i}],
       supermaps := v.supermaps[s := v.supermaps[s] - {l.Bit(b)}],
       live := v.live - {Main(b, i)})
  }

  lemma InRows(l: Layout, b: nat)
    requires l.Valid() && b < l.Bitmaps()
    ensures l.Super(b) < l.supermaps && l.Bit(b) < l.perSupermap
  {
    Cancel(b / l.perSupermap, l.supermaps, l.perSupermap);
  }

  /** Two bitmaps never share a supermap bit. */
  lemma OwnBit(l: Layout, b: nat, c: nat)
    requires l.Valid() && l.Super(b) == l.Super(c) && l.Bit(b) == l.Bit(c)
    ensures b == c
  {
  }

  lemma TakeExact(l: Layout, v: View, b: nat, i: nat)
    requires Shape(l, v) && SupermapsExact(l, v) && b < |v.maps| && l.Super(b) < |v.supermaps|
    requires i !in v.maps[b] && v.maps[b] <= l.Full() && i < l.perBitmap
    ensures SupermapsExact(l, Take(l, v, b, i))
  {
    var w := Take(l, v, b, i);
    InRows(l, b);
    assert i in l.Full() && v.maps[b] != l.Full();
    forall c | 0 <= c < |w.maps| ensures Marked(l, w, c) <==> w.maps[c] == l.Full() {
      InRows(l, c);
      assert Marked(l, v, c) <==> v.maps[c] == l.Full();
      if c != b && l.Super(c) == l.Super(b) && l.Bit(c) == l.Bit(b) {
        OwnBit(l, b, c);
      }
    }
  }

  lemma GiveExact(l: Layout, v: View, b: nat, i: nat)
    requires Shape(l, v) && SupermapsExact(l, v) && b < |v.maps| && l.Super(b) < |v.supermaps|
    requires i in v.maps[b] && v.maps[b] <= l.Full()
    ensures SupermapsExact(l, Give(l, v, b, i))
  {
    var w := Give(l, v, b, i);
    forall c | 0 <= c < |w.maps| ensures Marked(l, w, c) <==> w.maps[c] == l.Full() {
      InRows(l, c);
      assert Marked(l, v, c) <==> v.maps[c] == l.Full();
      if c != b && l.Super(c) == l.Super(b) && l.Bit(c) == l.Bit(b) {
        OwnBit(l, b, c);
      }
    }
  }

  /** Giving out a clear bit keeps both levels exact and adds one continuation. */
  lemma TakeValid(l: Layout, v: View, b: nat, i: nat)
    requires Consistent(l, v) && b < |v.maps| && l.Super(b) < |v.supermaps|
    requires i !in v.maps[b] && i < l.perBitmap
    ensures Consistent(l, Take(l, v, b, i)) && Main(b, i) !in v.live
  {
    TakeExact(l, v, b, i);
    hide SupermapsExact;
    assert l.Exists(Main(b, i));
    assert i in l.Full();
  }

  /** Taking a set bit back keeps both levels exact and removes one continuation. */
  lemma GiveValid(l: Layout, v: View, b: nat, i: nat)
    requires Consistent(l, v) && b < |v.maps| && l.Super(b) < |v.supermaps|
    requires i in v.maps[b]
    ensures Consistent(l, Give(l, v, b, i)) && Main(b, i) in v.live
  {
    GiveExact(l, v, b, i);
    hide SupermapsExact;
    assert i in l.Full();
    assert l.Exists(Main(b, i));
  }

  /** Index i of bitmap k of the first page is given out, or comes back. */
  function TakeFirst(l: Layout, v: View, k: nat, i: nat): View
    requires Shape(l, v) && k < |v.fpMaps|
  {
    v.(fpMaps := v.fpMaps[k := v.fpMaps[k] + {i}], live := v.live + {FirstPage(k, i)})
  }

  function GiveFirst(l: Layout, v: View, k: nat, i: nat): View
    requires Shape(l, v) && k < |v.fpMaps|
  {
    v.(fpMaps := v.fpMaps[k := v.fpMaps[k] - {i}], live := v.live - {FirstPage(k, i)})
  }

  lemma TakeFirstValid(l: Layout, v: View, k: nat, i: nat)
    requires Consistent(l, v) && k < |v.fpMaps| && i !in v.fpMaps[k] && i < l.FirstSize(k)
    ensures Consistent(l, TakeFirst(l, v, k, i)) && FirstPage(k, i) !in v.live
  {
    var w := TakeFirst(l, v, k, i);
    assert SupermapsExact(l, w) by { SameMaps(l, v, w); }
    hide SupermapsExact;
    assert l.Exists(FirstPage(k, i));
  }

  lemma GiveFirstValid(l: Layout, v: View, k: nat, i: nat)
    requires Consistent(l, v) && k < |v.fpMaps| && i in v.fpMaps[k]
    ensures Consistent(l, GiveFirst(l, v, k, i)) && FirstPage(k, i) in v.live
  {
    var w := GiveFirst(l, v, k, i);
    assert SupermapsExact(l, w) by { SameMaps(l, v, w); }
    hide SupermapsExact;
    assert i in Upto(l.FirstSize(k));
    assert l.Exists(FirstPage(k, i));
  }

  lemma SameMaps(l: Layout, v: View, w: View)
    requires Shape(l, v) && Shape(l, w) && SupermapsExact(l, v)
    requires v.maps == w.maps && v.supermaps == w.supermaps
    ensures SupermapsExact(l, w)
  {
    forall b | 0 <= b < |w.maps| ensures Marked(l, w, b) <==> w.maps[b] == l.Full() {
      assert Marked(l, v, b) <==> v.maps[b] == l.Full();
    }
  }

  /** The first n bitmaps of the main array are full. */
  ghost predicate FullBelow(l: Layout, v: View, n: int) {
    forall b :: 0 <= b < n && b < |v.maps| ==> v.maps[b] == l.Full()
  }

  lemma OneMore(l: Layout, v: View, n: nat)
    requires FullBelow(l, v, n) && n < |v.maps| && v.maps[n] == l.Full()
    ensures FullBelow(l, v, n + 1)
  {
  }

  lemma AtIndex(l: Layout, s: nat, m: nat)
    requires l.Valid() && s < l.supermaps && m < l.perSupermap
    ensures l.Super(s * l.perSupermap + m) == s && l.Bit(s * l.perSupermap + m) == m
    ensures s * l.perSupermap + m < l.Bitmaps()
    ensures (s + 1) * l.perSupermap == s * l.perSupermap + l.perSupermap
  {
    Within(s, m, l.perSupermap);
    Product(s + 1, l.supermaps, l.perSupermap);
  }

  lemma InSupermap(l: Layout, s: nat, b: nat)
    requires l.Valid() && s < l.supermaps && s * l.perSupermap <= b < (s + 1) * l.perSupermap
    ensures l.Super(b) == s && l.Bit(b) < l.perSupermap
  {
    AtIndex(l, s, b - s * l.perSupermap);
  }

  /** Skipping a full supermap skips only full bitmaps. */
  lemma SkipSupermap(l: Layout, v: View, s: nat)
    requires Consistent(l, v) && s < l.supermaps
    requires FullBelow(l, v, s * l.perSupermap) && v.supermaps[s] == Upto(l.perSupermap)
    ensures FullBelow(l, v, (s + 1) * l.perSupermap)
  {
    var lo, hi := s * l.perSupermap, (s + 1) * l.perSupermap;
    forall b | lo <= b < hi && b < |v.maps| ensures v.maps[b] == l.Full() {
      InSupermap(l, s, b);
      assert Marked(l, v, b);
    }
  }

  /** First fit: everything before p in its area is in use. */
  ghost predicate FirstFit(l: Layout, live: set<Place>, p: Place) {
    && l.Exists(p) && p !in live
    && forall q :: l.Exists(q) && q.Main? == p.Main? && q.Before(p) ==> q in live
  }

  ghost predicate AllMain(l: Layout, live: set<Place>) {
    forall q :: l.Exists(q) && q.Main? ==> q in live
  }

  ghost predicate AllFirst(l: Layout, live: set<Place>) {
    forall q :: l.Exists(q) && q.FirstPage? ==> q in live
  }

  lemma FoundFirstFit(l: Layout, v: View, b: nat, i: nat)
    requires Consistent(l, v) && FullBelow(l, v, b) && b < |v.maps|
    requires i < l.perBitmap && i !in v.maps[b] && forall j :: 0 <= j < i ==> j in v.maps[b]
    ensures FirstFit(l, v.live, Main(b, i))
  {
    hide SupermapsExact;
    var p := Main(b, i);
    assert l.Exists(p) && !InUse(l, v, p);
    forall q: Place | l.Exists(q) && q.Main? && q.Before(p) ensures q in v.live {
      assert InUse(l, v, q);
    }
  }

  lemma NoneLeft(l: Layout, v: View)
    requires Consistent(l, v) && FullBelow(l, v, |v.maps|)
    ensures AllMain(l, v.live)
  {
    hide SupermapsExact;
    forall q: Place | l.Exists(q) && q.Main? ensures q in v.live {
      assert InUse(l, v, q);
    }
  }

  ghost predicate FirstFullBelow(l: Layout, v: View, n: int) {
    forall k :: 0 <= k < n && k < |v.fpMaps| ==> v.fpMaps[k] == Upto(l.FirstSize(k))
  }

  lemma FirstPageFirstFit(l: Layout, v: View, k: nat, i: nat)
    requires Consistent(l, v) && FirstFullBelow(l, v, k) && k < |v.fpMaps|
    requires i < l.FirstSize(k) && i !in v.fpMaps[k] && forall j :: 0 <= j < i ==> j in v.fpMaps[k]
    ensures FirstFit(l, v.live, FirstPage(k, i))
  {
    hide SupermapsExact;
    var p := FirstPage(k, i);
    assert l.Exists(p) && !InUse(l, v, p);
    forall q: Place | l.Exists(q) && q.FirstPage? && q.Before(p) ensures q in v.live {
      assert InUse(l, v, q);
    }
  }

  lemma FirstPageFull(l: Layout, v: View)
    requires Consistent(l, v) && FirstFullBelow(l, v, |v.fpMaps|)
    ensures AllFirst(l, v.live)
  {
    hide SupermapsExact;
    forall q: Place | l.Exists(q) && q.FirstPage? ensures q in v.live {
      assert InUse(l, v, q);
    }
  }

  lemma PageFirstFit(l: Layout, v: View, first: nat, b: nat, i: nat)
    requires Consistent(l, v) && first <= b < |v.maps|
    requires forall c :: first <= c < b ==> v.maps[c] == l.Full()
    requires i < l.perBitmap && i !in v.maps[b] && forall j :: 0 <= j < i ==> j in v.maps[b]
    ensures var p := Main(b, i);
      && l.Exists(p) && p !in v.live
      && forall q :: l.Exists(q) && q.Main? && q.bitmap >= first && q.Before(p) ==> q in v.live
  {
    hide SupermapsExact;
    var p := Main(b, i);
    assert l.Exists(p) && !InUse(l, v, p);
    forall q: Place | l.Exists(q) && q.Main? && q.bitmap >= first && q.Before(p) ensures q in v.live {
      assert InUse(l, v, q);
    }
  }

  lemma PageFull(l: Layout, v: View, first: nat)
    requires Consistent(l, v) && first + l.perPage <= |v.maps|
    requires forall c :: first <= c < first + l.perPage ==> v.maps[c] == l.Full()
    ensures forall q :: l.Exists(q) && q.Main? && first <= q.bitmap < first + l.perPage ==> q in v.live
  {
    hide SupermapsExact;
    forall q: Place | l.Exists(q) && q.Main? && first <= q.bitmap < first + l.perPage ensures q in v.live {
      assert InUse(l, v, q);
    }
  }

  /** No continuation of the page of bitmap b is in use. */
  ghost predicate PageUnused(l: Layout, live: set<Place>, b: nat)
    requires l.perPage >= 1
  {
    forall q :: q in live && q.Main? ==> l.PageStart(q.bitmap) != l.PageStart(b)
  }

  /** Pages do not straddle the end of the bitmaps, and hold exactly perPage of them. */
  lemma PageFits(l: Layout, b: nat)
    requires l.Valid() && b < l.Bitmaps()
    ensures l.PageStart(b) + l.perPage <= l.Bitmaps()
  {
    var w := l.perPage;
    assert b - b % w == b / w * w && l.Bitmaps() == l.Bitmaps() / w * w;
    Cancel(b / w, l.Bitmaps() / w, w);
    Product(b / w + 1, l.Bitmaps() / w, w);
  }

  lemma SamePage(l: Layout, b: nat, c: nat)
    requires l.perPage >= 1
    ensures l.PageStart(b) == l.PageStart(c) <==> l.PageStart(b) <= c < l.PageStart(b) + l.perPage
  {
    var w := l.perPage;
    if b - b % w <= c < b - b % w + w {
      Within(b / w, c - (b - b % w), w);
    }
  }

  lemma PageUnusedIffZero(l: Layout, v: View, b: nat)
    requires Consistent(l, v) && b < |v.maps| && l.PageStart(b) + l.perPage <= |v.maps|
    ensures PageUnused(l, v.live, b) <==>
      forall c :: l.PageStart(b) <= c < l.PageStart(b) + l.perPage ==> v.maps[c] == {}
  {
    hide SupermapsExact;
    var first := l.PageStart(b);
    forall c, i: nat | first <= c < first + l.perPage && i in v.maps[c] ensures !PageUnused(l, v.live, b) {
      SamePage(l, b, c);
      assert i in l.Full() && l.Exists(Main(c, i)) && InUse(l, v, Main(c, i));
    }
    forall q | q in v.live && q.Main? && l.PageStart(q.bitmap) == first
      ensures first <= q.bitmap < first + l.perPage && v.maps[q.bitmap] != {}
    {
      SamePage(l, b, q.bitmap);
      assert InUse(l, v, q);
    }
  }

  lemma NotUnused(l: Layout, v: View, b: nat)
    requires Consistent(l, v) && b < |v.maps| && v.maps[b] != {}
    ensures !PageUnused(l, v.live, b)
  {
    PageFits(l, b);
    PageUnusedIffZero(l, v, b);
    SamePage(l, b, b);
  }

  lemma NothingTaken(l: Layout, v: View)
    requires Shape(l, v) && v.live == {}
    requires (forall s :: 0 <= s < |v.supermaps| ==> v.supermaps[s] == {})
    requires (forall b :: 0 <= b < |v.maps| ==> v.maps[b] == {})
    requires (forall k :: 0 <= k < |v.fpMaps| ==> v.fpMaps[k] == {})
    ensures Consistent(l, v)
  {
    assert 0 in l.Full();
    assert SupermapsExact(l, v) by {
      forall b | 0 <= b < |v.maps| ensures Marked(l, v, b) <==> v.maps[b] == l.Full() {
        InRows(l, b);
      }
    }
    hide SupermapsExact;
  }

  class Magazine {
    const layout: Layout
    const supermaps: array<Bits>
    const maps: array<Bits>     // maps[][] in memory order
    const fpMaps: array<Bits>
    ghost var live: set<Place>  // the continuations in use

    ghost function Repr(): set<object> { {this, supermaps, maps, fpMaps} }

    ghost function Now(): View
      reads Repr()
    {
      View(supermaps[..], maps[..], fpMaps[..], live)
    }

    ghost predicate Valid()
      reads Repr()
    {
      && supermaps != maps && maps != fpMaps && supermaps != fpMaps
      && Consistent(layout, Now())
    }

    lemma Lengths()
      requires Valid()
      ensures maps.Length == layout.Bitmaps()
    {
    }

    /** A magazine of a heap fresh from the system: all bitmaps zero. */
    constructor (layout: Layout)
      requires layout.Valid()
      ensures Valid() && fresh(Repr()) && this.layout == layout && live == {}
    {
      this.layout := layout;
      supermaps := new Bits[layout.supermaps](_ => {});
      maps := new Bits[layout.Bitmaps()](_ => {});
      fpMaps := new Bits[layout.FirstBitmaps()](_ => {});
      live := {};
      new;
      NothingTaken(layout, Now());
    }

    /** mark_bitmap_as_full_if_still_full */
    method MarkIfFull(b: nat)
      requires layout.perSupermap >= 1 && supermaps != maps && b < maps.Length && layout.Super(b) < supermaps.Length
      modifies supermaps
      ensures var s := layout.Super(b);
        supermaps[..] == if maps[b] == layout.Full() then old(supermaps[..])[s := old(supermaps[s]) + {layout.Bit(b)}]
                         else old(supermaps[..])
    {
      if maps[b] == layout.Full() {
        supermaps[layout.Super(b)] := supermaps[layout.Super(b)] + {layout.Bit(b)};
      }
    }

    /** bitmap_set_first_unset_bit on a bitmap of the main array, with the mark that follows. */
    method TakeFrom(b: nat) returns (index: Option<nat>)
      requires Valid() && b < maps.Length
      modifies Repr()
      ensures Valid()
      ensures index.None? <==> old(maps[b]) == layout.Full()
      ensures index.None? ==> Now() == old(Now())
      ensures index.Some? ==>
        && index.value < layout.perBitmap && layout.Super(b) < supermaps.Length
        && Now() == Take(layout, old(Now()), b, index.value) && live == old(live) + {Main(b, index.value)}
        && index.value !in old(maps[b]) && forall j :: 0 <= j < index.value ==> j in old(maps[b])
    {
      var i := FirstUnset(maps[b], 0);
      assert maps[b] == Now().maps[b] && maps[b] <= layout.Full();
      if i >= layout.perBitmap {
        assert maps[b] == layout.Full();
        return None;
      }
      InRows(layout, b);
      TakeValid(layout, Now(), b, i);
      hide *;
      maps[b] := maps[b] + {i};
      live := live + {Main(b, i)};
      MarkIfFull(b);
      index := Some(i);
    }

    /** The inner loop of alloc_continuation_from_magazine: the bitmaps of one supermap. */
    method SearchSupermap(s: nat) returns (p: Option<Place>)
      requires Valid() && s < supermaps.Length && FullBelow(layout, Now(), s * layout.perSupermap)
      modifies Repr()
      ensures Valid()
      ensures p.Some? ==> p.value.Main? && FirstFit(layout, old(live), p.value) && live == old(live) + {p.value}
      ensures p.None? ==> FullBelow(layout, Now(), (s + 1) * layout.perSupermap) && Now() == old(Now())
    {
      ghost var v := Now();
      assert Consistent(layout, v) && Shape(layout, v);
      AtIndex(layout, s, 0);
      hide Consistent;
      hide FirstFit;
      hide FullBelow;
      hide Take;
      hide Upto;
      var b := 0;
      while b < layout.perSupermap
        invariant b <= layout.perSupermap && Now() == v && Valid()
        invariant FullBelow(layout, v, s * layout.perSupermap + b)
      {
        AtIndex(layout, s, b);
        var c := s * layout.perSupermap + b;
        var index := TakeFrom(c);
        if index.Some? {
          FoundFirstFit(layout, v, c, index.value);
          return Some(Main(c, index.value));
        }
        OneMore(layout, v, c);
        b := b + 1;
      }
      p := None;
    }

    /** alloc_continuation_from_magazine: full supermaps are skipped. */
    method AllocFromMagazine() returns (p: Option<Place>)
      requires Valid()
      modifies Repr()
      ensures Valid()
      ensures p.Some? ==> p.value.Main? && FirstFit(layout, old(live), p.value) && live == old(live) + {p.value}
      ensures p.None? ==> AllMain(layout, old(live)) && Now() == old(Now())
    {
      ghost var v := Now();
      assert Consistent(layout, v) && Shape(layout, v);
      assert FullBelow(layout, v, 0);
      hide Consistent;
      hide FullBelow;
      hide FirstFit;
      hide AllMain;
      hide Upto;
      var s := 0;
      while s < supermaps.Length
        invariant s <= supermaps.Length && Now() == v && Valid()
        invariant FullBelow(layout, v, s * layout.perSupermap)
      {
        if supermaps[s] == Upto(layout.perSupermap) {
          SkipSupermap(layout, v, s);
        } else {
          p := SearchSupermap(s);
          if p.Some? {
            return;
          }
        }
        s := s + 1;
      }
      NoneLeft(layout, v);
      p := None;
    }

    /** os_atomic_set_first_bit on a bitmap of the first page that governs size continuations. */
    method TakeFromFirst(k: nat, size: nat) returns (index: Option<nat>)
      requires Valid() && k < fpMaps.Length && size == layout.FirstSize(k)
      modifies Repr()
      ensures Valid()
      ensures index.None? <==> old(fpMaps[k]) == Upto(size)
      ensures index.None? ==> Now() == old(Now())
      ensures index.Some? ==>
        && index.value < size && Now() == TakeFirst(layout, old(Now()), k, index.value)
        && live == old(live) + {FirstPage(k, index.value)}
        && index.value !in old(fpMaps[k]) && forall j :: 0 <= j < index.value ==> j in old(fpMaps[k])
    {
      var i := FirstUnset(fpMaps[k], 0);
      assert fpMaps[k] == Now().fpMaps[k] && fpMaps[k] <= Upto(size);
      if i >= size {
        assert fpMaps[k] == Upto(size);
        return None;
      }
      TakeFirstValid(layout, Now(), k, i);
      hide *;
      fpMaps[k] := fpMaps[k] + {i};
      live := live + {FirstPage(k, i)};
      index := Some(i);
    }

    /** The partial bitmap at the end of the first page. */
    method TakeRemainder() returns (p: Option<Place>)
      requires Valid() && FirstFullBelow(layout, Now(), layout.fullFirst)
      modifies Repr()
      ensures Valid()
      ensures p.Some? ==> p.value.FirstPage? && FirstFit(layout, old(live), p.value) && live == old(live) + {p.value}
      ensures p.None? ==> AllFirst(layout, old(live)) && Now() == old(Now())
    {
      ghost var v := Now();
      assert Consistent(layout, v) && Shape(layout, v);
      hide Consistent;
      hide FirstFit;
      hide AllFirst;
      hide Upto;
      hide TakeFirst;
      if layout.remainder != 0 {
        var k := layout.fullFirst;
        var index := TakeFromFirst(k, layout.remainder);
        if index.Some? {
          FirstPageFirstFit(layout, v, k, index.value);
          return Some(FirstPage(k, index.value));
        }
      }
      FirstPageFull(layout, v);
      p := None;
    }

    /** alloc_continuation_from_first_page */
    method AllocFromFirstPage() returns (p: Option<Place>)
      requires Valid()
      modifies Repr()
      ensures Valid()
      ensures p.Some? ==> p.value.FirstPage? && FirstFit(layout, old(live), p.value) && live == old(live) + {p.value}
      ensures p.None? ==> AllFirst(layout, old(live)) && Now() == old(Now())
    {
      ghost var v := Now();
      assert Consistent(layout, v) && Shape(layout, v);
      hide Consistent;
      hide FirstFit;
      hide AllFirst;
      hide Upto;
      hide TakeFirst;
      var k := 0;
      while k < layout.fullFirst
        invariant k <= layout.fullFirst && Now() == v && Valid()
        invariant FirstFullBelow(layout, v, k)
      {
        var index := TakeFromFirst(k, layout.perBitmap);
        if index.Some? {
          FirstPageFirstFit(layout, v, k, index.value);
          return Some(FirstPage(k, index.value));
        }
        k := k + 1;
      }
      p := TakeRemainder();
    }

    /** _dispatch_alloc_continuation_from_heap, on this CPU's magazine */
    method AllocFromHeap() returns (p: Option<Place>)
      requires Valid()
      modifies Repr()
      ensures Valid()
      ensures p.Some? ==> layout.Exists(p.value) && p.value !in old(live) && live == old(live) + {p.value}
      ensures p.Some? ==> FirstFit(layout, old(live), p.value)
      ensures p.Some? && p.value.Main? ==> AllFirst(layout, old(live))
      ensures p.None? ==> (forall q :: q in live <==> layout.Exists(q)) && live == old(live) && Now() == old(Now())
    {
      p := AllocFromFirstPage();
      if p.None? {
        p := AllocFromMagazine();
      }
    }

    /** The bitmaps of the page where a continuation was found last time. */
    method AllocFromPage(first: nat) returns (p: Option<Place>)
      requires Valid() && first + layout.perPage <= maps.Length
      modifies Repr()
      ensures Valid()
      ensures p.Some? ==>
        && p.value.Main? && layout.Exists(p.value) && p.value !in old(live) && live == old(live) + {p.value}
        && first <= p.value.bitmap < first + layout.perPage
        && forall q :: layout.Exists(q) && q.Main? && q.bitmap >= first && q.Before(p.value) ==> q in old(live)
      ensures p.None? ==> Now() == old(Now()) && live == old(live)
      ensures p.None? ==>
        (forall q :: layout.Exists(q) && q.Main? && first <= q.bitmap < first + layout.perPage ==> q in live)
    {
      hide SupermapsExact;
      hide InRange;
      var i := 0;
      while i < layout.perPage
        invariant i <= layout.perPage && Now() == old(Now()) && Valid()
        invariant forall b :: first <= b < first + i ==> maps[b] == layout.Full()
      {
        var cur := first + i;
        var index := TakeFrom(cur);
        if index.Some? {
          var q := Main(cur, index.value);
          PageFirstFit(layout, old(Now()), first, cur, index.value);
          return Some(q);
        }
        i := i + 1;
      }
      PageFull(layout, Now(), first);
      p := None;
    }

    /** Take the page's bitmaps from zero to all ones, up to the first that is not zero. */
    method LockPage(first: nat) returns (locked: nat)
      requires first + layout.perPage <= maps.Length
      modifies maps
      ensures locked <= layout.perPage
      ensures forall c :: first <= c < first + locked ==> old(maps[c]) == {} && maps[c] == layout.Full()
      ensures forall c :: 0 <= c < maps.Length && !(first <= c < first + locked) ==> maps[c] == old(maps[c])
      ensures locked < layout.perPage ==> maps[first + locked] != {}
    {
      hide *;
      locked := 0;
      while locked < layout.perPage
        invariant locked <= layout.perPage
        invariant forall c :: first <= c < first + locked ==> old(maps[c]) == {} && maps[c] == layout.Full()
        invariant forall c :: 0 <= c < maps.Length && !(first <= c < first + locked) ==> maps[c] == old(maps[c])
      {
        if maps[first + locked] != {} {
          return;
        }
        maps[first + locked] := layout.Full();
        locked := locked + 1;
      }
    }

    /** Zero the bitmaps that were taken, last first. */
    method UnlockPage(first: nat, count: nat)
      requires first + count <= maps.Length
      modifies maps
      ensures forall c :: 0 <= c < maps.Length ==> maps[c] == if first <= c < first + count then {} else old(maps[c])
    {
      var locked := count;
      while locked > 1
        invariant 0 <= locked <= count
        invariant forall c :: 0 <= c < maps.Length ==>
          maps[c] == if first + locked <= c < first + count then {} else old(maps[c])
      {
        locked := locked - 1;
        maps[first + locked] := {};
      }
      if locked > 0 {
        maps[first] := {};
      }
    }

    /** _dispatch_alloc_maybe_madvise_page */
    method MaybeMadvise(b: nat) returns (madvised: bool)
      requires Valid() && b < maps.Length
      modifies maps
      ensures Now() == old(Now())
      ensures madvised <==> PageUnused(layout, live, b)
    {
      PageFits(layout, b);
      var first := layout.PageStart(b);
      PageUnusedIffZero(layout, Now(), b);
      hide *;
      var i := 0;
      while i < layout.perPage
        invariant i <= layout.perPage
        invariant forall c :: first <= c < first + i ==> maps[c] == {}
      {
        if maps[first + i] != {} {
          return false;
        }
        i := i + 1;
      }
      var locked := LockPage(first);
      madvised := locked == layout.perPage;
      UnlockPage(first, locked);
      assert maps[..] == old(maps[..]);
    }

    /** _dispatch_alloc_continuation_free; a continuation that is not in use is a crash. */
    method Free(p: Place) returns (crash: bool, madvised: bool)
      requires Valid() && layout.Exists(p)
      modifies Repr()
      ensures Valid()
      ensures crash <==> p !in old(live)
      ensures live == old(live) - {p}
      ensures crash ==> Now() == old(Now()) && !madvised
      ensures !crash ==> (madvised <==> p.Main? && PageUnused(layout, live, p.bitmap))
    {
      hide SupermapsExact;
      hide InRange;
      hide PageUnused;
      assert p in live <==> InUse(layout, Now(), p);
      if p.FirstPage? {
        var k, i := p.bitmap, p.index;
        if i !in fpMaps[k] {
          return true, false;
        }
        GiveFirstValid(layout, Now(), k, i);
        fpMaps[k] := fpMaps[k] - {i};
        live := live - {p};
        assert Now() == GiveFirst(layout, old(Now()), k, i);
        return false, false;
      }
      var b, i := p.bitmap, p.index;
      if i !in maps[b] {
        return true, false;
      }
      InRows(layout, b);
      GiveValid(layout, Now(), b, i);
      maps[b] := maps[b] - {i};
      var s := layout.Super(b);
      supermaps[s] := supermaps[s] - {layout.Bit(b)};
      live := live - {p};
      assert Now() == Give(layout, old(Now()), b, i);
      crash, madvised := false, false;
      if maps[b] == {} {
        madvised := MaybeMadvise(b);
      } else {
        NotUnused(layout, Now(), b);
      }
    }
  }
}
