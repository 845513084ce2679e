/**
  The chain of heaps: one magazine per CPU in every heap, a page remembered per CPU, and the
  slow path that walks the chain and extends it.
*/
module AllocatorHeaps {
  import opened Common
  import M = AllocatorMagazine

  datatype Loc = Loc(heap: nat, cpu: nat, place: M.Place)
  datatype Page = Page(heap: nat, first: nat)

  /** The order in which a heap is searched: its first page before the rest. */
  predicate Sooner(q: M.Place, p: M.Place) {
    (q.FirstPage? && p.Main?) || (q.Main? == p.Main? && q.Before(p))
  }

  /** x is free, and all that is searched before it in its magazine is in use. */
  ghost predicate FirstFree(l: M.Layout, x: Loc, live: set<Loc>) {
    x !in live && forall q :: l.Exists(q) && Sooner(q, x.place) ==> Loc(x.heap, x.cpu, q) in live
  }

  predicate OnPage(l: M.Layout, p: M.Place, page: Page) {
    p.Main? && page.first <= p.bitmap < page.first + l.perPage
  }

  /** This CPU's part of the page is used up. */
  ghost predicate PageFull(l: M.Layout, cpu: nat, page: Page, live: set<Loc>) {
    forall q :: l.Exists(q) && OnPage(l, q, page) ==> Loc(page.heap, cpu, q) in live
  }

  /** x is the first on the page that is free. */
  ghost predicate FirstOnPage(l: M.Layout, x: Loc, page: Page, live: set<Loc>) {
    && x.heap == page.heap && x !in live && OnPage(l, x.place, page)
    && forall q :: l.Exists(q) && OnPage(l, q, page) && q.Before(x.place) ==> Loc(x.heap, x.cpu, q) in live
  }

  /** The page of x is the one this CPU looks at first from now on, unless it is the packed first one. */
  function Remembered(l: M.Layout, lastFound: seq<Option<Page>>, x: Loc): seq<Option<Page>>
    requires x.cpu < |lastFound| && l.perPage >= 1
  {
    if x.place.Main? then lastFound[x.cpu := Some(Page(x.heap, l.PageStart(x.place.bitmap)))] else lastFound
  }

  lemma FirstInHeap(l: M.Layout, x: Loc, before: set<M.Place>, live: set<Loc>)
    requires M.FirstFit(l, before, x.place) && (x.place.Main? ==> M.AllFirst(l, before))
    requires forall q :: q in before <==> Loc(x.heap, x.cpu, q) in live
    ensures FirstFree(l, x, live)
  {
  }

  class Allocator {
    const layout: M.Layout
    const cpus: nat                      // MAGAZINES_PER_HEAP
    var heaps: seq<seq<M.Magazine>>      // _dispatch_main_heap and its dh_next links
    var lastFound: seq<Option<Page>>     // last_found_page of each CPU
    ghost var live: set<Loc>
    ghost var repr: set<object>

    predicate InHeaps(h: nat, c: nat)
      reads this
    {
      h < |heaps| && c < |heaps[h]|
    }

    ghost predicate Disjoint()
      reads this
    {
      forall h: nat, c: nat, i: nat, j: nat :: InHeaps(h, c) && InHeaps(i, j) && (h, c) != (i, j) ==>
        heaps[h][c].Repr() !! heaps[i][j].Repr()
    }

    ghost predicate Valid()
      reads this, repr
    {
      && layout.Valid() && |lastFound| == cpus && this in repr
      && (forall h :: 0 <= h < |heaps| ==> |heaps[h]| == cpus)
      && (forall h: nat, c: nat :: InHeaps(h, c) ==>
            && heaps[h][c].Repr() <= repr && this !in heaps[h][c].Repr()
            && heaps[h][c].layout == layout && heaps[h][c].Valid())
      && Disjoint()
      && (forall c :: 0 <= c < cpus && lastFound[c].Some? ==>
            lastFound[c].value.heap < |heaps| && lastFound[c].value.first + layout.perPage <= layout.Bitmaps())
      && (forall x :: x in live <==> InHeaps(x.heap, x.cpu) && x.place in heaps[x.heap][x.cpu].live)
    }

    constructor (layout: M.Layout, cpus: nat)
      requires layout.Valid()
      ensures Valid() && fresh(repr) && live == {} && heaps == [] && this.layout == layout && this.cpus == cpus
    {
      this.layout, this.cpus := layout, cpus;
      heaps := [];
      lastFound := seq(cpus, _ => None);
      live := {};
      repr := {this};
    }

    /** Every continuation this CPU has in the first n heaps is in use. */
    ghost predicate ColumnFull(cpu: nat, n: nat, live: set<Loc>) {
      forall h: nat, p :: h < n && layout.Exists(p) ==> Loc(h, cpu, p) in live
    }

    /** set_last_found_page(first_bitmap_in_same_page(bitmap)) */
    method Remember(cpu: nat, h: nat, b: nat)
      requires Valid() && cpu < cpus && h < |heaps| && b < layout.Bitmaps()
      modifies `lastFound
      ensures Valid() && lastFound == old(lastFound)[cpu := Some(Page(h, layout.PageStart(b)))]
    {
      M.PageFits(layout, b);
      lastFound := lastFound[cpu := Some(Page(h, layout.PageStart(b)))];
    }

    /** _dispatch_alloc_continuation_from_heap */
    method AllocFromHeap(cpu: nat, h: nat) returns (r: Option<Loc>)
      requires Valid() && cpu < cpus && h < |heaps|
      modifies repr
      ensures Valid() && heaps == old(heaps) && repr == old(repr)
      ensures r.Some? ==> r.value.heap == h && r.value.cpu == cpu && layout.Exists(r.value.place)
      ensures r.Some? ==> r.value !in old(live) && live == old(live) + {r.value}
      ensures r.Some? ==> FirstFree(layout, r.value, old(live))
      ensures r.Some? ==> lastFound == Remembered(layout, old(lastFound), r.value)
      ensures r.None? ==> live == old(live) && forall p :: layout.Exists(p) ==> Loc(h, cpu, p) in live
      ensures r.None? ==> lastFound == old(lastFound)
    {
      hide M.Magazine.Valid;
      hide M.Magazine.Now;
      hide M.FirstFit;
      hide M.AllFirst;
      hide FirstFree;
      assert InHeaps(h, cpu);
      var m := heaps[h][cpu];
      ghost var before := m.live;
      assert forall q :: q in before <==> Loc(h, cpu, q) in live;
      var p := m.AllocFromHeap();
      if p.None? {
        r := None;
      } else {
        r := Some(Loc(h, cpu, p.value));
        FirstInHeap(layout, r.value, before, live);
        live := live + {r.value};
        if p.value.Main? {
          Remember(cpu, h, p.value.bitmap);
        }
      }
    }

    /** _dispatch_alloc_try_create_heap: a zeroed heap at the end of the chain. */
    method CreateHeap()
      requires Valid()
      modifies this
      ensures Valid() && live == old(live) && fresh(repr - old(repr)) && old(repr) <= repr
      ensures |heaps| == old(|heaps|) + 1 && heaps[..old(|heaps|)] == old(heaps) && lastFound == old(lastFound)
    {
      hide M.Magazine.Valid;
      var heap: seq<M.Magazine> := [];
      ghost var added: set<object> := {};
      while |heap| < cpus
        invariant |heap| <= cpus && fresh(added) && unchanged(this) && Valid()
        invariant forall c :: 0 <= c < |heap| ==>
          heap[c].Repr() <= added && heap[c].layout == layout && heap[c].Valid() && heap[c].live == {}
        invariant forall c, j :: 0 <= c < j < |heap| ==> heap[c].Repr() !! heap[j].Repr()
      {
        var m := new M.Magazine(layout);
        added := added + m.Repr();
        heap := heap + [m];
      }
      heaps := heaps + [heap];
      repr := repr + added;
    }

    /** _dispatch_alloc_continuation_from_heap_slow */
    method AllocSlow(cpu: nat) returns (r: Loc)
      requires Valid() && cpu < cpus
      modifies repr
      ensures Valid() && old(heaps) <= heaps && fresh(repr - old(repr)) && old(repr) <= repr
      ensures r.cpu == cpu && layout.Exists(r.place) && r !in old(live) && live == old(live) + {r}
      ensures ColumnFull(cpu, r.heap, old(live)) && FirstFree(layout, r, old(live))
      ensures lastFound == Remembered(layout, old(lastFound), r)
      ensures |heaps| == if ColumnFull(cpu, old(|heaps|), old(live)) then old(|heaps|) + 1 else old(|heaps|)
    {
      hide M.Magazine.Valid;
      var h := 0;
      while true
        invariant Valid() && live == old(live) && lastFound == old(lastFound)
        invariant fresh(repr - old(repr)) && old(repr) <= repr
        invariant h <= old(|heaps|) && heaps == old(heaps)
        invariant ColumnFull(cpu, h, live)
        decreases old(|heaps|) - h
      {
        if h == |heaps| {
          CreateHeap();
        }
        var found := AllocFromHeap(cpu, h);
        if found.Some? {
          return found.value;
        }
        assert h < old(|heaps|) by {
          assert 0 in layout.Full() && layout.Exists(M.Main(0, 0));
          assert Loc(h, cpu, M.Main(0, 0)) in old(live);
        }
        h := h + 1;
      }
    }

    /** The bitmaps of the remembered page. */
    method AllocFromPage(cpu: nat) returns (r: Option<Loc>)
      requires Valid() && cpu < cpus && lastFound[cpu].Some?
      modifies repr
      ensures Valid() && heaps == old(heaps) && repr == old(repr) && lastFound == old(lastFound)
      ensures r.Some? ==> r.value.heap < |heaps| && r.value.cpu == cpu && layout.Exists(r.value.place)
      ensures r.Some? ==> r.value !in old(live) && live == old(live) + {r.value}
      ensures r.None? <==> PageFull(layout, cpu, lastFound[cpu].value, old(live))
      ensures r.Some? ==> FirstOnPage(layout, r.value, lastFound[cpu].value, old(live))
      ensures r.None? ==> live == old(live)
    {
      hide M.Magazine.Valid;
      hide M.Magazine.Now;
      var page := lastFound[cpu].value;
      assert InHeaps(page.heap, cpu);
      var m := heaps[page.heap][cpu];
      assert m.maps.Length == layout.Bitmaps() by { m.Lengths(); }
      ghost var before := m.live;
      assert forall q :: q in before <==> Loc(page.heap, cpu, q) in live;
      var p := m.AllocFromPage(page.first);
      if p.None? {
        r := None;
      } else {
        r := Some(Loc(page.heap, cpu, p.value));
        live := live + {r.value};
      }
    }

    /** _dispatch_alloc_continuation_alloc: the remembered page, the main heap, the slow path. */
    method Alloc(cpu: nat) returns (r: Loc)
      requires Valid() && cpu < cpus
      modifies repr
      ensures Valid() && old(heaps) <= heaps && fresh(repr - old(repr)) && old(repr) <= repr
      ensures r.cpu == cpu && layout.Exists(r.place) && r !in old(live) && live == old(live) + {r}
      ensures |heaps| == if ColumnFull(cpu, old(|heaps|), old(live)) then old(|heaps|) + 1 else old(|heaps|)
      ensures var last := old(lastFound)[cpu];
        if last.Some? && !PageFull(layout, cpu, last.value, old(live))
        then FirstOnPage(layout, r, last.value, old(live)) && lastFound == old(lastFound)
        else
          && ColumnFull(cpu, r.heap, old(live)) && FirstFree(layout, r, old(live))
          && lastFound == Remembered(layout, old(lastFound), r)
    {
      hide M.Magazine.Valid;
      hide FirstFree;
      hide FirstOnPage;
      hide Remembered;
      if heaps != [] {
        if lastFound[cpu].Some? {
          var near := AllocFromPage(cpu);
          if near.Some? {
            return near.value;
          }
        }
        var found := AllocFromHeap(cpu, 0);
        if found.Some? {
          return found.value;
        }
      }
      r := AllocSlow(cpu);
    }

    /** No continuation on the page of x is in use. */
    ghost predicate PageUnused(x: Loc, live: set<Loc>) {
      && layout.perPage >= 1
      && forall y :: y in live && (y.heap, y.cpu) == (x.heap, x.cpu) && y.place.Main? ==>
        layout.PageStart(y.place.bitmap) != layout.PageStart(x.place.bitmap)
    }

    /** _dispatch_alloc_continuation_free */
    method Free(x: Loc) returns (crash: bool, madvised: bool)
      requires Valid() && InHeaps(x.heap, x.cpu) && layout.Exists(x.place)
      modifies repr
      ensures Valid() && heaps == old(heaps) && repr == old(repr) && lastFound == old(lastFound)
      ensures crash <==> x !in old(live)
      ensures live == old(live) - {x}
      ensures madvised <==> !crash && x.place.Main? && PageUnused(x, live)
    {
      hide M.Magazine.Valid;
      hide M.Magazine.Now;
      var m := heaps[x.heap][x.cpu];
      crash, madvised := m.Free(x.place);
      live := live - {x};
      assert forall q :: q in m.live <==> Loc(x.heap, x.cpu, q) in live;
    }
  }
}
