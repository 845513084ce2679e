/**
  Addresses inside a magazine.  Masking off the low bits of an address, which the code does
  with power-of-two sizes, is subtracting the remainder.
*/
module AllocatorLayout {
  import opened Common
  import M = AllocatorMagazine

  /** A continuation by the indices that address it; AllocatorMagazine numbers the bitmaps through. */
  datatype Place =
    | FirstPage(bitmap: nat, index: nat)
    | Main(supermap: nat, bitmap: nat, index: nat)

  /** Sizes and offsets of struct dispatch_magazine_s. */
  datatype Geometry = Geometry(
    contSize: nat,       // DISPATCH_CONTINUATION_SIZE
    perBitmap: nat,      // CONTINUATIONS_PER_BITMAP
    perSupermap: nat,    // BITMAPS_PER_SUPERMAP
    perPage: nat,        // BITMAPS_PER_PAGE
    bitmapSize: nat,     // BYTES_PER_BITMAP
    supermaps: nat,      // SUPERMAPS_PER_MAGAZINE
    magazineSize: nat,   // BYTES_PER_MAGAZINE
    mapsOffset: nat,     // offsetof maps
    fpOffset: nat,       // offsetof fp_conts, the page size when the first page is not packed
    fpConts: nat)        // CONTINUATIONS_IN_FIRST_PAGE
  {
    function Page(): nat { perPage * (perBitmap * contSize) }
    function Bitmaps(): nat { supermaps * perSupermap }
    function ContsSize(): nat { Bitmaps() * (perBitmap * contSize) }
    function PerSupermap(): nat { perSupermap * perBitmap }
    function PageOfBitmaps(): nat { perPage * bitmapSize }

    /** What the header's assumptions and _dispatch_alloc_init's assertions give. */
    ghost predicate Valid() {
      && contSize >= 1 && perBitmap >= 1 && perSupermap >= 1 && perPage >= 1 && bitmapSize >= 1
      && PerSupermap() >= 1 && PageOfBitmaps() >= 1 && Page() >= 1 && magazineSize >= 1
      && magazineSize % Page() == 0
      && Page() + ContsSize() <= magazineSize
      && Bitmaps() % perPage == 0
      && mapsOffset % PageOfBitmaps() == 0
      && magazineSize % PageOfBitmaps() == 0
      && mapsOffset + Bitmaps() * bitmapSize <= fpOffset
      && fpOffset + fpConts * contSize == Page()
    }

    ghost predicate Exists(p: Place) {
      match p
      case FirstPage(k, i) => k * perBitmap + i < fpConts && i < perBitmap
      case Main(s, b, i) => s < supermaps && b < perSupermap && i < perBitmap
    }
  }

  /** 64-bit layouts with 64-byte continuations: 16K pages with a packed first page, 4K pages without. */
  const PACKED := Geometry(64, 64, 64, 4, 8, 3, 64 * 16384, 64, 1664, 230)
  const UNPACKED := Geometry(64, 64, 64, 1, 8, 7, 512 * 4096, 128, 4096, 0)

  lemma LayoutsInUse()
    ensures PACKED.Valid() && UNPACKED.Valid()
  {
  }

  /** a & ~(w - 1), for w a power of two */
  function MaskOff(a: nat, w: nat): nat
    requires w >= 1
  {
    a - a % w
  }

  /** &magazine->maps[supermap][map] */
  function BitmapAddress(g: Geometry, m: nat, s: nat, b: nat): nat {
    m + g.mapsOffset + (s * g.perSupermap + b) * g.bitmapSize
  }

  /** &magazine->conts[supermap][map][index], or &magazine->fp_conts[...] */
  function ContinuationAddress(g: Geometry, m: nat, p: Place): nat {
    match p
    case FirstPage(k, i) => m + g.fpOffset + (k * g.perBitmap + i) * g.contSize
    case Main(s, b, i) => m + g.Page() + ((s * g.perSupermap + b) * g.perBitmap + i) * g.contSize
  }

  /** magazine_for_continuation */
  function MagazineFor(g: Geometry, c: nat): nat
    requires g.Valid()
  {
    MaskOff(c, g.magazineSize)
  }

  /** c & ~DISPATCH_ALLOCATOR_PAGE_MASK */
  function PageBase(g: Geometry, c: nat): nat
    requires g.Valid()
  {
    MaskOff(c, g.Page())
  }

  /** continuation_is_in_first_page */
  predicate InFirstPage(g: Geometry, c: nat)
    requires g.Valid()
  {
    MagazineFor(g, c) == PageBase(g, c)
  }

  function InFirst(g: Geometry, cindex: nat): Place
    requires g.perBitmap >= 1
  {
    FirstPage(cindex / g.perBitmap, cindex % g.perBitmap)
  }

  function InMain(g: Geometry, cindex: nat): Place
    requires g.perBitmap >= 1 && g.perSupermap >= 1 && g.PerSupermap() >= 1
  {
    Main(cindex / g.PerSupermap(), cindex / g.perBitmap % g.perSupermap, cindex % g.perBitmap)
  }

  /** get_maps_and_indices_for_continuation */
  function Find(g: Geometry, c: nat): Place
    requires g.Valid()
    requires c >= MagazineFor(g, c) + if InFirstPage(g, c) then g.fpOffset else g.Page()
  {
    var m := MagazineFor(g, c);
    if InFirstPage(g, c) then InFirst(g, (c - (m + g.fpOffset)) / g.contSize)
    else InMain(g, (c - (m + g.Page())) / g.contSize)
  }

  lemma Multiple(q: nat, w: nat)
    requires w >= 1
    ensures q * w % w == 0 && q * w / w == q
  {
    Within(q, 0, w);
  }

  lemma Chain(m: nat, big: nat, small: nat)
    requires big >= 1 && small >= 1 && m % big == 0 && big % small == 0
    ensures m % small == 0
  {
    var a, b := m / big, big / small;
    assert m == a * big && big == b * small;
    assert a * (b * small) == (a * b) * small;
    Multiple(a * b, small);
  }

  /** Masking an address of a magazine yields its base. */
  lemma Masked(m: nat, x: nat, w: nat)
    requires w >= 1 && m % w == 0
    ensures (m + x) % w == x % w
  {
    var a, q, r := m / w, x / w, x % w;
    assert m == a * w && x == q * w + r;
    assert m + x == (a + q) * w + r;
    Within(a + q, r, w);
  }

  lemma Small(x: nat, w: nat)
    requires x < w
    ensures x % w == x && MaskOff(x, w) == 0
  {
  }

  lemma MagazineOf(g: Geometry, m: nat, x: nat)
    requires g.Valid() && m % g.magazineSize == 0 && x < g.magazineSize
    ensures MagazineFor(g, m + x) == m
  {
    Masked(m, x, g.magazineSize);
    Small(x, g.magazineSize);
  }

  lemma PageOf(g: Geometry, m: nat, x: nat)
    requires g.Valid() && m % g.magazineSize == 0
    ensures PageBase(g, m + x) == m + MaskOff(x, g.Page())
  {
    Chain(m, g.magazineSize, g.Page());
    Masked(m, x, g.Page());
  }

  /** Continuations of the first page lie in it, the others after it and inside the magazine. */
  lemma Inside(g: Geometry, m: nat, p: Place)
    requires g.Valid() && g.Exists(p)
    ensures p.FirstPage? ==> ContinuationAddress(g, m, p) < m + g.Page()
    ensures p.Main? ==> m + g.Page() <= ContinuationAddress(g, m, p) < m + g.magazineSize
  {
    match p
    case FirstPage(k, i) =>
      FirstBound(g, k * g.perBitmap + i);
    case Main(s, b, i) =>
      InsideMain(g, s, b, i);
      hide g.Valid;
      hide g.Page;
  }

  lemma InsideMain(g: Geometry, s: nat, b: nat, i: nat)
    requires g.Valid() && g.Exists(Main(s, b, i))
    ensures 0 <= ((s * g.perSupermap + b) * g.perBitmap + i) * g.contSize < g.magazineSize - g.Page()
  {
    hide g.Bitmaps;
    hide g.Page;
    hide g.ContsSize;
    FlatBound(g, s, b);
    OffsetBound(g, s * g.perSupermap + b, i);
    hide g.Valid;
    Product(0, (s * g.perSupermap + b) * g.perBitmap + i, g.contSize);
  }

  lemma FirstBound(g: Geometry, cindex: nat)
    requires g.fpOffset + g.fpConts * g.contSize == g.Page() && cindex < g.fpConts && g.contSize >= 1
    ensures g.fpOffset + cindex * g.contSize < g.Page()
  {
  }

  lemma FlatBound(g: Geometry, s: nat, b: nat)
    requires s < g.supermaps && b < g.perSupermap
    ensures s * g.perSupermap + b < g.Bitmaps()
  {
    Product(s + 1, g.supermaps, g.perSupermap);
  }

  lemma OffsetBound(g: Geometry, flat: nat, i: nat)
    requires flat < g.Bitmaps() && i < g.perBitmap && g.contSize >= 1
    ensures (flat * g.perBitmap + i) * g.contSize + g.contSize <= g.ContsSize()
  {
    Product(flat + 1, g.Bitmaps(), g.perBitmap);
    Product(flat * g.perBitmap + i + 1, g.Bitmaps() * g.perBitmap, g.contSize);
  }

  lemma WhereItLies(g: Geometry, m: nat, p: Place)
    requires g.Valid() && g.Exists(p) && m % g.magazineSize == 0
    ensures var c := ContinuationAddress(g, m, p);
      MagazineFor(g, c) == m && (InFirstPage(g, c) <==> p.FirstPage?)
  {
    var c := ContinuationAddress(g, m, p);
    Inside(g, m, p);
    hide ContinuationAddress;
    hide g.Page;
    hide g.Exists;
    hide MaskOff;
    MagazineOf(g, m, c - m);
    PageOf(g, m, c - m);
    if p.FirstPage? {
      Small(c - m, g.Page());
    } else {
      AtLeastOnePage(c - m, g.Page());
    }
  }

  lemma FirstIndices(g: Geometry, k: nat, i: nat)
    requires g.perBitmap >= 1 && g.contSize >= 1 && i < g.perBitmap
    ensures InFirst(g, (k * g.perBitmap + i) * g.contSize / g.contSize) == FirstPage(k, i)
  {
    Multiple(k * g.perBitmap + i, g.contSize);
    Within(k, i, g.perBitmap);
  }

  lemma MainIndices(g: Geometry, s: nat, b: nat, i: nat)
    requires g.perBitmap >= 1 && g.perSupermap >= 1 && g.PerSupermap() >= 1 && g.contSize >= 1
    requires b < g.perSupermap && i < g.perBitmap
    ensures InMain(g, ((s * g.perSupermap + b) * g.perBitmap + i) * g.contSize / g.contSize) == Main(s, b, i)
  {
    Multiple((s * g.perSupermap + b) * g.perBitmap + i, g.contSize);
    SplitIndex(g, s, b, i);
  }

  /** The indices found for a continuation's address are its own. */
  lemma FindAddress(g: Geometry, m: nat, p: Place)
    requires g.Valid() && g.Exists(p) && m % g.magazineSize == 0
    ensures var c := ContinuationAddress(g, m, p);
      && MagazineFor(g, c) == m
      && c >= m + (if InFirstPage(g, c) then g.fpOffset else g.Page()) && Find(g, c) == p
  {
    WhereItLies(g, m, p);
    hide g.Page;
    hide g.Bitmaps;
    hide g.ContsSize;
    hide MagazineFor;
    hide InFirstPage;
    match p
    case FirstPage(k, i) =>
      FirstIndices(g, k, i);
      hide InFirst;
      hide g.Valid;
    case Main(s, b, i) =>
      MainIndices(g, s, b, i);
      hide InMain;
      hide g.Valid;
  }

  lemma AtLeastOnePage(x: nat, w: nat)
    requires x >= w >= 1
    ensures MaskOff(x, w) >= w
  {
  }

  lemma SplitIndex(g: Geometry, s: nat, b: nat, i: nat)
    requires b < g.perSupermap && i < g.perBitmap && g.PerSupermap() >= 1
    ensures var cindex := (s * g.perSupermap + b) * g.perBitmap + i;
      && cindex / g.PerSupermap() == s
      && cindex / g.perBitmap % g.perSupermap == b && cindex % g.perBitmap == i
  {
    Within(s * g.perSupermap + b, i, g.perBitmap);
    Within(s, b, g.perSupermap);
    assert (s * g.perSupermap + b) * g.perBitmap + i == s * g.PerSupermap() + (b * g.perBitmap + i);
    Product(b + 1, g.perSupermap, g.perBitmap);
    Within(s, b * g.perBitmap + i, g.PerSupermap());
  }

  /** c is the address of one of the magazine's continuations. */
  ghost predicate IsContinuation(g: Geometry, c: nat)
    requires g.Valid()
  {
    var m := MagazineFor(g, c);
    if InFirstPage(g, c) then c >= m + g.fpOffset && (c - (m + g.fpOffset)) % g.contSize == 0
    else
      && c >= m + g.Page() && (c - (m + g.Page())) % g.contSize == 0
      && c - (m + g.Page()) < g.ContsSize()
  }

  /** Every continuation's address is that of the place found for it: with FindAddress, a bijection. */
  lemma AddressFind(g: Geometry, c: nat)
    requires g.Valid() && IsContinuation(g, c)
    ensures g.Exists(Find(g, c)) && ContinuationAddress(g, MagazineFor(g, c), Find(g, c)) == c
  {
    var m := MagazineFor(g, c);
    if InFirstPage(g, c) {
      var cindex := (c - (m + g.fpOffset)) / g.contSize;
      assert cindex * g.contSize == c - (m + g.fpOffset);
      Residue(c, g.Page());
      Cancel(cindex, g.fpConts, g.contSize);
      Joined(cindex, g.perBitmap);
    } else {
      var cindex := (c - (m + g.Page())) / g.contSize;
      assert cindex * g.contSize == c - (m + g.Page());
      MainIndex(g, cindex);
    }
  }

  lemma Residue(c: nat, w: nat)
    requires w >= 1
    ensures c % w < w
  {
  }

  lemma Joined(x: nat, w: nat)
    requires w >= 1
    ensures x / w * w + x % w == x && x % w < w
  {
  }

  lemma MainIndex(g: Geometry, cindex: nat)
    requires g.perBitmap >= 1 && g.perSupermap >= 1 && g.PerSupermap() >= 1 && g.contSize >= 1
    requires cindex * g.contSize < g.ContsSize()
    ensures var p := InMain(g, cindex);
      g.Exists(p) && (p.supermap * g.perSupermap + p.bitmap) * g.perBitmap + p.index == cindex
  {
    var flat, i := cindex / g.perBitmap, cindex % g.perBitmap;
    var s, b := flat / g.perSupermap, flat % g.perSupermap;
    Joined(cindex, g.perBitmap);
    Joined(flat, g.perSupermap);
    SplitIndex(g, s, b, i);
    InBounds(g, cindex);
    hide g.Bitmaps;
    hide g.ContsSize;
    hide g.PerSupermap;
    assert InMain(g, cindex) == Main(s, b, i);
    hide InMain;
  }

  lemma InBounds(g: Geometry, cindex: nat)
    requires g.perBitmap >= 1 && g.perSupermap >= 1 && g.contSize >= 1 && cindex * g.contSize < g.ContsSize()
    ensures cindex / g.perBitmap / g.perSupermap < g.supermaps
  {
    var flat := cindex / g.perBitmap;
    Joined(cindex, g.perBitmap);
    Joined(flat, g.perSupermap);
    assert g.ContsSize() == (g.Bitmaps() * g.perBitmap) * g.contSize;
    Cancel(cindex, g.Bitmaps() * g.perBitmap, g.contSize);
    hide g.ContsSize;
    if flat >= g.Bitmaps() { Product(g.Bitmaps(), flat, g.perBitmap); }
    if flat / g.perSupermap >= g.supermaps { Product(g.supermaps, flat / g.perSupermap, g.perSupermap); }
  }

  /** The element of size w at offset x, in rows of n: its index in the row, and the row. */
  function Indices(x: nat, w: nat, n: nat): (nat, nat)
    requires w >= 1 && n >= 1
  {
    var k := x / w;
    (k % n, k / n)
  }

  /** get_cont_and_indices_for_bitmap_and_index: continuation, supermap and index in the supermap. */
  function FromBitmap(g: Geometry, a: nat, index: nat): (nat, nat, nat)
    requires g.Valid() && a >= MagazineFor(g, a) + g.mapsOffset
  {
    var m := MagazineFor(g, a);
    var (b, s) := Indices(a - (m + g.mapsOffset), g.bitmapSize, g.perSupermap);
    (ContinuationAddress(g, m, Main(s, b, index)), s, b)
  }

  /** The indices recovered from a bitmap's address are its own, so the code's assertion holds. */
  lemma BitmapIndices(g: Geometry, m: nat, s: nat, b: nat, index: nat)
    requires g.Valid() && m % g.magazineSize == 0 && s < g.supermaps && b < g.perSupermap
    ensures var a := BitmapAddress(g, m, s, b);
      && MagazineFor(g, a) == m
      && FromBitmap(g, a, index) == (ContinuationAddress(g, m, Main(s, b, index)), s, b)
  {
    var flat := s * g.perSupermap + b;
    BitmapInside(g, m, s, b);
    Multiple(flat, g.bitmapSize);
    Within(s, b, g.perSupermap);
  }

  lemma BitmapInside(g: Geometry, m: nat, s: nat, b: nat)
    requires g.Valid() && m % g.magazineSize == 0 && s < g.supermaps && b < g.perSupermap
    ensures var a := BitmapAddress(g, m, s, b);
      a < m + g.fpOffset && MagazineFor(g, a) == m
  {
    var flat := s * g.perSupermap + b;
    FlatBound(g, s, b);
    hide g.Page;
    hide g.Bitmaps;
    hide g.ContsSize;
    hide g.PerSupermap;
    hide g.PageOfBitmaps;
    Below(flat, g.Bitmaps(), g.bitmapSize);
    assert g.fpOffset <= g.Page() <= g.magazineSize;
    hide g.Valid;
    MagazineOf(g, m, g.mapsOffset + flat * g.bitmapSize);
  }

  lemma Below(x: nat, y: nat, w: nat)
    requires x < y && w >= 1
    ensures x * w < y * w
  {
  }

  /** first_bitmap_in_same_page */
  function FirstBitmapInSamePage(g: Geometry, a: nat): nat
    requires g.Valid()
  {
    MaskOff(a, g.PageOfBitmaps())
  }

  /** The bitmap that governs the start of the page of bitmap flat. */
  function PageStart(g: Geometry, flat: nat): nat
    requires g.perPage >= 1
  {
    flat - flat % g.perPage
  }

  function FlatAddress(g: Geometry, m: nat, flat: nat): nat {
    m + g.mapsOffset + flat * g.bitmapSize
  }

  lemma FirstBitmap(g: Geometry, m: nat, flat: nat)
    requires g.Valid() && m % g.magazineSize == 0
    ensures FirstBitmapInSamePage(g, FlatAddress(g, m, flat)) == FlatAddress(g, m, PageStart(g, flat))
  {
    var w := g.PageOfBitmaps();
    Chain(m, g.magazineSize, w);
    Masked(m, g.mapsOffset + flat * g.bitmapSize, w);
    Masked(g.mapsOffset, flat * g.bitmapSize, w);
    ScaledResidue(flat, g.perPage, g.bitmapSize);
  }

  lemma ScaledResidue(x: nat, w: nat, k: nat)
    requires w >= 1 && k >= 1 && w * k >= 1
    ensures x * k % (w * k) == x % w * k
  {
    var q, r := x / w, x % w;
    assert x * k == q * (w * k) + r * k;
    Product(r + 1, w, k);
    Within(q, r * k, w * k);
  }

  /** Offset of the first continuation that bitmap flat of the main array governs. */
  function RowAddress(g: Geometry, m: nat, flat: nat): nat {
    m + g.Page() + flat * (g.perBitmap * g.contSize)
  }

  /** A page's base is the first continuation of the page's first bitmap. */
  lemma PageBaseRow(g: Geometry, m: nat, s: nat, b: nat, i: nat)
    requires g.Valid() && m % g.magazineSize == 0
    requires s < g.supermaps && b < g.perSupermap && i < g.perBitmap
    ensures var flat := s * g.perSupermap + b;
      PageBase(g, ContinuationAddress(g, m, Main(s, b, i))) == RowAddress(g, m, PageStart(g, flat))
  {
    var flat := s * g.perSupermap + b;
    RowMask(flat, g.perPage, g.perBitmap, g.contSize, i);
    hide MaskOff;
    PageOf(g, m, g.Page() + (flat * g.perBitmap + i) * g.contSize);
  }

  lemma RowMask(flat: nat, perPage: nat, perBitmap: nat, contSize: nat, i: nat)
    requires perPage >= 1 && contSize >= 1 && i < perBitmap && perPage * (perBitmap * contSize) >= 1
    ensures var (page, row) := (perPage * (perBitmap * contSize), perBitmap * contSize);
      MaskOff(page + (flat * perBitmap + i) * contSize, page) == page + (flat - flat % perPage) * row
  {
    var row := perBitmap * contSize;
    var page := perPage * row;
    assert (flat * perBitmap + i) * contSize == flat * row + i * contSize;
    Product(i + 1, perBitmap, contSize);
    RowResidue(flat, perPage, row, i * contSize);
    Multiple(1, page);
    Masked(page, flat * row + i * contSize, page);
  }

  lemma RowResidue(flat: nat, perPage: nat, row: nat, y: nat)
    requires perPage >= 1 && y < row && perPage * row >= 1
    ensures (flat * row + y) % (perPage * row) == flat % perPage * row + y
    ensures (flat - flat % perPage) * row == flat * row - flat % perPage * row
  {
    var q, r := flat / perPage, flat % perPage;
    assert flat * row == q * (perPage * row) + r * row;
    Product(r + 1, perPage, row);
    Within(q, r * row + y, perPage * row);
  }

  /** ... whose indices the code recovers from that base, so its scan starts at the right bitmap. */
  lemma PageBaseFound(g: Geometry, m: nat, s: nat, b: nat, i: nat)
    requires g.Valid() && m % g.magazineSize == 0
    requires s < g.supermaps && b < g.perSupermap && i < g.perBitmap
    ensures var page := PageBase(g, ContinuationAddress(g, m, Main(s, b, i)));
      && MagazineFor(g, page) == m && page >= m + (if InFirstPage(g, page) then g.fpOffset else g.Page())
      && var p := Find(g, page);
         p.Main? && p.index == 0 && p.supermap * g.perSupermap + p.bitmap == PageStart(g, s * g.perSupermap + b)
  {
    var f := PageStart(g, s * g.perSupermap + b);
    PageBaseRow(g, m, s, b, i);
    FlatBound(g, s, b);
    var p := RowPlace(g, m, f);
    FindAddress(g, m, p);
  }

  lemma RowPlace(g: Geometry, m: nat, flat: nat) returns (p: Place)
    requires g.Valid() && flat < g.Bitmaps()
    ensures p.Main? && p.index == 0 && p.supermap * g.perSupermap + p.bitmap == flat && g.Exists(p)
    ensures ContinuationAddress(g, m, p) == RowAddress(g, m, flat)
  {
    p := Main(flat / g.perSupermap, flat % g.perSupermap, 0);
    Joined(flat, g.perSupermap);
    if p.supermap >= g.supermaps { Product(g.supermaps, p.supermap, g.perSupermap); }
    assert (flat * g.perBitmap + 0) * g.contSize == flat * (g.perBitmap * g.contSize);
  }

  /** Two continuations of the main array share a page exactly when their bitmaps do. */
  lemma SamePage(g: Geometry, m: nat, p: Place, q: Place)
    requires g.Valid() && m % g.magazineSize == 0
    requires p.Main? && q.Main? && g.Exists(p) && g.Exists(q)
    ensures PageBase(g, ContinuationAddress(g, m, p)) == PageBase(g, ContinuationAddress(g, m, q)) <==>
      PageStart(g, p.supermap * g.perSupermap + p.bitmap) == PageStart(g, q.supermap * g.perSupermap + q.bitmap)
  {
    PageBaseRow(g, m, p.supermap, p.bitmap, p.index);
    PageBaseRow(g, m, q.supermap, q.bitmap, q.index);
    var f := PageStart(g, p.supermap * g.perSupermap + p.bitmap);
    var h := PageStart(g, q.supermap * g.perSupermap + q.bitmap);
    if f != h {
      Apart(f, h, g.perBitmap * g.contSize);
    }
  }

  lemma Apart(x: nat, y: nat, w: nat)
    requires x != y && w >= 1
    ensures x * w != y * w
  {
  }

  datatype Region = Region(bottomSlop: int, aligned: int, alignedEnd: int, topSlop: int)

  /** Where the magazines of a heap go in a freshly mapped region of one magazine too many. */
  function Realign(region: nat, magazines: nat, size: nat): Region
    requires size >= 1
  {
    var end := region + (1 + magazines) * size;
    if region % size == 0 then
      Region(0, region, end - size, size)
    else
      var aligned := MaskOff(region, size) + size;
      Region(aligned - region, aligned, aligned + magazines * size, size - (aligned - region))
  }

  /** The heap is magazine-aligned, inside the region, and the slops are all that is left over. */
  lemma Realigned(region: nat, magazines: nat, size: nat, page: nat)
    requires size >= 1 && page >= 1 && size % page == 0 && region % page == 0
    ensures var r := Realign(region, magazines, size);
      && r.aligned % size == 0 && r.alignedEnd == r.aligned + magazines * size
      && region + r.bottomSlop == r.aligned && r.alignedEnd + r.topSlop == region + (1 + magazines) * size
      && 0 <= r.bottomSlop < size && 0 < r.topSlop <= size && r.bottomSlop + r.topSlop == size
      && r.bottomSlop % page == 0 && r.topSlop % page == 0
  {
    var q, x := region / size, region % size;
    assert (1 + magazines) * size == size + magazines * size;
    if x != 0 {
      assert MaskOff(region, size) + size == (q + 1) * size;
      Multiple(q + 1, size);
      PageMultiple(region, size, page);
    }
  }

  lemma PageMultiple(region: nat, size: nat, page: nat)
    requires size >= 1 && page >= 1 && size % page == 0 && region % page == 0
    ensures (region % size) % page == 0 && (size - region % size) % page == 0
  {
    var q, x, n, k := region / size, region % size, region / page, size / page;
    assert region == n * page && size == k * page;
    assert x == n * page - q * (k * page) == (n - q * k) * page;
    assert size - x == (k - (n - q * k)) * page;
    if n < q * k { Product(n - q * k, -1, page); }
    Multiple(n - q * k, page);
    if k - (n - q * k) < 0 { Product(k - (n - q * k), -1, page); }
    Multiple(k - (n - q * k), page);
  }

  // ---------------------------------------------------------------- the places of AllocatorMagazine

  /** The sizes the search works with, for these addresses. */
  function LayoutOf(g: Geometry): M.Layout
    requires g.perBitmap >= 1
  {
    M.Layout(g.perBitmap, g.perSupermap, g.perPage, g.supermaps, g.fpConts / g.perBitmap, g.fpConts % g.perBitmap)
  }

  function Numbered(g: Geometry, p: Place): M.Place {
    match p
    case FirstPage(k, i) => M.FirstPage(k, i)
    case Main(s, b, i) => M.Main(s * g.perSupermap + b, i)
  }

  function Unnumbered(g: Geometry, q: M.Place): Place
    requires g.perSupermap >= 1
  {
    match q
    case FirstPage(k, i) => FirstPage(k, i)
    case Main(b, i) => Main(b / g.perSupermap, b % g.perSupermap, i)
  }

  /** A continuation of the first page, by whole bitmaps and a remainder. */
  lemma FirstExists(n: nat, w: nat, k: nat, i: nat)
    requires w >= 1 && i < w
    ensures k * w + i < n <==> k < n / w || (k == n / w && i < n % w)
  {
    Joined(n, w);
    if k < n / w {
      Product(k + 1, n / w, w);
    } else if k > n / w {
      Product(n / w + 1, k, w);
    }
  }

  /** Both describe the same continuations. */
  lemma SamePlaces(g: Geometry, p: Place)
    requires g.Valid() && g.Exists(p)
    ensures LayoutOf(g).Exists(Numbered(g, p)) && Unnumbered(g, Numbered(g, p)) == p
  {
    match p
    case FirstPage(k, i) =>
      FirstExists(g.fpConts, g.perBitmap, k, i);
    case Main(s, b, i) =>
      FlatBound(g, s, b);
      Within(s, b, g.perSupermap);
  }

  lemma SamePlacesBack(g: Geometry, q: M.Place)
    requires g.Valid() && LayoutOf(g).Exists(q)
    ensures g.Exists(Unnumbered(g, q)) && Numbered(g, Unnumbered(g, q)) == q
  {
    assert g.perBitmap >= 1 && g.perSupermap >= 1;
    hide g.Valid;
    match q
    case FirstPage(k, i) =>
      Residue(g.fpConts, g.perBitmap);
      FirstExists(g.fpConts, g.perBitmap, k, i);
    case Main(b, i) =>
      Joined(b, g.perSupermap);
      if b / g.perSupermap >= g.supermaps { Product(g.supermaps, b / g.perSupermap, g.perSupermap); }
  }

  /** The place among the continuations of its area. */
  function Rank(g: Geometry, q: M.Place): nat {
    q.bitmap * g.perBitmap + q.index
  }

  lemma AddressByRank(g: Geometry, m: nat, p: Place)
    ensures ContinuationAddress(g, m, p)
            == (m + if p.FirstPage? then g.fpOffset else g.Page()) + Rank(g, Numbered(g, p)) * g.contSize
  {
    hide g.Page;
  }

  /** The search order is that of the addresses: first fit takes the lowest free address of its area. */
  lemma SearchOrderIsAddressOrder(g: Geometry, m: nat, p: Place, q: Place)
    requires g.Valid() && g.Exists(p) && g.Exists(q) && p.Main? == q.Main?
    ensures Numbered(g, p).Before(Numbered(g, q)) <==> ContinuationAddress(g, m, p) < ContinuationAddress(g, m, q)
  {
    var (x, y) := (Numbered(g, p), Numbered(g, q));
    assert g.contSize >= 1 && x.index < g.perBitmap && y.index < g.perBitmap;
    hide g.Valid;
    hide g.Exists;
    hide g.Page;
    hide Numbered;
    hide ContinuationAddress;
    AddressByRank(g, m, p);
    AddressByRank(g, m, q);
    Lexical(x.bitmap, x.index, y.bitmap, y.index, g.perBitmap);
    Scaled(Rank(g, x), Rank(g, y), g.contSize);
  }

  lemma Lexical(a: nat, i: nat, b: nat, j: nat, w: nat)
    requires i < w && j < w
    ensures a * w + i < b * w + j <==> a < b || (a == b && i < j)
  {
    if a < b {
      Product(a + 1, b, w);
    } else if b < a {
      Product(b + 1, a, w);
    }
  }

  lemma Scaled(x: nat, y: nat, w: nat)
    requires w >= 1
    ensures x < y <==> x * w < y * w
  {
    if x < y {
      Below(x, y, w);
    } else {
      Product(y, x, w);
    }
  }
}
