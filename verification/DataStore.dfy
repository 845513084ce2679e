/**
  The dispatch_data objects in memory, with their reference counts: every constructor, the
  traversals, and what happens to buffers when references go away.
*/
module DataStore {
  import opened Common
  import opened DataRope
  import opened DataTraversal

  const SIZE_LIMIT := 0x1_0000_0000_0000_0000  // sizes are 64-bit

  /** How often each leaf occurs in a record array. */
  function Uses(records: seq<Record>): multiset<Ref> {
    if records == [] then multiset{} else multiset{records[0].leaf} + Uses(records[1..])
  }

  /** ... and in all the objects listed. */
  ghost function Inner(objs: Objects, ids: seq<Ref>): multiset<Ref>
    requires forall d :: d in ids ==> d in objs
  {
    if ids == [] then multiset{} else Uses(objs[ids[0]].records) + Inner(objs, ids[1..])
  }

  lemma {:induction false} UsesTake(records: seq<Record>, i: nat)
    requires i < |records|
    ensures Uses(records[..i + 1]) == Uses(records[..i]) + multiset{records[i].leaf}
  {
    if i == 0 {
      assert records[..1][1..] == [] && records[..0] == [];
    } else {
      assert records[..i + 1][1..] == records[1..][..i] && records[..i][1..] == records[1..][..i - 1];
      UsesTake(records[1..], i - 1);
    }
  }

  lemma {:induction false} UsesContains(records: seq<Record>, x: Ref)
    ensures x in Uses(records) <==> exists r :: r in records && r.leaf == x
  {
    if records != [] {
      UsesContains(records[1..], x);
      assert forall r :: r in records <==> r == records[0] || r in records[1..];
    }
  }

  lemma {:induction false} InnerFrame(objs: Objects, objs': Objects, ids: seq<Ref>)
    requires forall d :: d in ids ==> d in objs && d in objs' && objs'[d].records == objs[d].records
    ensures Inner(objs', ids) == Inner(objs, ids)
  {
    if ids != [] {
      InnerFrame(objs, objs', ids[1..]);
    }
  }

  lemma {:induction false} InnerConcat(objs: Objects, a: seq<Ref>, b: seq<Ref>)
    requires forall d :: d in a || d in b ==> d in objs
    ensures Inner(objs, a + b) == Inner(objs, a) + Inner(objs, b)
  {
    if a == [] {
      assert a + b == b;
    } else {
      assert (a + b)[1..] == a[1..] + b;
      InnerConcat(objs, a[1..], b);
    }
  }

  lemma InnerOne(objs: Objects, d: Ref)
    requires d in objs
    ensures Inner(objs, [d]) == Uses(objs[d].records)
  {
  }

  /** A leaf that nothing counts is in no record. */
  lemma {:induction false} InnerContains(objs: Objects, ids: seq<Ref>, x: Ref)
    requires forall d :: d in ids ==> d in objs
    ensures x in Inner(objs, ids) <==> exists d :: d in ids && x in Uses(objs[d].records)
  {
    if ids != [] {
      InnerContains(objs, ids[1..], x);
      assert forall d :: d in ids <==> d == ids[0] || d in ids[1..];
    }
  }

  ghost predicate Extends(small: Objects, big: Objects) {
    forall d :: d in small ==> d in big && big[d] == small[d]
  }

  /** An object stands for the same bytes as long as it and its leaves are there. */
  lemma BytesKept(small: Objects, big: Objects, d: Ref)
    requires ObjectsOk(small) && ObjectsOk(big) && Extends(small, big) && d in small
    ensures Bytes(big, d) == Bytes(small, d)
  {
    if d != EMPTY && !IsLeaf(small[d]) {
      FlatFrame(small, big, small[d].records);
    }
  }

  ghost predicate SameBytes(a: Objects, b: Objects)
    requires ObjectsOk(a) && ObjectsOk(b)
  {
    forall d :: d in a && d in b ==> Bytes(a, d) == Bytes(b, d)
  }

  /** A new object whose records are in order leaves the others as they were. */
  lemma AddedOk(objs: Objects, r: Ref, o: Object)
    requires ObjectsOk(objs) && r !in objs && ObjectOk(objs, o)
    ensures ObjectsOk(objs[r := o]) && Extends(objs, objs[r := o])
    ensures Bytes(objs[r := o], r) == if IsLeaf(o) then o.buf.value else Flat(objs, o.records)
  {
    var objs' := objs[r := o];
    if !IsLeaf(o) {
      FlatFrame(objs, objs', o.records);
    }
    forall d | d in objs' && d != EMPTY ensures ObjectOk(objs', objs'[d]) {
      if !IsLeaf(objs'[d]) {
        FlatFrame(objs, objs', objs'[d].records);
      }
    }
  }

  /** An object that no record points to can go. */
  lemma RemovedOk(objs: Objects, x: Ref)
    requires ObjectsOk(objs) && x in objs && x != EMPTY
    requires forall d, r :: d in objs && r in objs[d].records && d != x ==> r.leaf != x
    ensures ObjectsOk(objs - {x}) && Extends(objs - {x}, objs)
  {
    var objs' := objs - {x};
    assert forall d :: d in objs' ==> d in objs && objs'[d] == objs[d];
    forall d | d in objs' && d != EMPTY ensures ObjectOk(objs', objs'[d]) {
      if !IsLeaf(objs'[d]) {
        assert forall r :: r in objs[d].records ==> r.leaf != x;
        FlatFrame(objs, objs', objs'[d].records);
      }
    }
  }

  /** Memory: the objects, their counts, and the history the counts are measured against. */
  datatype Memory = Memory(
    objs: Objects,
    refs: map<Ref, nat>,      // reference counts; the empty object has none
    next: Ref,                // addresses from here on have never been used
    ids: seq<Ref>,            // the live objects, the empty one left out
    clients: multiset<Ref>,   // the references clients hold
    destroyed: seq<Ref>)      // leaves whose buffer has been destroyed, in order

  /** A count is client references, plus record occurrences, plus `extra` in transit. */
  ghost predicate Counted(m: Memory, extra: multiset<Ref>) {
    && (forall d :: d in m.ids ==> d in m.objs)
    && (forall d :: d in m.refs ==>
          m.refs[d] == m.clients[d] + Inner(m.objs, m.ids)[d] + extra[d] && m.refs[d] > 0)
    && (forall d :: d !in m.refs ==> m.clients[d] == 0 && extra[d] == 0)
  }

  /** The live objects are counted ones and the empty one; addresses are never used twice. */
  ghost predicate Tidy(m: Memory) {
    && (forall d :: d in m.ids <==> d in m.refs) && NoDup(m.ids)
    && (forall d :: d in m.objs <==> d == EMPTY || d in m.refs) && EMPTY !in m.refs
    && (forall d :: d in m.objs ==> d < m.next)
    && NoDup(m.destroyed) && (forall d :: d in m.destroyed ==> d < m.next && d !in m.objs)
  }

  ghost predicate Ok(m: Memory, extra: multiset<Ref>) {
    ObjectsOk(m.objs) && Counted(m, extra) && Tidy(m)
  }

  lemma TidyFrame(m: Memory, n: Memory)
    requires Tidy(m) && n.objs == m.objs && n.ids == m.ids && n.next == m.next && n.destroyed == m.destroyed
    requires n.refs.Keys == m.refs.Keys
    ensures Tidy(n)
  {
  }

  lemma AddRefCounted(m: Memory, x: Ref, extra: multiset<Ref>)
    requires Counted(m, extra) && x in m.refs
    ensures Counted(m.(refs := m.refs[x := m.refs[x] + 1]), extra + multiset{x})
  {
  }

  lemma AddRefOk(m: Memory, x: Ref, extra: multiset<Ref>)
    requires Ok(m, extra) && x in m.refs
    ensures Ok(m.(refs := m.refs[x := m.refs[x] + 1]), extra + multiset{x})
  {
    hide Counted;
    hide Tidy;
    hide ObjectsOk;
    var n := m.(refs := m.refs[x := m.refs[x] + 1]);
    AddRefCounted(m, x, extra);
    assert n.refs.Keys == m.refs.Keys;
    TidyFrame(m, n);
  }

  /** A reference in transit becomes a client's. */
  lemma ToClient(m: Memory, x: Ref, extra: multiset<Ref>)
    requires Ok(m, extra + multiset{x})
    ensures Ok(m.(clients := m.clients + multiset{x}), extra)
  {
  }

  lemma FromClient(m: Memory, x: Ref, extra: multiset<Ref>)
    requires Ok(m, extra) && x in m.clients
    ensures Ok(m.(clients := m.clients - multiset{x}), extra + multiset{x})
  {
    TidyFrame(m, m.(clients := m.clients - multiset{x}));
    hide Tidy;
    hide ObjectsOk;
    hide Inner;
  }

  /** Records point to live leaves only. */
  lemma InnerLive(m: Memory, x: Ref)
    requires ObjectsOk(m.objs) && Tidy(m) && x in Inner(m.objs, m.ids)
    ensures x in m.objs && x != EMPTY && IsLeaf(m.objs[x])
  {
    InnerContains(m.objs, m.ids, x);
    var d :| d in m.ids && x in Uses(m.objs[d].records);
    assert d in m.refs;
    UsesContains(m.objs[d].records, x);
    assert ObjectOk(m.objs, m.objs[d]);
  }

  /** A new object takes over the references its records need. */
  function Installed(m: Memory, o: Object): Memory {
    m.(objs := m.objs[m.next := o], refs := m.refs[m.next := 1], next := m.next + 1,
       ids := m.ids + [m.next], clients := m.clients + multiset{m.next})
  }

  lemma InstalledInner(m: Memory, o: Object)
    requires ObjectsOk(m.objs) && Tidy(m)
    ensures forall d :: d in Installed(m, o).ids ==> d in Installed(m, o).objs
    ensures Inner(Installed(m, o).objs, Installed(m, o).ids) == Inner(m.objs, m.ids) + Uses(o.records)
    ensures m.next !in Inner(m.objs, m.ids)
  {
    var n := Installed(m, o);
    var r := m.next;
    InnerFrame(m.objs, n.objs, m.ids);
    InnerConcat(n.objs, m.ids, [r]);
    InnerOne(n.objs, r);
    if r in Inner(m.objs, m.ids) {
      InnerLive(m, r);
    }
  }

  lemma InstalledTidy(m: Memory, o: Object)
    requires Tidy(m)
    ensures Tidy(Installed(m, o))
  {
    assert m.next !in m.ids;
  }

  lemma InstalledCounted(m: Memory, o: Object)
    requires Counted(m, Uses(o.records)) && m.next !in m.refs
    requires var n := Installed(m, o);
      && (forall d :: d in n.ids ==> d in n.objs)
      && Inner(n.objs, n.ids) == Inner(m.objs, m.ids) + Uses(o.records) && m.next !in Inner(m.objs, m.ids)
    ensures Counted(Installed(m, o), multiset{})
  {
    hide Inner;
    hide Uses;
  }

  lemma InstalledOk(m: Memory, o: Object)
    requires Ok(m, Uses(o.records)) && ObjectOk(m.objs, o)
    ensures Ok(Installed(m, o), multiset{}) && m.next !in m.objs && m.next != EMPTY
  {
    assert m.next !in m.objs && m.next !in m.refs && EMPTY in m.objs;
    InstalledInner(m, o);
    InstalledTidy(m, o);
    AddedOk(m.objs, m.next, o);
    InstalledCounted(m, o);
    hide Tidy;
    hide ObjectsOk;
    hide Counted;
  }

  /** A leaf nobody refers to any more is destroyed, with its buffer. */
  function Destroyed(m: Memory, k: nat): Memory
    requires k < |m.ids|
  {
    var x := m.ids[k];
    m.(objs := m.objs - {x}, refs := m.refs - {x}, ids := m.ids[..k] + m.ids[k + 1..],
       destroyed := if x in m.objs && IsLeaf(m.objs[x]) then m.destroyed + [x] else m.destroyed)
  }

  /** The counts but for x, whose count has come to `extra` and nothing else. */
  ghost predicate CountedBut(m: Memory, extra: multiset<Ref>, x: Ref) {
    && (forall d :: d in m.ids ==> d in m.objs)
    && x in m.refs
    && (forall d :: d in m.refs && d != x ==>
          m.refs[d] == m.clients[d] + Inner(m.objs, m.ids)[d] + extra[d] && m.refs[d] > 0)
    && m.clients[x] == 0 && Inner(m.objs, m.ids)[x] == 0 && extra[x] == 0
    && (forall d :: d !in m.refs ==> m.clients[d] == 0 && extra[d] == 0)
  }

  lemma DropInner(m: Memory, k: nat)
    requires Tidy(m) && k < |m.ids| && forall d :: d in m.ids ==> d in m.objs
    ensures var n, x := Destroyed(m, k), m.ids[k];
      && (forall d :: d in n.ids ==> d in n.objs && d != x)
      && Inner(m.objs, m.ids) == Inner(n.objs, n.ids) + Uses(m.objs[x].records)
  {
    var n, x := Destroyed(m, k), m.ids[k];
    forall d | d in n.ids ensures d in m.ids && d in n.objs && d != x {
    }
    InnerFrame(m.objs, n.objs, n.ids);
    InnerWithout(m.objs, m.ids, k);
  }

  lemma InnerWithout(objs: Objects, ids: seq<Ref>, k: nat)
    requires k < |ids| && forall d :: d in ids ==> d in objs
    ensures Inner(objs, ids) == Inner(objs, ids[..k] + ids[k + 1..]) + Uses(objs[ids[k]].records)
  {
    var a, b := ids[..k], ids[k + 1..];
    assert ids == a + [ids[k]] + b;
    InnerConcat(objs, a + [ids[k]], b);
    InnerConcat(objs, a, [ids[k]]);
    InnerOne(objs, ids[k]);
    InnerConcat(objs, a, b);
  }

  /** A list without its k-th element. */
  lemma Without<T>(q: seq<T>, k: nat)
    requires NoDup(q) && k < |q|
    ensures NoDup(q[..k] + q[k + 1..])
    ensures forall d :: d in q[..k] + q[k + 1..] <==> d in q && d != q[k]
  {
    var (a, b) := (q[..k], q[k + 1..]);
    assert q == a + [q[k]] + b;
    NoDupConcat(a + [q[k]], b);
    NoDupConcat(a, [q[k]]);
    NoDupConcat(a, b);
  }

  lemma DropTidy(m: Memory, k: nat)
    requires Tidy(m) && k < |m.ids|
    ensures Tidy(Destroyed(m, k))
  {
    Without(m.ids, k);
    assert m.ids[k] in m.refs && m.ids[k] in m.objs && m.ids[k] !in m.destroyed;
  }

  /** With nothing counted against it, x is in no record. */
  lemma Unreferenced(m: Memory, x: Ref)
    requires Tidy(m) && (forall d :: d in m.ids ==> d in m.objs) && Inner(m.objs, m.ids)[x] == 0
    requires ObjectsOk(m.objs)
    ensures forall d, r :: d in m.objs && r in m.objs[d].records ==> r.leaf != x
  {
    forall d, r | d in m.objs && r in m.objs[d].records ensures r.leaf != x {
      UsesContains(m.objs[d].records, x);
      InnerContains(m.objs, m.ids, x);
      assert d != EMPTY && d in m.ids;
    }
  }

  lemma DestroyedCounted(m: Memory, k: nat, extra: multiset<Ref>)
    requires k < |m.ids| && CountedBut(m, extra, m.ids[k])
    requires forall d :: d !in m.refs ==> Inner(m.objs, m.ids)[d] == 0
    requires var n, x := Destroyed(m, k), m.ids[k];
      && x in m.objs && (forall d :: d in n.ids ==> d in n.objs && d != x)
      && Inner(m.objs, m.ids) == Inner(n.objs, n.ids) + Uses(m.objs[x].records)
    ensures Counted(Destroyed(m, k), extra + Uses(m.objs[m.ids[k]].records))
  {
    hide Inner;
    hide Uses;
    var n, x := Destroyed(m, k), m.ids[k];
    CountsMove(m.refs, x, m.clients, Inner(m.objs, m.ids), Inner(n.objs, n.ids), Uses(m.objs[x].records), extra);
  }

  lemma CountsMove(refs: map<Ref, nat>, x: Ref, clients: multiset<Ref>, before: multiset<Ref>, after: multiset<Ref>,
                   used: multiset<Ref>, extra: multiset<Ref>)
    requires before == after + used && before[x] == 0 && clients[x] == 0 && extra[x] == 0
    requires forall d :: d in refs && d != x ==> refs[d] == clients[d] + before[d] + extra[d]
    requires forall d :: d !in refs ==> clients[d] == 0 && before[d] == 0 && extra[d] == 0
    ensures forall d :: d in refs - {x} ==> (refs - {x})[d] == clients[d] + after[d] + (extra + used)[d]
    ensures forall d :: d !in refs - {x} ==> (extra + used)[d] == 0
  {
    forall d ensures before[d] == after[d] + used[d] && (extra + used)[d] == extra[d] + used[d] {
    }
  }

  /** Destroying an object hands the references its records held to `extra`. */
  lemma DestroyedOk(m: Memory, k: nat, extra: multiset<Ref>)
    requires ObjectsOk(m.objs) && Tidy(m) && k < |m.ids| && CountedBut(m, extra, m.ids[k])
    ensures m.ids[k] in m.objs && m.ids[k] != EMPTY
    ensures Ok(Destroyed(m, k), extra + Uses(m.objs[m.ids[k]].records))
    ensures Extends(Destroyed(m, k).objs, m.objs)
  {
    var x := m.ids[k];
    assert x in m.refs;
    Unreferenced(m, x);
    RemovedOk(m.objs, x);
    DropInner(m, k);
    DropTidy(m, k);
    forall d | d !in m.refs ensures Inner(m.objs, m.ids)[d] == 0 {
      if d in Inner(m.objs, m.ids) {
        InnerLive(m, d);
      }
    }
    DestroyedCounted(m, k, extra);
    hide Tidy;
    hide Counted;
    hide CountedBut;
    hide ObjectsOk;
  }

  lemma DropRefOk(m: Memory, x: Ref, extra: multiset<Ref>)
    requires Ok(m, extra + multiset{x})
    ensures x in m.refs && x in m.objs && x != EMPTY && x in m.ids && m.refs[x] >= 1
    ensures m.refs[x] > 1 ==> Ok(m.(refs := m.refs[x := m.refs[x] - 1]), extra)
    ensures m.refs[x] == 1 ==> CountedBut(m, extra, x)
  {
    assert (extra + multiset{x})[x] > 0;
    if m.refs[x] > 1 {
      TidyFrame(m, m.(refs := m.refs[x := m.refs[x] - 1]));
      DropCounted(m, x, extra);
    } else {
      LastCounted(m, x, extra);
    }
    hide ObjectsOk;
    hide Counted;
    hide CountedBut;
  }

  lemma DropCounted(m: Memory, x: Ref, extra: multiset<Ref>)
    requires Counted(m, extra + multiset{x}) && x in m.refs && m.refs[x] > 1
    ensures Counted(m.(refs := m.refs[x := m.refs[x] - 1]), extra)
  {
  }

  lemma LastCounted(m: Memory, x: Ref, extra: multiset<Ref>)
    requires Counted(m, extra + multiset{x}) && x in m.refs && m.refs[x] <= 1
    ensures m.refs[x] == 1 && CountedBut(m, extra, x)
  {
  }

  lemma HasCount(m: Memory, extra: multiset<Ref>, x: Ref)
    requires Ok(m, extra) && x in m.objs && x != EMPTY
    ensures x in m.refs
  {
  }

  lemma NotEmpty(m: Memory, extra: multiset<Ref>, r: Record)
    requires Ok(m, extra) && RecordOk(m.objs, r)
    ensures r.leaf in m.objs && r.leaf != EMPTY
  {
  }

  lemma InTransit(m: Memory, extra: multiset<Ref>, x: Ref)
    requires Ok(m, extra + multiset{x})
    ensures x in m.objs
  {
  }

  lemma RecordLeaves(m: Memory, x: Ref)
    requires ObjectsOk(m.objs) && x in m.objs
    ensures forall r :: r in m.objs[x].records ==> r.leaf in m.objs && IsLeaf(m.objs[r.leaf])
  {
  }

  lemma EmptySize(objs: Objects)
    requires ObjectsOk(objs)
    ensures EMPTY in objs && objs[EMPTY] == EmptyObject && Bytes(objs, EMPTY) == []
  {
  }

  lemma PartOfLeaf(objs: Objects, d: Ref, start: nat, length: nat)
    requires ObjectsOk(objs) && d in objs && IsLeaf(objs[d]) && 0 < length && start + length <= objs[d].size
    ensures var records := [Record(start, length, d)];
      && RecordsOk(objs, records) && Total(records) == length
      && Flat(objs, records) == Slice(Bytes(objs, d), start, length)
  {
  }

  lemma RecordLengths(objs: Objects, d: Ref)
    requires ObjectsOk(objs) && d in objs
    ensures forall r :: r in objs[d].records ==> r.length > 0
  {
    forall r | r in objs[d].records ensures r.length > 0 {
      assert RecordOk(objs, r);
    }
  }

  lemma CompositeTotal(objs: Objects, d: Ref)
    requires ObjectsOk(objs) && d in objs && !IsLeaf(objs[d])
    ensures Total(objs[d].records) == objs[d].size
  {
  }

  /** Record i of a composite, as a part of the bytes and as a part of its leaf. */
  lemma RecordRegion(objs: Objects, d: Ref, i: nat)
    requires ObjectsOk(objs) && d in objs && d != EMPTY && i < |objs[d].records|
    ensures var (rec, start) := (objs[d].records[i], Total(objs[d].records[..i]));
      && rec.leaf in objs && rec.leaf != EMPTY && IsLeaf(objs[rec.leaf]) && rec.from + rec.length <= objs[rec.leaf].size
      && |Bytes(objs, rec.leaf)| == objs[rec.leaf].size && start + rec.length <= |Bytes(objs, d)|
      && Bytes(objs, rec.leaf)[rec.from..rec.from + rec.length] == Bytes(objs, d)[start..start + rec.length]
  {
    var r := objs[d].records[i];
    assert RecordOk(objs, r);
    SliceInRecord(objs, objs[d].records, i, 0, r.length);
  }

  /** Record i of a composite that is not flattened is one of its regions. */
  lemma RecordChunk(objs: Objects, d: Ref, i: nat)
    requires ObjectsOk(objs) && d in objs && d != EMPTY && 1 < |objs[d].records| && objs[d].buf.None?
    requires i < |objs[d].records|
    ensures var rec := objs[d].records[i];
      && rec.leaf in objs && rec.from + rec.length <= |Bytes(objs, rec.leaf)|
      && IsChunk(Chunks(objs, d), Total(objs[d].records[..i]), Bytes(objs, rec.leaf)[rec.from..rec.from + rec.length])
  {
    PieceIsChunk(objs, objs[d].records, i);
  }

  /** The objects with d's flat buffer in place. */
  ghost function Cached(objs: Objects, d: Ref): Objects
    requires ObjectsOk(objs) && d in objs && d != EMPTY && !IsLeaf(objs[d])
  {
    objs[d := objs[d].(buf := Some(Bytes(objs, d)))]
  }

  lemma CachedOk(objs: Objects, d: Ref)
    requires ObjectsOk(objs) && d in objs && d != EMPTY && |objs[d].records| > 1
    ensures ObjectsOk(Cached(objs, d)) && SameBytes(objs, Cached(objs, d))
  {
    var objs' := Cached(objs, d);
    forall x | x in objs && x != EMPTY ensures ObjectOk(objs', objs'[x]) {
      if !IsLeaf(objs[x]) {
        forall r | r in objs[x].records ensures r.leaf in objs' && objs'[r.leaf] == objs[r.leaf] {
          assert RecordOk(objs, r);
        }
        FlatFrame(objs, objs', objs[x].records);
      }
    }
    forall x | x in objs ensures Bytes(objs', x) == Bytes(objs, x) {
      if x != EMPTY && !IsLeaf(objs[x]) {
        forall r | r in objs[x].records ensures r.leaf in objs' && objs'[r.leaf] == objs[r.leaf] {
          assert RecordOk(objs, r);
        }
        FlatFrame(objs, objs', objs[x].records);
      }
    }
  }

  /** What _dispatch_data_get_flattened_bytes leaves: nothing new where there is one buffer already. */
  ghost function Flattened(objs: Objects, d: Ref): Objects
    requires ObjectsOk(objs) && d in objs
  {
    if d == EMPTY || |objs[d].records| <= 1 then objs else Cached(objs, d)
  }

  lemma FlattenedAlready(objs: Objects, d: Ref)
    requires ObjectsOk(objs) && d in objs && d != EMPTY && (|objs[d].records| <= 1 || objs[d].buf.Some?)
    ensures Flattened(objs, d) == objs
  {
    if |objs[d].records| > 1 {
      assert objs[d].(buf := Some(Bytes(objs, d))) == objs[d];
    }
  }

  /** Caching changes no object's bytes, and caching twice nothing at all. */
  lemma FlattenedBytes(objs: Objects, d: Ref)
    requires ObjectsOk(objs) && d in objs
    ensures ObjectsOk(Flattened(objs, d)) && SameBytes(objs, Flattened(objs, d))
    ensures Flattened(Flattened(objs, d), d) == Flattened(objs, d)
  {
    if d != EMPTY && |objs[d].records| > 1 {
      CachedOk(objs, d);
      FlattenedAlready(Flattened(objs, d), d);
    }
  }

  lemma CachedMemory(m: Memory, d: Ref)
    requires Ok(m, multiset{}) && d in m.objs && d != EMPTY && |m.objs[d].records| > 1
    ensures Ok(m.(objs := Cached(m.objs, d)), multiset{})
  {
    CachedOk(m.objs, d);
    hide ObjectsOk;
    CachedTidy(m, Cached(m.objs, d));
    InnerFrame(m.objs, Cached(m.objs, d), m.ids);
    hide Inner;
    hide Tidy;
    hide Bytes;
  }

  lemma CachedTidy(m: Memory, objs: Objects)
    requires Tidy(m) && forall d :: d in objs <==> d in m.objs
    ensures Tidy(m.(objs := objs))
  {
  }

  lemma SamePart<T>(x: seq<T>, y: seq<T>, a: nat, b: nat, length: nat, o: nat, n: nat)
    requires a + length <= |x| && b + length <= |y| && o + n <= length
    requires x[a..a + length] == y[b..b + length]
    ensures x[a + o..a + o + n] == y[b + o..b + o + n]
  {
    var xs, ys := x[a..a + length], y[b..b + length];
    var p, q := x[a + o..a + o + n], y[b + o..b + o + n];
    forall k | 0 <= k < n ensures p[k] == q[k] {
      assert p[k] == xs[o + k] && q[k] == ys[o + k];
    }
  }

  lemma Parts(m: Memory, extra: multiset<Ref>)
    requires Ok(m, extra)
    ensures ObjectsOk(m.objs) && Tidy(m) && m.next !in m.objs
  {
  }

  /** No leak: a live object is a client's, or a leaf in a composite that is a client's. */
  lemma NoLeak(m: Memory, d: Ref)
    requires Ok(m, multiset{}) && d in m.objs && d != EMPTY
    ensures d in m.clients ||
      exists c :: c in m.clients && c in m.objs && exists r :: r in m.objs[c].records && r.leaf == d
  {
    assert d in m.refs;
    if d !in m.clients {
      assert d in Inner(m.objs, m.ids);
      InnerContains(m.objs, m.ids, d);
      var c :| c in m.ids && d in Uses(m.objs[c].records);
      UsesContains(m.objs[c].records, d);
      assert c in m.refs && !IsLeaf(m.objs[c]);
      if c in Inner(m.objs, m.ids) {
        InnerLive(m, c);
        assert false;
      }
      assert c in m.clients;
    }
  }

  /** A destroyed buffer is no longer reached, by a client or by any object. */
  lemma DestroyedUnreached(m: Memory, d: Ref)
    requires Ok(m, multiset{}) && d in m.destroyed
    ensures d !in m.clients && d !in m.objs && NoDup(m.destroyed)
    ensures forall c, r :: c in m.objs && r in m.objs[c].records ==> r.leaf != d
  {
    assert d !in m.refs;
    forall c, r | c in m.objs && r in m.objs[c].records ensures r.leaf != d {
      assert ObjectOk(m.objs, m.objs[c]);
      assert RecordOk(m.objs, r);
    }
  }

  /** The size field of a concatenation is a 64-bit sum: right exactly when it does not wrap. */
  lemma ConcatSizeExact(objs: Objects, a: Ref, b: Ref)
    requires ObjectsOk(objs) && a in objs && b in objs && a != EMPTY && b != EMPTY
    requires objs[a].size < SIZE_LIMIT && objs[b].size < SIZE_LIMIT
    ensures (objs[a].size + objs[b].size) % SIZE_LIMIT == Total(Ranges(objs, a) + Ranges(objs, b)) <==>
            objs[a].size + objs[b].size < SIZE_LIMIT
  {
    RangesFlat(objs, a);
    RangesFlat(objs, b);
    TotalConcat(Ranges(objs, a), Ranges(objs, b));
  }

  class Store {
    var objs: Objects
    var refs: map<Ref, nat>
    var next: Ref
    ghost var ids: seq<Ref>
    ghost var clients: multiset<Ref>
    ghost var destroyed: seq<Ref>

    ghost function Now(): Memory
      reads this
    {
      Memory(objs, refs, next, ids, clients, destroyed)
    }

    ghost predicate Valid()
      reads this
    {
      ObjectsOk(objs) && Ok(Now(), multiset{})
    }

    constructor ()
      ensures Valid() && objs == map[EMPTY := EmptyObject] && clients == multiset{} && destroyed == []
    {
      objs, refs, next := map[EMPTY := EmptyObject], map[], 1;
      ids, clients, destroyed := [], multiset{}, [];
    }

    /** A reference to x, on its way to some owner. */
    method AddRef(x: Ref, ghost extra: multiset<Ref>)
      requires Ok(Now(), extra) && x in objs && x != EMPTY
      modifies `refs
      ensures Ok(Now(), extra + multiset{x})
    {
      hide Ok;
      HasCount(Now(), extra, x);
      AddRefOk(Now(), x, extra);
      refs := refs[x := refs[x] + 1];
    }

    /** dispatch_retain by a client; the empty object is not counted. */
    method Retain(d: Ref)
      requires Valid() && d in objs
      modifies `refs, `clients
      ensures Valid() && clients == if d == EMPTY then old(clients) else old(clients) + multiset{d}
    {
      hide Ok;
      if d != EMPTY {
        AddRef(d, multiset{});
        ToClient(Now(), d, multiset{});
        clients := clients + multiset{d};
      }
    }

    /** A reference to r for the caller; the objects there were are still there, as they were. */
    twostate predicate Made(r: Ref)
      reads this
    {
      && Extends(old(objs), objs) && r in objs && destroyed == old(destroyed)
      && clients == if r == EMPTY then old(clients) else old(clients) + multiset{r}
    }

    /** No bytes were copied: r is an object that was there, or is made of records. */
    twostate predicate Shares(r: Ref)
      reads this
    {
      r in objs && (r in old(objs) || objs[r].records != [])
    }

    /** A new object, with one reference, the caller's; those of its records are in transit. */
    method Install(o: Object) returns (r: Ref)
      requires Ok(Now(), Uses(o.records)) && ObjectOk(objs, o)
      modifies this
      ensures Valid() && r == old(next) && r !in old(objs) && r != EMPTY && objs == old(objs)[r := o]
      ensures clients == old(clients) + multiset{r} && destroyed == old(destroyed)
    {
      hide Ok;
      hide ObjectOk;
      hide ObjectsOk;
      InstalledOk(Now(), o);
      Parts(Now(), Uses(o.records));
      AddedOk(objs, next, o);
      r := next;
      objs, refs, next := objs[r := o], refs[r := 1], next + 1;
      ids, clients := ids + [r], clients + multiset{r};
    }

    /** The loop at the end of every constructor: a reference to each record's leaf. */
    method RetainLeaves(records: seq<Record>)
      requires Ok(Now(), multiset{}) && RecordsOk(objs, records)
      modifies `refs
      ensures Ok(Now(), Uses(records))
    {
      hide Ok;
      var i := 0;
      while i < |records|
        invariant 0 <= i <= |records| && Ok(Now(), Uses(records[..i]))
      {
        assert RecordOk(objs, records[i]);
        NotEmpty(Now(), Uses(records[..i]), records[i]);
        AddRef(records[i].leaf, Uses(records[..i]));
        UsesTake(records, i);
        i := i + 1;
      }
      assert records[..i] == records;
    }

    /** A new composite: _dispatch_data_alloc, its records, and their references. */
    method Compose(size: nat, records: seq<Record>) returns (r: Ref)
      requires Valid() && RecordsOk(objs, records) && records != [] && Total(records) == size
      modifies this
      ensures Valid() && r !in old(objs) && r != EMPTY && objs == old(objs)[r := Object(size, records, None)]
      ensures Made(r) && Bytes(objs, r) == old(Flat(objs, records))
    {
      hide Ok;
      hide ObjectsOk;
      hide Bytes;
      hide Flat;
      Parts(Now(), multiset{});
      AddedOk(objs, next, Object(size, records, None));
      hide Total;
      RetainLeaves(records);
      r := Install(Object(size, records, None));
    }

    /** What releases do: objects go, those that stay are as they were, and leaves' buffers are destroyed. */
    twostate predicate Shrinks()
      reads this
    {
      && Extends(objs, old(objs)) && next == old(next) && old(destroyed) <= destroyed
      && forall d :: d in destroyed <==> d in old(destroyed) || (d in old(objs) && d !in objs && IsLeaf(old(objs)[d]))
    }

    /** A reference is given up; the last one takes the object, and its references, with it. */
    method Drop(x: Ref, ghost extra: multiset<Ref>)
      requires Ok(Now(), extra + multiset{x})
      requires x in objs
      modifies this
      ensures Ok(Now(), extra) && Shrinks() && clients == old(clients)
      decreases if x in objs && IsLeaf(objs[x]) then 0 else 2
    {
      hide Ok;
      hide ObjectsOk;
      hide CountedBut;
      DropRefOk(Now(), x, extra);
      if refs[x] > 1 {
        refs := refs[x := refs[x] - 1];
        return;
      }
      Parts(Now(), extra + multiset{x});
      RecordLeaves(Now(), x);
      var o := Free(x, extra);
      if IsLeaf(o) {
        assert Uses(o.records) == multiset{} && extra + Uses(o.records) == extra;
      } else {
        DropAll(o.records, extra);
      }
    }

    /** The object's memory, and a leaf's buffer, are given back. */
    method Free(x: Ref, ghost extra: multiset<Ref>) returns (o: Object)
      requires ObjectsOk(objs) && Tidy(Now()) && CountedBut(Now(), extra, x) && x in objs && x in ids
      modifies this
      ensures o == old(objs)[x] && objs == old(objs) - {x} && Ok(Now(), extra + Uses(o.records))
      ensures clients == old(clients) && Shrinks()
    {
      hide Ok;
      hide ObjectsOk;
      hide CountedBut;
      hide Tidy;
      o := objs[x];
      ghost var k :| 0 <= k < |ids| && ids[k] == x;
      DestroyedOk(Now(), k, extra);
      objs, refs := objs - {x}, refs - {x};
      ids := ids[..k] + ids[k + 1..];
      if IsLeaf(o) {
        destroyed := destroyed + [x];
      }
    }

    /** _dispatch_data_dispose of a composite: a release for each of its records. */
    method DropAll(records: seq<Record>, ghost extra: multiset<Ref>)
      requires Ok(Now(), extra + Uses(records))
      requires forall r :: r in records && r.leaf in objs ==> IsLeaf(objs[r.leaf])
      modifies this
      ensures Ok(Now(), extra) && Shrinks() && clients == old(clients)
      decreases 1
    {
      hide Ok;
      var i := 0;
      assert records[0..] == records;
      while i < |records|
        invariant 0 <= i <= |records| && Ok(Now(), extra + Uses(records[i..]))
        invariant Shrinks() && clients == old(clients)
      {
        var x := records[i].leaf;
        assert records[i..][1..] == records[i + 1..];
        assert extra + Uses(records[i..]) == extra + Uses(records[i + 1..]) + multiset{x};
        InTransit(Now(), extra + Uses(records[i + 1..]), x);
        label Before:
        Drop(x, extra + Uses(records[i + 1..]));
        i := i + 1;
      }
      assert extra + Uses(records[i..]) == extra;
    }

    /** dispatch_release by a client */
    method Release(d: Ref)
      requires Valid() && (d == EMPTY || d in clients)
      modifies this
      ensures Valid() && Shrinks()
      ensures clients == if d == EMPTY then old(clients) else old(clients) - multiset{d}
    {
      hide Ok;
      if d != EMPTY {
        FromClient(Now(), d, multiset{});
        clients := clients - multiset{d};
        assert multiset{} + multiset{d} == multiset{d};
        InTransit(Now(), multiset{}, d);
        Drop(d, multiset{});
        Parts(Now(), multiset{});
      }
    }

    // ---------------------------------------------------------------- constructors

    /** dispatch_data_create and dispatch_data_create_alloc: a leaf, or for no bytes the empty object. */
    method Create(bytes: seq<Byte>) returns (r: Ref)
      requires Valid()
      modifies this
      ensures Valid() && Made(r) && Bytes(objs, r) == bytes && (r == EMPTY <==> bytes == [])
      ensures r != EMPTY ==> r !in old(objs) && IsLeaf(objs[r])
    {
      if bytes == [] {
        return EMPTY;
      }
      hide Counted;
      hide Tidy;
      var o := Object(|bytes|, [], Some(bytes));
      AddedOk(objs, next, o);
      r := Install(o);
    }

    /** dispatch_data_create_concat */
    method Concat(a: Ref, b: Ref) returns (r: Ref)
      requires Valid() && a in objs && b in objs
      requires objs[a].size + objs[b].size < SIZE_LIMIT
      modifies this
      ensures Valid() && Made(r) && Shares(r) && Bytes(objs, r) == old(Bytes(objs, a)) + old(Bytes(objs, b))
      ensures old(Bytes(objs, a)) == [] ==> r == b
      ensures old(Bytes(objs, a)) != [] && old(Bytes(objs, b)) == [] ==> r == a
      ensures old(Bytes(objs, a)) != [] && old(Bytes(objs, b)) != [] ==>
                r !in old(objs) && objs[r].records == old(Ranges(objs, a) + Ranges(objs, b)) && objs[r].buf.None?
    {
      hide Ok;
      hide ObjectsOk;
      hide Bytes;
      SizeIsLength(objs, a);
      SizeIsLength(objs, b);
      if objs[a].size == 0 {
        Retain(b);
        return b;
      }
      if objs[b].size == 0 {
        Retain(a);
        return a;
      }
      EmptySize(objs);
      RangesFlat(objs, a);
      RangesFlat(objs, b);
      hide Flat;
      hide Ranges;
      FlatConcat(objs, Ranges(objs, a), Ranges(objs, b));
      RecordsFit(objs, Ranges(objs, a) + Ranges(objs, b));
      assert |Ranges(objs, a) + Ranges(objs, b)| < SIZE_LIMIT;  // no overflow of the record count
      r := Compose(objs[a].size + objs[b].size, Ranges(objs, a) + Ranges(objs, b));
    }

    /** dispatch_data_create_subrange */
    method Subrange(d: Ref, start: nat, wanted: nat) returns (r: Ref)
      requires Valid() && d in objs
      modifies this
      ensures Valid() && Made(r) && Shares(r) && Bytes(objs, r) == Slice(old(Bytes(objs, d)), start, wanted)
      ensures Slice(old(Bytes(objs, d)), start, wanted) == [] ==> r == EMPTY
      ensures old(Bytes(objs, d)) != [] && start == 0 && wanted == |old(Bytes(objs, d))| ==> r == d
      ensures IsLeaf(old(objs[d])) && start < |old(Bytes(objs, d))| && 0 < wanted && wanted != |old(Bytes(objs, d))| ==>
                r !in old(objs) && objs[r].records == [Record(start, |Bytes(objs, r)|, d)]
      decreases if d in objs && IsLeaf(objs[d]) then 0 else 1
    {
      hide Ok;
      hide ObjectsOk;
      hide Bytes;
      var length := wanted;
      SizeIsLength(objs, d);
      EmptySize(objs);
      if start >= objs[d].size || length == 0 {
        return EMPTY;
      } else if length > objs[d].size - start {
        length := objs[d].size - start;
      } else if length == objs[d].size {
        Retain(d);
        return d;
      }
      if IsLeaf(objs[d]) {
        PartOfLeaf(objs, d, start, length);
        r := Compose(length, [Record(start, length, d)]);
      } else {
        r := SubrangeOfComposite(d, start, length);
      }
    }

    /** ... on the records of a composite */
    method SubrangeOfComposite(d: Ref, start: nat, length: nat) returns (r: Ref)
      requires Valid() && d in objs && d != EMPTY && !IsLeaf(objs[d]) && 0 < length && start + length <= objs[d].size
      modifies this
      ensures Valid() && Made(r) && Shares(r) && Bytes(objs, r) == Slice(old(Bytes(objs, d)), start, length)
      decreases 1, 0
    {
      hide Ok;
      hide Slice;
      var records := objs[d].records;
      assert Total(records) == objs[d].size;
      hide ObjectsOk;
      hide Bytes;
      hide Total;
      var i, offset := FindRecord(records, start);
      if i >= |records| {
        assert false;
      }
      if offset + length <= records[i].length {
        InRecordIsSlice(objs, d, start, length, i, offset);
        r := Subrange(records[i].leaf, records[i].from + offset, length);
        return;
      }
      r := SubrangeOfRecords(d, start, length, i, offset);
    }

    /** ... when it takes more than one record */
    method SubrangeOfRecords(d: Ref, start: nat, length: nat, i: nat, offset: nat) returns (r: Ref)
      requires Valid() && d in objs && d != EMPTY && !IsLeaf(objs[d]) && 0 < length && start + length <= objs[d].size
      requires FoundAt(objs[d].records, i, offset, start) && offset + length > objs[d].records[i].length
      modifies this
      ensures Valid() && Made(r) && Shares(r) && Bytes(objs, r) == Slice(old(Bytes(objs, d)), start, length)
    {
      hide Ok;
      var records := objs[d].records;
      assert Total(records) == objs[d].size;
      hide ObjectsOk;
      hide Bytes;
      var toTheEnd := start + length == objs[d].size;
      RecordLengths(objs, d);
      var count, lastLength := Extent(records, i, offset, start, length, toTheEnd);
      var copy := CopyRecords(records, i, count, offset, lastLength, toTheEnd);
      hide Total;
      hide Patched;
      PatchedIsSlice(objs, d, start, length, i, count, offset, lastLength);
      r := Compose(length, copy);
    }

    // ---------------------------------------------------------------- regions, maps, the cached buffer

    /**
      dispatch_data_copy_region; the empty object at the end when location is past it, else the region
      dispatch_data_apply passes for that location, whole.  What comes back is a leaf or a part of
      one, except exactly when d is a flattened composite: then it is d.
    */
    method CopyRegion(d: Ref, location: nat) returns (r: Ref, offset: nat)
      requires Valid() && d in objs
      modifies this
      ensures Valid() && Made(r) && Shares(r)
      ensures location >= |old(Bytes(objs, d))| ==> r == EMPTY && offset == |old(Bytes(objs, d))|
      ensures location < |old(Bytes(objs, d))| ==> offset <= location < offset + |Bytes(objs, r)|
      ensures location < |old(Bytes(objs, d))| ==> IsChunk(old(Chunks(objs, d)), offset, Bytes(objs, r))
      ensures offset + |Bytes(objs, r)| <= |old(Bytes(objs, d))|
      ensures Bytes(objs, r) == old(Bytes(objs, d))[offset..offset + |Bytes(objs, r)|]
      ensures |objs[r].records| > 1 <==>
        location < |old(Bytes(objs, d))| && |objs[d].records| > 1 && objs[d].buf.Some?
      ensures |objs[r].records| > 1 ==> r == d
      ensures location < |old(Bytes(objs, d))| && (|old(objs)[d].records| <= 1 || old(objs)[d].buf.Some?) ==>
                r == d && objs == old(objs)
    {
      hide Ok;
      hide ObjectsOk;
      hide Bytes;
      SizeIsLength(objs, d);
      EmptySize(objs);
      if location >= objs[d].size {
        return EMPTY, objs[d].size;
      }
      r, offset := RegionOf(d, 0, objs[d].size, location);
      assert old(Bytes(objs, d))[0..|old(Bytes(objs, d))|] == old(Bytes(objs, d));
      WholeIsChunk(old(Bytes(objs, d)));
    }

    /** _dispatch_data_copy_region: the region of d's bytes from..from+size that location, counted from there, is in */
    method RegionOf(d: Ref, from: nat, size: nat, location: nat) returns (r: Ref, offset: nat)
      requires Valid() && d in objs && d != EMPTY && from + size <= objs[d].size && location < size
      requires !IsLeaf(objs[d]) ==> from == 0 && size == objs[d].size
      modifies this
      ensures Valid() && Made(r) && Shares(r) && offset <= location < offset + |Bytes(objs, r)|
      ensures if IsLeaf(old(objs[d])) then offset == 0 && |Bytes(objs, r)| == size
              else IsChunk(old(Chunks(objs, d)), offset, Bytes(objs, r))
      ensures from + offset + |Bytes(objs, r)| <= |old(Bytes(objs, d))| && offset + |Bytes(objs, r)| <= size
      ensures Bytes(objs, r) == old(Bytes(objs, d))[from + offset..from + offset + |Bytes(objs, r)|]
      ensures |objs[r].records| > 1 <==> |objs[d].records| > 1 && objs[d].buf.Some?
      ensures |objs[r].records| > 1 ==> r == d
      ensures from == 0 && size == old(objs)[d].size && (|old(objs)[d].records| <= 1 || old(objs)[d].buf.Some?) ==>
                r == d && objs == old(objs)
      decreases if d in objs && IsLeaf(objs[d]) then 0 else 1, 1
    {
      hide Ok;
      hide ObjectsOk;
      hide Bytes;
      DirectBytes(objs, d);
      SizeIsLength(objs, d);
      var m := MapDirect(objs, d, from);
      if m.mapped {
        offset := 0;
        if from == 0 && size == objs[d].size {
          WholeIsChunk(Bytes(objs, d));
          Retain(d);
          r := d;
        } else {
          PartOfLeaf(objs, d, from, size);
          r := Compose(size, [Record(from, size, d)]);
        }
        return;
      }
      r, offset := RegionOfRecord(d, location);
    }

    /** ... in a composite that is not flattened: the record location is in, whole */
    method RegionOfRecord(d: Ref, location: nat) returns (r: Ref, offset: nat)
      requires Valid() && d in objs && d != EMPTY && |objs[d].records| > 1 && objs[d].buf.None?
      requires location < objs[d].size
      modifies this
      ensures Valid() && Made(r) && Shares(r) && offset <= location < offset + |Bytes(objs, r)|
      ensures IsChunk(old(Chunks(objs, d)), offset, Bytes(objs, r))
      ensures offset + |Bytes(objs, r)| <= |old(Bytes(objs, d))|
      ensures Bytes(objs, r) == old(Bytes(objs, d))[offset..offset + |Bytes(objs, r)|]
      ensures |objs[r].records| <= 1
      decreases 1, 0
    {
      hide Ok;
      hide ObjectsOk;
      hide Bytes;
      hide Chunks;
      hide IsChunk;
      SizeIsLength(objs, d);
      CompositeTotal(objs, d);
      var i, start, before := FindRegion(objs[d].records, 0, location);
      var record := objs[d].records[i];
      RecordRegion(objs, d, i);
      RecordChunk(objs, d, i);
      var inner;
      r, inner := RegionOf(record.leaf, record.from + start, record.length - start, location - before);
      assert IsLeaf(objs[record.leaf]) by {
        assert objs[record.leaf] == old(objs)[record.leaf];
      }
      offset := before + inner;
      SamePart(old(Bytes(objs, record.leaf)), old(Bytes(objs, d)), record.from, old(Total(objs[d].records[..i])),
               record.length, start + inner, |Bytes(objs, r)|);
    }

    /** dispatch_data_create_map: the object itself when it has one buffer, else a flat copy. */
    method CreateMap(d: Ref) returns (r: Ref, buffer: seq<Byte>)
      requires Valid() && d in objs
      modifies this
      ensures Valid() && Made(r) && Bytes(objs, r) == old(Bytes(objs, d)) == buffer
      ensures |objs[r].records| <= 1 || (r == d && objs[d].buf.Some?)
      ensures old(Bytes(objs, d)) == [] ==> r == EMPTY
      ensures old(Bytes(objs, d)) != [] ==>
                if |old(objs)[d].records| <= 1 || old(objs)[d].buf.Some? then r == d && objs == old(objs)
                else r !in old(objs) && IsLeaf(objs[r])
    {
      hide Ok;
      hide ObjectsOk;
      hide Bytes;
      SizeIsLength(objs, d);
      EmptySize(objs);
      if objs[d].size == 0 {
        return EMPTY, [];
      }
      DirectBytes(objs, d);
      var m := MapDirect(objs, d, 0);
      if m.mapped {
        buffer := objs[m.dd].buf.value[m.from..m.from + objs[d].size];
        Retain(d);
        r := d;
        return;
      }
      var flat := Flatten(objs, d);
      buffer := flat[..];
      assert |buffer| > 0;
      r := Create(buffer);
      assert buffer != [] && r != EMPTY;
      assert IsLeaf(objs[r]);
    }

    /** What other threads may do to d between a flattening and its compare-and-swap: flatten it too. */
    method Others(d: Ref)
      requires Valid() && d in objs && d != EMPTY && !IsLeaf(objs[d]) && |objs[d].records| > 1
      modifies `objs
      ensures Valid() && (objs == old(objs) || objs == Cached(old(objs), d))
    {
    }

    /** _dispatch_data_get_flattened_bytes: None for no bytes, else the bytes in one buffer, which d caches. */
    method GetFlattened(d: Ref) returns (bytes: Option<seq<Byte>>)
      requires Valid() && d in objs
      modifies `objs
      ensures Valid() && objs == old(Flattened(objs, d))
      ensures bytes == if d == EMPTY then None else Some(old(Bytes(objs, d)))
    {
      hide Ok;
      hide ObjectsOk;
      hide Bytes;
      ZeroSize(objs, d);
      if objs[d].size == 0 {
        return None;
      }
      DirectBytes(objs, d);
      var m := MapDirect(objs, d, 0);
      if m.mapped {
        FlattenedAlready(objs, d);
        hide Flattened;
        return Some(objs[m.dd].buf.value[m.from..m.from + objs[d].size]);
      }
      var flat := Flatten(objs, d);
      CachedOk(objs, d);
      CachedMemory(Now(), d);
      Others(d);
      if objs[d].buf.None? {
        objs := objs[d := objs[d].(buf := Some(flat[..]))];
      }
      bytes := objs[d].buf;
    }
  }

  lemma FlatBuffer(objs: Objects, d: Ref)
    requires ObjectsOk(objs) && d in objs && d != EMPTY && objs[d].buf.Some?
    ensures objs[d].buf == Some(Bytes(objs, d))
  {
  }

  /**
    A flattened composite comes about, and is its own region: any two buffers, concatenated and
    flattened, at any location in them.
  */
  method RegionOfFlattened(x: seq<Byte>, y: seq<Byte>, location: nat)
    returns (store: Store, d: Ref, r: Ref, offset: nat)
    requires x != [] && y != [] && |x| + |y| < SIZE_LIMIT && location < |x| + |y|
    ensures fresh(store) && store.Valid() && d in store.objs && r == d && offset == 0
    ensures |store.objs[d].records| == 2 && store.objs[d].buf == Some(x + y)
  {
    hide Ok;
    hide ObjectsOk;
    hide Bytes;
    hide Chunks;
    hide IsChunk;
    store := new Store();
    var a := store.Create(x);
    ghost var before := store.objs;
    var b := store.Create(y);
    BytesKept(before, store.objs, a);
    SizeIsLength(store.objs, a);
    SizeIsLength(store.objs, b);
    assert |Ranges(store.objs, a) + Ranges(store.objs, b)| == 2;
    hide Ranges;
    d := store.Concat(a, b);
    SizeIsLength(store.objs, d);
    EmptySize(store.objs);
    var bytes := store.GetFlattened(d);
    assert store.objs[d].buf == Some(x + y) && |store.objs[d].records| == 2;
    SizeIsLength(store.objs, d);
    ghost var flat := store.objs;
    hide Flattened;
    FlatBuffer(flat, d);
    r, offset := store.CopyRegion(d, location);
    BytesKept(flat, store.objs, d);
  }
}
