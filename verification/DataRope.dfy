/**
  dispatch_data objects as values: leaves, trivial subranges, composites and flattened
  composites, the invariants their header comment lists, and the bytes they stand for.
*/
module DataRope {
  import opened Common

  type Byte = b: nat | b < 256
  type Ref = nat  // the address of an object

  /** range_record */
  datatype Record = Record(from: nat, length: nat, leaf: Ref)

  /** dispatch_data_s: no records in a leaf; `buf` is NULL in a composite that is not flattened. */
  datatype Object = Object(size: nat, records: seq<Record>, buf: Option<seq<Byte>>)

  type Objects = map<Ref, Object>

  /** dispatch_data_empty, the only object without bytes */
  const EMPTY: Ref := 0
  const EmptyObject := Object(0, [], None)

  /** _dispatch_data_leaf */
  predicate IsLeaf(o: Object) {
    o.records == []
  }

  ghost predicate LeafOk(o: Object) {
    IsLeaf(o) && o.buf.Some? && |o.buf.value| == o.size && o.size > 0
  }

  /** A record is a part of a leaf, and not an empty one. */
  ghost predicate RecordOk(objs: Objects, r: Record) {
    && r.leaf in objs && LeafOk(objs[r.leaf])
    && 0 < r.length && r.from + r.length <= objs[r.leaf].size
  }

  ghost predicate RecordsOk(objs: Objects, records: seq<Record>) {
    forall r :: r in records ==> RecordOk(objs, r)
  }

  function Total(records: seq<Record>): nat {
    if records == [] then 0 else records[0].length + Total(records[1..])
  }

  ghost function Piece(objs: Objects, r: Record): (b: seq<Byte>)
    requires RecordOk(objs, r)
    ensures |b| == r.length
  {
    objs[r.leaf].buf.value[r.from..r.from + r.length]
  }

  ghost function Flat(objs: Objects, records: seq<Record>): seq<Byte>
    requires RecordsOk(objs, records)
  {
    if records == [] then [] else Piece(objs, records[0]) + Flat(objs, records[1..])
  }

  /** The header invariant of a composite: depth one, nothing skipped, and what may be cached. */
  ghost predicate CompositeOk(objs: Objects, o: Object) {
    && RecordsOk(objs, o.records) && o.records != [] && Total(o.records) == o.size
    && (|o.records| == 1 ==> o.buf.None?)
    && (o.buf.Some? ==> o.buf.value == Flat(objs, o.records))
  }

  ghost predicate ObjectOk(objs: Objects, o: Object) {
    if IsLeaf(o) then LeafOk(o) else CompositeOk(objs, o)
  }

  ghost predicate ObjectsOk(objs: Objects) {
    && EMPTY in objs && objs[EMPTY] == EmptyObject
    && forall d :: d in objs && d != EMPTY ==> ObjectOk(objs, objs[d])
  }

  /** What an object stands for. */
  ghost function Bytes(objs: Objects, d: Ref): seq<Byte>
    requires ObjectsOk(objs) && d in objs
  {
    var o := objs[d];
    if d == EMPTY then []
    else if IsLeaf(o) then o.buf.value
    else Flat(objs, o.records)
  }

  lemma {:induction false} FlatLength(objs: Objects, records: seq<Record>)
    requires RecordsOk(objs, records)
    ensures |Flat(objs, records)| == Total(records)
  {
    if records != [] {
      FlatLength(objs, records[1..]);
    }
  }

  /** dispatch_data_get_size is the number of bytes. */
  lemma SizeIsLength(objs: Objects, d: Ref)
    requires ObjectsOk(objs) && d in objs
    ensures |Bytes(objs, d)| == objs[d].size
  {
    if d != EMPTY && !IsLeaf(objs[d]) {
      FlatLength(objs, objs[d].records);
    }
  }

  lemma {:induction false} FlatConcat(objs: Objects, a: seq<Record>, b: seq<Record>)
    requires RecordsOk(objs, a) && RecordsOk(objs, b)
    ensures RecordsOk(objs, a + b) && Flat(objs, a + b) == Flat(objs, a) + Flat(objs, b)
    ensures Total(a + b) == Total(a) + Total(b)
  {
    if a == [] {
      assert a + b == b;
    } else {
      assert (a + b)[1..] == a[1..] + b;
      FlatConcat(objs, a[1..], b);
    }
  }

  lemma FlatOne(objs: Objects, r: Record)
    requires RecordOk(objs, r)
    ensures RecordsOk(objs, [r]) && Flat(objs, [r]) == Piece(objs, r) && Total([r]) == r.length
  {
  }

  /** Records keep their meaning while the leaves they point to stay. */
  lemma {:induction false} FlatFrame(objs: Objects, objs': Objects, records: seq<Record>)
    requires RecordsOk(objs, records)
    requires forall r :: r in records ==> r.leaf in objs' && objs'[r.leaf] == objs[r.leaf]
    ensures RecordsOk(objs', records) && Flat(objs', records) == Flat(objs, records)
  {
    if records != [] {
      FlatFrame(objs, objs', records[1..]);
    }
  }

  lemma {:induction false} TotalTake(records: seq<Record>, i: nat)
    requires i < |records|
    ensures Total(records[..i + 1]) == Total(records[..i]) + records[i].length
  {
    if i == 0 {
      assert records[..1][1..] == [] && records[..0] == [];
    } else {
      assert records[..i + 1][1..] == records[1..][..i] && records[..i][1..] == records[1..][..i - 1];
      TotalTake(records[1..], i - 1);
    }
  }

  // ---------------------------------------------------------------- slices

  /** A single record trimmed at both ends. */
  function Trim(r: Record, offset: nat, length: nat): Record {
    r.(from := r.from + offset, length := length)
  }

  lemma TrimPiece(objs: Objects, r: Record, offset: nat, length: nat)
    requires RecordOk(objs, r) && 0 < length && offset + length <= r.length
    ensures RecordOk(objs, Trim(r, offset, length))
    ensures Piece(objs, Trim(r, offset, length)) == Piece(objs, r)[offset..offset + length]
  {
    var b := objs[r.leaf].buf.value;
    assert b[r.from..r.from + r.length][offset..offset + length] == b[r.from + offset..r.from + offset + length];
  }

  lemma {:induction false} FlatSplit(objs: Objects, records: seq<Record>, i: nat)
    requires RecordsOk(objs, records) && i < |records|
    ensures RecordsOk(objs, records[..i]) && RecordsOk(objs, records[i + 1..])
    ensures Flat(objs, records) == Flat(objs, records[..i]) + Piece(objs, records[i]) + Flat(objs, records[i + 1..])
    ensures |Flat(objs, records[..i])| == Total(records[..i])
  {
    FlatLength(objs, records[..i]);
    var a, b := records[..i], records[i..];
    assert records == a + b && b[0] == records[i] && b[1..] == records[i + 1..];
    FlatConcat(objs, a, b);
  }

  /** A range inside one record. */
  lemma SliceInRecord(objs: Objects, records: seq<Record>, i: nat, offset: nat, length: nat)
    requires RecordsOk(objs, records) && i < |records|
    requires 0 < length && offset + length <= records[i].length
    ensures RecordOk(objs, Trim(records[i], offset, length))
    ensures Total(records[..i]) + offset + length <= |Flat(objs, records)|
    ensures var start := Total(records[..i]) + offset;
      Piece(objs, Trim(records[i], offset, length)) == Flat(objs, records)[start..start + length]
  {
    FlatSplit(objs, records, i);
    TrimPiece(objs, records[i], offset, length);
  }

  /** The record array dispatch_data_create_subrange builds from records i to i + count - 1. */
  function Patched(records: seq<Record>, i: nat, count: nat, offset: nat, lastLength: nat): (p: seq<Record>)
    requires count >= 2 && i + count <= |records| && offset < records[i].length
    ensures |p| == count
  {
    var p := records[i..i + count];
    p[0 := Trim(p[0], offset, p[0].length - offset)][count - 1 := p[count - 1].(length := lastLength)]
  }

  lemma PatchedParts(records: seq<Record>, i: nat, count: nat, offset: nat, lastLength: nat)
    requires count >= 2 && i + count <= |records| && offset < records[i].length
    ensures var j := i + count - 1;
      Patched(records, i, count, offset, lastLength) ==
      [Trim(records[i], offset, records[i].length - offset)] + records[i + 1..j] + [Trim(records[j], 0, lastLength)]
  {
    var j := i + count - 1;
    var p := Patched(records, i, count, offset, lastLength);
    assert p[count - 1] == Trim(records[j], 0, lastLength);
    forall k | 1 <= k < count - 1 ensures p[k] == records[i + k] {
      assert p[k] == records[i..i + count][k];
    }
    assert p[1..count - 1] == records[i + 1..j];
    assert p == [p[0]] + p[1..count - 1] + [p[count - 1]];
  }

  /** The records before i, record i, those between, record j, and the rest. */
  lemma FlatFive(objs: Objects, records: seq<Record>, i: nat, j: nat)
    requires RecordsOk(objs, records) && i < j < |records|
    ensures RecordsOk(objs, records[..i]) && RecordsOk(objs, records[i + 1..j]) && RecordsOk(objs, records[j + 1..])
    ensures Flat(objs, records) ==
      Flat(objs, records[..i]) + Piece(objs, records[i]) + Flat(objs, records[i + 1..j])
      + Piece(objs, records[j]) + Flat(objs, records[j + 1..])
  {
    FlatSplit(objs, records, i);
    FlatSplitAfter(objs, records, i, j);
    hide RecordsOk;
    hide Flat;
    hide Piece;
  }

  lemma FlatSplitAfter(objs: Objects, records: seq<Record>, i: nat, j: nat)
    requires i < j < |records| && RecordsOk(objs, records[i + 1..])
    ensures RecordsOk(objs, records[i + 1..j]) && RecordsOk(objs, records[j + 1..])
    ensures RecordOk(objs, records[j])
    ensures Flat(objs, records[i + 1..]) ==
      Flat(objs, records[i + 1..j]) + Piece(objs, records[j]) + Flat(objs, records[j + 1..])
  {
    var rest := records[i + 1..];
    FlatSplit(objs, rest, j - i - 1);
    assert rest[..j - i - 1] == records[i + 1..j];
    assert rest[j - i..] == records[j + 1..];
    assert rest[j - i - 1] == records[j];
  }

  lemma SliceOfFive<T>(a: seq<T>, p: seq<T>, m: seq<T>, l: seq<T>, b: seq<T>, x: nat, y: nat)
    requires x <= |p| && y <= |l|
    ensures (a + p + m + l + b)[|a| + x..|a| + |p| + |m| + y] == p[x..] + m + l[..y]
  {
  }

  lemma FlatThree(objs: Objects, first: Record, mid: seq<Record>, last: Record)
    requires RecordOk(objs, first) && RecordsOk(objs, mid) && RecordOk(objs, last)
    ensures var records := [first] + mid + [last];
      && RecordsOk(objs, records) && Total(records) == first.length + Total(mid) + last.length
      && Flat(objs, records) == Piece(objs, first) + Flat(objs, mid) + Piece(objs, last)
  {
    FlatOne(objs, first);
    FlatOne(objs, last);
    FlatConcat(objs, [first], mid);
    FlatConcat(objs, [first] + mid, [last]);
  }

  /** The patched array's parts, and that they lie inside. */
  lemma PatchedFlat(objs: Objects, records: seq<Record>, i: nat, count: nat, offset: nat, lastLength: nat)
    requires RecordsOk(objs, records) && count >= 2 && i + count <= |records|
    requires offset < records[i].length && 0 < lastLength <= records[i + count - 1].length
    ensures var p, j := Patched(records, i, count, offset, lastLength), i + count - 1;
      && RecordsOk(objs, p)
      && RecordsOk(objs, records[i + 1..j])
      && Flat(objs, p) ==
         Piece(objs, records[i])[offset..] + Flat(objs, records[i + 1..j]) + Piece(objs, records[j])[..lastLength]
      && Total(p) == records[i].length - offset + Total(records[i + 1..j]) + lastLength
  {
    var j := i + count - 1;
    var first := Trim(records[i], offset, records[i].length - offset);
    var last := Trim(records[j], 0, lastLength);
    PatchedParts(records, i, count, offset, lastLength);
    TrimPiece(objs, records[i], offset, records[i].length - offset);
    TrimPiece(objs, records[j], 0, lastLength);
    hide Patched;
    FlatThree(objs, first, records[i + 1..j], last);
  }

  /** ... stands for the bytes from offset in record i to lastLength in the last one. */
  lemma PatchedSlice(objs: Objects, records: seq<Record>, i: nat, count: nat, offset: nat, lastLength: nat)
    requires RecordsOk(objs, records) && count >= 2 && i + count <= |records|
    requires offset < records[i].length && 0 < lastLength <= records[i + count - 1].length
    ensures var p := Patched(records, i, count, offset, lastLength);
      var start := Total(records[..i]) + offset;
      && RecordsOk(objs, p)
      && start + Total(p) <= |Flat(objs, records)|
      && Flat(objs, p) == Flat(objs, records)[start..start + Total(p)]
  {
    hide Patched;
    hide Flat;
    hide Total;
    hide Piece;
    var j := i + count - 1;
    assert RecordOk(objs, records[i]) && RecordOk(objs, records[j]);
    hide RecordOk;
    PatchedFlat(objs, records, i, count, offset, lastLength);
    FlatFive(objs, records, i, j);
    FlatLength(objs, records[..i]);
    FlatLength(objs, records[i + 1..j]);
    hide RecordsOk;
    var part := Flat(objs, Patched(records, i, count, offset, lastLength));
    FromFive(Flat(objs, records[..i]), Piece(objs, records[i]), Flat(objs, records[i + 1..j]), Piece(objs, records[j]),
             Flat(objs, records[j + 1..]), offset, lastLength, Flat(objs, records), part,
             Total(records[..i]) + offset, Total(Patched(records, i, count, offset, lastLength)));
  }

  lemma FromFive<T>(a: seq<T>, u: seq<T>, m: seq<T>, v: seq<T>, b: seq<T>, x: nat, y: nat, whole: seq<T>, part: seq<T>,
                    start: nat, length: nat)
    requires x <= |u| && y <= |v| && whole == a + u + m + v + b && part == u[x..] + m + v[..y]
    requires start == |a| + x && length == |u| - x + |m| + y
    ensures start + length <= |whole| && part == whole[start..start + length]
  {
    SliceOfFive(a, u, m, v, b, x, y);
  }

  // ---------------------------------------------------------------- what the operations compute

  /** _dispatch_data_num_records: the records an object brings into a composite. */
  function Ranges(objs: Objects, d: Ref): seq<Record>
    requires d in objs
  {
    if IsLeaf(objs[d]) then [Record(0, objs[d].size, d)] else objs[d].records
  }

  lemma RangesFlat(objs: Objects, d: Ref)
    requires ObjectsOk(objs) && d in objs && d != EMPTY
    ensures RecordsOk(objs, Ranges(objs, d)) && Flat(objs, Ranges(objs, d)) == Bytes(objs, d)
    ensures Total(Ranges(objs, d)) == objs[d].size && Ranges(objs, d) != []
  {
    if IsLeaf(objs[d]) {
      FlatOne(objs, Record(0, objs[d].size, d));
    }
  }

  /** The bytes a subrange is asked for, clipped to what is there. */
  function Slice<T>(b: seq<T>, offset: nat, length: nat): seq<T> {
    if offset >= |b| then []
    else if length > |b| - offset then b[offset..]
    else b[offset..offset + length]
  }

  /** The record that contains offset, and the offset in it. */
  ghost predicate FoundAt(records: seq<Record>, i: nat, offset: nat, start: nat) {
    i < |records| && offset < records[i].length && Total(records[..i]) + offset == start
  }

  lemma {:induction false} TotalAll(records: seq<Record>, i: nat)
    requires i <= |records|
    ensures Total(records[..i]) <= Total(records) && (i == |records| ==> records[..i] == records)
    decreases |records| - i
  {
    if i < |records| {
      TotalTake(records, i);
      TotalAll(records, i + 1);
    } else {
      assert records[..i] == records;
    }
  }

  /** There are never more records than bytes, so their number does not overflow when the size does not. */
  lemma {:induction false} RecordsFit(objs: Objects, records: seq<Record>)
    requires RecordsOk(objs, records)
    ensures |records| <= Total(records)
  {
    if records != [] {
      assert RecordOk(objs, records[0]);
      RecordsFit(objs, records[1..]);
    }
  }

  /** _dispatch_data_map_direct: whether there is one buffer, and where in which object it is. */
  datatype Direct = Direct(mapped: bool, dd: Ref, from: nat)

  function MapDirect(objs: Objects, d: Ref, offset: nat): Direct
    requires d in objs && forall r :: r in objs[d].records ==> r.leaf in objs
  {
    var (dd, from) :=
      if |objs[d].records| == 1 then (objs[d].records[0].leaf, offset + objs[d].records[0].from) else (d, offset);
    Direct(IsLeaf(objs[dd]) || objs[dd].buf.Some?, dd, from)
  }

  /** It sees through trivial subranges; what it finds there holds the object's bytes. */
  lemma DirectBytes(objs: Objects, d: Ref)
    requires ObjectsOk(objs) && d in objs && d != EMPTY
    ensures (forall r :: r in objs[d].records ==> r.leaf in objs)
    ensures var m := MapDirect(objs, d, 0);
      && m.dd in objs && m.dd != EMPTY && (m.mapped <==> |objs[d].records| <= 1 || objs[d].buf.Some?)
      && (m.mapped ==> objs[m.dd].buf.Some? && m.from + objs[d].size <= |objs[m.dd].buf.value|
                       && Bytes(objs, d) == objs[m.dd].buf.value[m.from..m.from + objs[d].size])
      && (!m.mapped ==> m.dd == d && m.from == 0)
  {
    if |objs[d].records| == 1 {
      var r := objs[d].records[0];
      assert objs[d].records == [r] && RecordOk(objs, r);
      FlatOne(objs, r);
    } else if objs[d].buf.Some? {
      SizeIsLength(objs, d);
    }
  }

  lemma ZeroSize(objs: Objects, d: Ref)
    requires ObjectsOk(objs) && d in objs
    ensures objs[d].size == 0 <==> d == EMPTY
  {
    if d != EMPTY && !IsLeaf(objs[d]) {
      RecordsFit(objs, objs[d].records);
    }
  }

  // ---------------------------------------------------------------- in pieces

  function Join(pieces: seq<seq<Byte>>): seq<Byte> {
    if pieces == [] then [] else Join(pieces[..|pieces| - 1]) + Last(pieces)
  }

  /** The bytes of each record. */
  ghost function PiecesOf(objs: Objects, records: seq<Record>): seq<seq<Byte>>
    requires RecordsOk(objs, records)
  {
    seq(|records|, i requires 0 <= i < |records| => Piece(objs, records[i]))
  }

  lemma {:induction false} JoinFront(pieces: seq<seq<Byte>>)
    requires pieces != []
    ensures Join(pieces) == pieces[0] + Join(pieces[1..])
    decreases |pieces|
  {
    var front := pieces[..|pieces| - 1];
    if front == [] {
      assert pieces[1..] == [];
    } else {
      JoinFront(front);
      assert pieces[1..][..|pieces| - 2] == front[1..] && Last(pieces[1..]) == Last(pieces);
    }
  }

  lemma {:induction false} JoinIsFlat(objs: Objects, records: seq<Record>)
    requires RecordsOk(objs, records)
    ensures Join(PiecesOf(objs, records)) == Flat(objs, records)
    decreases |records|
  {
    if records != [] {
      JoinFront(PiecesOf(objs, records));
      JoinIsFlat(objs, records[1..]);
      assert PiecesOf(objs, records)[1..] == PiecesOf(objs, records[1..]);
    }
  }

  /** The bytes of each region dispatch_data_apply passes. */
  ghost function Chunks(objs: Objects, d: Ref): seq<seq<Byte>>
    requires ObjectsOk(objs) && d in objs
  {
    if d == EMPTY then []
    else if |objs[d].records| <= 1 || objs[d].buf.Some? then [Bytes(objs, d)]
    else PiecesOf(objs, objs[d].records)
  }

  /** The region at `offset` is one of them, whole. */
  ghost predicate IsChunk(chunks: seq<seq<Byte>>, offset: nat, bytes: seq<Byte>) {
    exists i: nat :: IsChunkAt(chunks, i, offset, bytes)
  }

  ghost predicate IsChunkAt(chunks: seq<seq<Byte>>, i: nat, offset: nat, bytes: seq<Byte>) {
    i < |chunks| && chunks[i] == bytes && offset == |Join(chunks[..i])|
  }

  lemma PieceIsChunk(objs: Objects, records: seq<Record>, i: nat)
    requires RecordsOk(objs, records) && i < |records|
    ensures RecordOk(objs, records[i])
    ensures IsChunk(PiecesOf(objs, records), Total(records[..i]), Piece(objs, records[i]))
  {
    var pieces := PiecesOf(objs, records);
    assert pieces[..i] == PiecesOf(objs, records[..i]);
    JoinIsFlat(objs, records[..i]);
    FlatLength(objs, records[..i]);
    assert IsChunkAt(pieces, i, Total(records[..i]), Piece(objs, records[i]));
  }

  lemma WholeIsChunk(bytes: seq<Byte>)
    ensures IsChunk([bytes], 0, bytes)
  {
    assert [bytes][..0] == [];
    assert IsChunkAt([bytes], 0, 0, bytes);
  }

  // ---------------------------------------------------------------- the loops of dispatch_data_create_subrange

  lemma TotalParts(records: seq<Record>, i: nat, j: nat)
    requires i < j < |records|
    ensures Total(records) == Total(records[..i]) + records[i].length + Total(records[i + 1..j])
                              + records[j].length + Total(records[j + 1..])
  {
    TotalSplit(records, j);
    TotalSplit(records[..j], i);
    assert records[..j][..i] == records[..i] && records[..j][i + 1..] == records[i + 1..j];
  }

  lemma {:induction false} TotalSplit(records: seq<Record>, i: nat)
    requires i < |records|
    ensures Total(records) == Total(records[..i]) + records[i].length + Total(records[i + 1..])
  {
    if i == 0 {
      assert records[..0] == [];
    } else {
      assert records[1..][i - 1] == records[i] && records[1..][i..] == records[i + 1..];
      assert records[..i][1..] == records[1..][..i - 1];
      TotalSplit(records[1..], i - 1);
    }
  }

  /** The record containing the offset; past the last one only when the offset is past the end. */
  method FindRecord(records: seq<Record>, start: nat) returns (i: nat, offset: nat)
    ensures i <= |records| && (i == |records| <==> start >= Total(records))
    ensures i < |records| ==> FoundAt(records, i, offset, start)
  {
    offset, i := start, 0;
    while i < |records| && offset >= records[i].length
      invariant i <= |records| && Total(records[..i]) + offset == start
    {
      offset := offset - records[i].length;
      TotalTake(records, i);
      i := i + 1;
    }
    TotalAll(records, i);
    if i < |records| {
      TotalTake(records, i);
      TotalAll(records, i + 1);
    }
  }

  /**
    How many records from i on, and how much of the last, make up `first` bytes after record i.
    The crash inside the loop cannot happen: there are more bytes than that.
  */
  method FindEnd(records: seq<Record>, i: nat, after: nat) returns (count: nat, lastLength: nat)
    requires i < |records| && 0 < after < Total(records[i + 1..])
    ensures 2 <= count <= |records| - i
    ensures 0 < lastLength <= records[i + count - 1].length
    ensures Total(records[i + 1..i + count - 1]) + lastLength == after
  {
    lastLength, count := after, 1;
    ghost var rest := records[i + 1..];
    while i + count < |records|
      invariant 1 <= count <= |records| - i && 0 < lastLength
      invariant Total(rest[..count - 1]) + lastLength == after
    {
      var recordLength := records[i + count].length;
      count := count + 1;
      assert rest[..count - 2] == records[i + 1..i + count - 1];
      if lastLength <= recordLength {
        return;
      }
      lastLength := lastLength - recordLength;
      TotalTake(rest, count - 2);
      if i + count >= |records| {
        TotalAll(rest, count - 1);
        assert false;
      }
    }
    TotalAll(rest, count - 1);
    assert false;
  }

  /** The record array of a subrange stands for the slice that was asked for. */
  lemma PatchedIsSlice(objs: Objects, d: Ref, start: nat, length: nat, i: nat, count: nat, offset: nat, lastLength: nat)
    requires ObjectsOk(objs) && d in objs && d != EMPTY && !IsLeaf(objs[d])
    requires FoundAt(objs[d].records, i, offset, start) && count >= 2 && i + count <= |objs[d].records|
    requires 0 < length && start + length <= objs[d].size
    requires 0 < lastLength <= objs[d].records[i + count - 1].length
    requires Total(Patched(objs[d].records, i, count, offset, lastLength)) == length
    ensures RecordsOk(objs, Patched(objs[d].records, i, count, offset, lastLength))
    ensures Flat(objs, Patched(objs[d].records, i, count, offset, lastLength)) == Slice(Bytes(objs, d), start, length)
  {
    PatchedSlice(objs, objs[d].records, i, count, offset, lastLength);
    SizeIsLength(objs, d);
  }

  /** The case of a range inside one record: the bytes of a slice of its leaf. */
  lemma InRecordIsSlice(objs: Objects, d: Ref, start: nat, length: nat, i: nat, offset: nat)
    requires ObjectsOk(objs) && d in objs && d != EMPTY && !IsLeaf(objs[d])
    requires FoundAt(objs[d].records, i, offset, start) && 0 < length && offset + length <= objs[d].records[i].length
    ensures var r := objs[d].records[i];
      && r.leaf in objs && r.leaf != EMPTY && IsLeaf(objs[r.leaf])
      && Slice(Bytes(objs, r.leaf), r.from + offset, length) == Slice(Bytes(objs, d), start, length)
  {
    var r := objs[d].records[i];
    assert RecordOk(objs, r);
    SliceInRecord(objs, objs[d].records, i, offset, length);
    TrimPiece(objs, r, offset, length);
  }

  /** With everything from record i on taken, the last record is whole. */
  lemma ToTheEnd(records: seq<Record>, i: nat, offset: nat, start: nat, length: nat)
    requires FoundAt(records, i, offset, start) && start + length == Total(records)
    requires offset + length > records[i].length
    ensures i + 2 <= |records|
    ensures var count := |records| - i; var last := records[|records| - 1].length;
      last > 0 ==> Total(Patched(records, i, count, offset, last)) == length
  {
    TotalSplit(records, i);
    var j := |records| - 1;
    TotalParts(records, i, j);
    PatchedTotal(records, i, |records| - i, offset, records[j].length);
  }

  lemma PatchedTotal(records: seq<Record>, i: nat, count: nat, offset: nat, lastLength: nat)
    requires count >= 2 && i + count <= |records| && offset < records[i].length
    ensures Total(Patched(records, i, count, offset, lastLength)) ==
            records[i].length - offset + Total(records[i + 1..i + count - 1]) + lastLength
  {
    var j := i + count - 1;
    PatchedParts(records, i, count, offset, lastLength);
    var first, last := Trim(records[i], offset, records[i].length - offset), Trim(records[j], 0, lastLength);
    var mid := records[i + 1..j];
    hide Patched;
    TotalConcat([first] + mid, [last]);
    TotalConcat([first], mid);
    assert [first][1..] == [] && [last][1..] == [];
  }

  lemma {:induction false} TotalConcat(a: seq<Record>, b: seq<Record>)
    ensures Total(a + b) == Total(a) + Total(b)
  {
    if a == [] {
      assert a + b == b;
    } else {
      assert (a + b)[1..] == a[1..] + b;
      TotalConcat(a[1..], b);
    }
  }

  /** Before the end, what is left after record i is more than what is wanted of it. */
  lemma BeforeTheEnd(records: seq<Record>, i: nat, offset: nat, start: nat, length: nat)
    requires FoundAt(records, i, offset, start) && start + length < Total(records)
    requires offset + length > records[i].length
    ensures 0 < length - (records[i].length - offset) < Total(records[i + 1..])
  {
    TotalSplit(records, i);
  }

  /** How many records a subrange that starts in record i takes, and how much of the last. */
  method Extent(records: seq<Record>, i: nat, offset: nat, ghost start: nat, length: nat, toTheEnd: bool)
    returns (count: nat, lastLength: nat)
    requires FoundAt(records, i, offset, start) && start + length <= Total(records)
    requires (toTheEnd <==> start + length == Total(records)) && offset + length > records[i].length
    requires forall r :: r in records ==> r.length > 0
    ensures 2 <= count <= |records| - i && 0 < lastLength <= records[i + count - 1].length
    ensures toTheEnd ==> lastLength == records[i + count - 1].length
    ensures Total(Patched(records, i, count, offset, lastLength)) == length
  {
    if toTheEnd {
      ToTheEnd(records, i, offset, start, length);
      count := |records| - i;
      lastLength := records[|records| - 1].length;
    } else {
      BeforeTheEnd(records, i, offset, start, length);
      count, lastLength := FindEnd(records, i, length - (records[i].length - offset));
      PatchedTotal(records, i, count, offset, lastLength);
    }
  }

  /** The memcpy of the records and the patches to the first and the last. */
  method CopyRecords(records: seq<Record>, i: nat, count: nat, offset: nat, lastLength: nat, toTheEnd: bool)
    returns (copy: seq<Record>)
    requires 2 <= count <= |records| - i && offset < records[i].length
    requires toTheEnd ==> lastLength == records[i + count - 1].length
    ensures copy == Patched(records, i, count, offset, lastLength)
  {
    copy := records[i..i + count];
    if offset != 0 {
      copy := copy[0 := Record(copy[0].from + offset, copy[0].length - offset, copy[0].leaf)];
    }
    if !toTheEnd {
      copy := copy[count - 1 := copy[count - 1].(length := lastLength)];
    }
  }
}
