/** dispatch_data_apply, and the flattening and region lookup built like it, on the objects as they stand. */
module DataTraversal {
  import opened Common
  import opened DataRope

  /** One call of the applier: the region object, its offset in the whole, and the bytes. */
  datatype Call = Call(region: Ref, offset: nat, bytes: seq<Byte>)

  /** The calls cover the bytes from offset on, without gaps, and none is empty. */
  ghost predicate Contiguous(calls: seq<Call>, offset: nat) {
    calls == [] ||
    (calls[0].offset == offset && calls[0].bytes != [] && Contiguous(calls[1..], offset + |calls[0].bytes|))
  }

  function Content(calls: seq<Call>): seq<Byte> {
    if calls == [] then [] else calls[0].bytes + Content(calls[1..])
  }

  /** The bytes of each call. */
  function Texts(calls: seq<Call>): seq<seq<Byte>> {
    seq(|calls|, i requires 0 <= i < |calls| => calls[i].bytes)
  }

  /** The region object of each call. */
  function Regions(calls: seq<Call>): seq<Ref> {
    seq(|calls|, i requires 0 <= i < |calls| => calls[i].region)
  }

  function LeavesOf(records: seq<Record>): seq<Ref> {
    seq(|records|, i requires 0 <= i < |records| => records[i].leaf)
  }

  /** The object each region comes from: the one traversed, or the leaf of each record. */
  function Origins(objs: Objects, d: Ref): seq<Ref>
    requires d in objs
  {
    if d == EMPTY then []
    else if |objs[d].records| <= 1 || objs[d].buf.Some? then [d]
    else LeavesOf(objs[d].records)
  }

  /** All calls but the last said go on, and the last said `result`. */
  ghost predicate Obeys(calls: seq<Call>, applier: Call -> bool, result: bool) {
    && (forall i :: 0 <= i < |calls| - 1 ==> applier(calls[i]))
    && (if calls == [] then result else applier(Last(calls)) == result)
  }

  /** The bytes a call is given are a part of what its region object stands for. */
  ghost predicate InRegion(objs: Objects, call: Call)
    requires ObjectsOk(objs)
  {
    && call.region in objs
    && exists from: nat :: PartAt(Bytes(objs, call.region), from, call.bytes)
  }

  ghost predicate PartAt(whole: seq<Byte>, from: nat, part: seq<Byte>) {
    from + |part| <= |whole| && whole[from..from + |part|] == part
  }

  ghost predicate InRegions(objs: Objects, calls: seq<Call>)
    requires ObjectsOk(objs)
  {
    forall call :: call in calls ==> InRegion(objs, call)
  }

  lemma {:induction false} ContentConcat(a: seq<Call>, b: seq<Call>)
    ensures Content(a + b) == Content(a) + Content(b)
  {
    if a == [] {
      assert a + b == b;
    } else {
      assert (a + b)[1..] == a[1..] + b;
      ContentConcat(a[1..], b);
    }
  }

  lemma {:induction false} Extended(a: seq<Call>, b: seq<Call>, offset: nat)
    requires Contiguous(a, offset) && Contiguous(b, offset + |Content(a)|)
    ensures Contiguous(a + b, offset)
  {
    if a == [] {
      assert a + b == b;
    } else {
      var head, rest := a[0], a[1..];
      assert (a + b)[0] == head && (a + b)[1..] == rest + b;
      assert |Content(a)| == |head.bytes| + |Content(rest)|;
      Extended(rest, b, offset + |head.bytes|);
    }
  }

  lemma ObeysBoth(a: seq<Call>, b: seq<Call>, applier: Call -> bool, result: bool)
    requires Obeys(a, applier, true) && Obeys(b, applier, result)
    ensures Obeys(a + b, applier, result)
  {
    var c := a + b;
    forall i | 0 <= i < |c| - 1 ensures applier(c[i]) {
      if i == |a| - 1 {
        assert c[i] == Last(a);
      }
    }
    assert b != [] ==> Last(c) == Last(b);
    assert b == [] ==> c == a;
  }

  /** What a traversal of size bytes from `from` in dd promises. */
  ghost predicate Traversed(objs: Objects, dd: Ref, from: nat, size: nat, offset: nat, applier: Call -> bool,
                            calls: seq<Call>, result: bool)
    requires ObjectsOk(objs) && dd in objs && from + size <= |Bytes(objs, dd)|
  {
    var bytes := Bytes(objs, dd)[from..from + size];
    && Contiguous(calls, offset) && Obeys(calls, applier, result) && InRegions(objs, calls)
    && Content(calls) <= bytes && (result ==> Content(calls) == bytes)
  }

  lemma OneCall(objs: Objects, dd: Ref, from: nat, size: nat, call: Call, applier: Call -> bool)
    requires ObjectsOk(objs) && dd in objs && size > 0 && from + size <= |Bytes(objs, dd)|
    requires call.region == dd && call.bytes == Bytes(objs, dd)[from..from + size]
    ensures Traversed(objs, dd, from, size, call.offset, applier, [call], applier(call)) && Texts([call]) == [call.bytes]
    ensures Regions([call]) == [dd]
  {
    hide ObjectsOk;
    hide Bytes;
    assert PartAt(Bytes(objs, dd), from, call.bytes);
    assert InRegion(objs, call);
    assert [call][1..] == [] && Content([call]) == call.bytes + Content([]) == call.bytes;
    assert |call.bytes| == size && Contiguous([call], call.offset);
    assert Last([call]) == call;
  }

  /** _dispatch_data_apply */
  method ApplyRange(objs: Objects, dd: Ref, offset: nat, from: nat, size: nat, applier: Call -> bool)
    returns (result: bool, calls: seq<Call>)
    requires ObjectsOk(objs) && dd in objs && dd != EMPTY && size > 0 && from + size <= objs[dd].size
    requires !IsLeaf(objs[dd]) ==> from == 0 && size == objs[dd].size
    ensures from + size <= |Bytes(objs, dd)| && Traversed(objs, dd, from, size, offset, applier, calls, result)
    ensures if IsLeaf(objs[dd]) then Texts(calls) == [Bytes(objs, dd)[from..from + size]]
            else Texts(calls) <= Chunks(objs, dd) && (result ==> Texts(calls) == Chunks(objs, dd))
    ensures if IsLeaf(objs[dd]) then Regions(calls) == [dd]
            else Regions(calls) <= Origins(objs, dd) && (result ==> Regions(calls) == Origins(objs, dd))
    decreases if dd in objs && IsLeaf(objs[dd]) then 0 else 1
  {
    SizeIsLength(objs, dd);
    DirectBytes(objs, dd);
    var m := MapDirect(objs, dd, 0);
    if m.mapped {
      var start := m.from + from;
      var call := Call(dd, offset, objs[m.dd].buf.value[start..start + size]);
      assert call.bytes == Bytes(objs, dd)[from..from + size];
      hide ObjectsOk;
      hide Bytes;
      OneCall(objs, dd, from, size, call, applier);
      assert Bytes(objs, dd)[0..|Bytes(objs, dd)|] == Bytes(objs, dd);
      return applier(call), [call];
    }
    result, calls := ApplyRecords(objs, objs[dd].records, offset, applier);
    assert Bytes(objs, dd)[0..|Bytes(objs, dd)|] == Bytes(objs, dd);
  }

  /** ... over the records of a composite */
  method ApplyRecords(objs: Objects, records: seq<Record>, offset: nat, applier: Call -> bool)
    returns (result: bool, calls: seq<Call>)
    requires ObjectsOk(objs) && RecordsOk(objs, records)
    ensures Contiguous(calls, offset) && Obeys(calls, applier, result) && InRegions(objs, calls)
    ensures Content(calls) <= Flat(objs, records) && (result ==> Content(calls) == Flat(objs, records))
    ensures Texts(calls) <= PiecesOf(objs, records) && (result ==> Texts(calls) == PiecesOf(objs, records))
    ensures Regions(calls) <= LeavesOf(records) && (result ==> Regions(calls) == LeavesOf(records))
    decreases 1, 0
  {
    result, calls := true, [];
    var i := 0;
    var at := offset;
    while i < |records| && result
      invariant 0 <= i <= |records| && Contiguous(calls, offset) && Obeys(calls, applier, result)
      invariant InRegions(objs, calls) && Texts(calls) == PiecesOf(objs, records)[..i]
      invariant Regions(calls) == LeavesOf(records)[..i]
      invariant RecordsOk(objs, records[..i]) && Content(calls) <= Flat(objs, records[..i])
      invariant result ==> Content(calls) == Flat(objs, records[..i]) && at == offset + |Content(calls)|
    {
      var r := records[i];
      assert RecordOk(objs, r);
      var more;
      result, more := ApplyRange(objs, r.leaf, at, r.from, r.length, applier);
      Extended(calls, more, offset);
      ContentConcat(calls, more);
      ObeysBoth(calls, more, applier, result);
      NextPiece(objs, records, i);
      NextText(objs, records, i, calls, more);
      calls := calls + more;
      at := at + r.length;
      i := i + 1;
    }
    assert records[..|records|] == records;
    PrefixFlat(objs, records, i);
  }

  lemma NextText(objs: Objects, records: seq<Record>, i: nat, calls: seq<Call>, more: seq<Call>)
    requires RecordsOk(objs, records) && i < |records| && RecordOk(objs, records[i])
    requires Texts(calls) == PiecesOf(objs, records)[..i] && Texts(more) == [Piece(objs, records[i])]
    requires Regions(calls) == LeavesOf(records)[..i] && Regions(more) == [records[i].leaf]
    ensures Texts(calls + more) == PiecesOf(objs, records)[..i + 1]
    ensures Regions(calls + more) == LeavesOf(records)[..i + 1]
  {
    assert Texts(calls + more) == Texts(calls) + Texts(more);
    assert Regions(calls + more) == Regions(calls) + Regions(more);
  }

  lemma NextPiece(objs: Objects, records: seq<Record>, i: nat)
    requires RecordsOk(objs, records) && i < |records|
    ensures RecordsOk(objs, records[..i]) && RecordsOk(objs, records[..i + 1])
    ensures Flat(objs, records[..i + 1]) == Flat(objs, records[..i]) + Piece(objs, records[i])
  {
    assert records[..i + 1] == records[..i] + [records[i]];
    FlatOne(objs, records[i]);
    FlatConcat(objs, records[..i], [records[i]]);
  }

  lemma PrefixFlat(objs: Objects, records: seq<Record>, i: nat)
    requires RecordsOk(objs, records) && i <= |records|
    ensures RecordsOk(objs, records[..i]) && Flat(objs, records[..i]) <= Flat(objs, records)
  {
    assert records == records[..i] + records[i..];
    FlatConcat(objs, records[..i], records[i..]);
  }

  /** dispatch_data_apply */
  method Apply(objs: Objects, d: Ref, applier: Call -> bool) returns (result: bool, calls: seq<Call>)
    requires ObjectsOk(objs) && d in objs
    ensures Contiguous(calls, 0) && Obeys(calls, applier, result) && InRegions(objs, calls)
    ensures Content(calls) <= Bytes(objs, d) && (result ==> Content(calls) == Bytes(objs, d))
    ensures Texts(calls) <= Chunks(objs, d) && (result ==> Texts(calls) == Chunks(objs, d))
    ensures Regions(calls) <= Origins(objs, d) && (result ==> Regions(calls) == Origins(objs, d))
  {
    SizeIsLength(objs, d);
    ZeroSize(objs, d);
    if objs[d].size == 0 {
      return true, [];
    }
    result, calls := ApplyRange(objs, d, 0, 0, objs[d].size, applier);
    assert Bytes(objs, d)[0..|Bytes(objs, d)|] == Bytes(objs, d);
  }

  // ---------------------------------------------------------------- flattening

  lemma {:induction false} CallPlace(calls: seq<Call>, offset: nat, k: nat)
    requires Contiguous(calls, offset) && k < |calls|
    ensures calls[k].offset == offset + |Content(calls[..k])|
    ensures Content(calls[..k + 1]) == Content(calls[..k]) + calls[k].bytes
    ensures |Content(calls[..k + 1])| <= |Content(calls)|
  {
    assert calls[..k + 1] == calls[..k] + [calls[k]] && [calls[k]][1..] == [];
    ContentConcat(calls[..k], [calls[k]]);
    assert calls == calls[..k + 1] + calls[k + 1..];
    ContentConcat(calls[..k + 1], calls[k + 1..]);
    if k > 0 {
      assert calls[..k][1..] == calls[1..][..k - 1];
      CallPlace(calls[1..], offset + |calls[0].bytes|, k - 1);
    } else {
      assert calls[..0] == [];
    }
  }

  /** memcpy(buffer + at, bytes, |bytes|) */
  method CopyIn(buffer: array<Byte>, at: nat, bytes: seq<Byte>)
    requires at + |bytes| <= buffer.Length
    modifies buffer
    ensures buffer[..] == old(buffer[..at]) + bytes + old(buffer[at + |bytes|..])
  {
    forall i | 0 <= i < |bytes| {
      buffer[at + i] := bytes[i];
    }
  }

  /** _dispatch_data_flatten: a new buffer with the object's bytes. */
  method Flatten(objs: Objects, d: Ref) returns (buffer: array<Byte>)
    requires ObjectsOk(objs) && d in objs
    ensures fresh(buffer) && buffer[..] == Bytes(objs, d)
  {
    SizeIsLength(objs, d);
    buffer := new Byte[objs[d].size](_ => 0);
    var result, calls := Apply(objs, d, _ => true);
    hide ObjectsOk;
    hide Bytes;
    assert result;
    var k := 0;
    assert calls[..0] == [];
    while k < |calls|
      invariant 0 <= k <= |calls| && |Content(calls[..k])| <= buffer.Length
      invariant buffer[..|Content(calls[..k])|] == Content(calls[..k])
    {
      CallPlace(calls, 0, k);
      ghost var n := |Content(calls[..k])|;
      CopyIn(buffer, calls[k].offset, calls[k].bytes);
      assert buffer[..n + |calls[k].bytes|] == Content(calls[..k]) + calls[k].bytes;
      k := k + 1;
    }
    assert calls[..k] == calls;
  }

  // ---------------------------------------------------------------- the record a location lies in

  /**
    The loop of _dispatch_data_copy_region over the bytes from `start` on: the record that
    location falls in, how far into it they begin, and how many bytes come before.  The crash
    at its end cannot happen.
  */
  method FindRegion(records: seq<Record>, start: nat, location: nat) returns (i: nat, from: nat, offset: nat)
    requires start + location < Total(records)
    ensures i < |records| && from < records[i].length && start + offset == Total(records[..i]) + from
    ensures offset <= location < offset + (records[i].length - from)
    ensures start == 0 ==> from == 0
  {
    i, from, offset := 0, start, 0;
    assert records[..0] == [];
    while i < |records|
      invariant i <= |records| && offset <= location && (offset == 0 || from == 0)
      invariant start + offset == Total(records[..i]) + from
      invariant start == 0 ==> from == 0
    {
      var length := records[i].length;
      TotalTake(records, i);
      if from >= length {
        from := from - length;
      } else {
        length := length - from;
        if location < offset + length {
          return;
        }
        offset := offset + length;
        from := 0;
      }
      i := i + 1;
    }
    TotalAll(records, i);
    assert false;
  }
}
