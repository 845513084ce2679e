/** Datatypes and sequence facts shared by the components. */
module Common {
  datatype Option<+T> = None | Some(value: T) {
    function GetOr(default: T): T {
      if Some? then value else default
    }
  }

  ghost predicate NoDup<T>(q: seq<T>) {
    forall i, j :: 0 <= i < j < |q| ==> q[i] != q[j]
  }

  ghost predicate DisjointSeqs<T>(p: seq<T>, q: seq<T>) {
    forall x :: x in p ==> x !in q
  }

  lemma NoDupConcat<T>(p: seq<T>, q: seq<T>)
    ensures NoDup(p + q) <==> NoDup(p) && NoDup(q) && DisjointSeqs(p, q)
  {
    var r := p + q;
    assert forall i :: 0 <= i < |p| ==> r[i] == p[i];
    assert forall j :: 0 <= j < |q| ==> r[|p| + j] == q[j];
    if NoDup(r) {
      forall i, j | 0 <= i < j < |q| ensures q[i] != q[j] {
        assert r[|p| + i] != r[|p| + j];
      }
      forall i, j | 0 <= i < |p| && 0 <= j < |q| ensures p[i] != q[j] {
        assert r[i] != r[|p| + j];
      }
    } else if NoDup(p) && NoDup(q) {
      var i, j :| 0 <= i < j < |r| && r[i] == r[j];
      assert i < |p| <= j;
      assert p[i] in p && q[j - |p|] in q;
    }
  }

  function Last<T>(q: seq<T>): T
    requires q != []
  {
    q[|q| - 1]
  }

  /** The numbers below n. */
  function Upto(n: nat): (r: set<nat>)
    ensures forall i: nat :: i in r <==> i < n
    ensures |r| == n
  {
    if n == 0 then {} else Upto(n - 1) + {n - 1}
  }

  lemma Cancel(x: int, y: int, w: int)
    requires x * w < y * w && w > 0
    ensures x < y
  {
  }

  lemma Product(x: int, y: int, w: int)
    requires x <= y && w >= 0
    ensures x * w <= y * w
  {
  }

  lemma Within(s: nat, m: nat, w: nat)
    requires m < w
    ensures (s * w + m) / w == s && (s * w + m) % w == m
  {
    var q, r := (s * w + m) / w, (s * w + m) % w;
    assert q * w + r == s * w + m;
    if q < s { Product(q + 1, s, w); }
    if q > s { Product(s + 1, q, w); }
  }
}
