/**
  The introspection library's record of which queues were synchronised onto which: an
  incrementally built graph that must stay without cycles, and the search that reports the
  edge that would close one.
*/
module QueueOrder {
  import opened Common

  datatype Queue = Queue(address: nat)

  /** dispatch_queue_order_entry_s; `id` is its address */
  datatype Entry = Entry(id: nat, top: Queue, bottom: Queue)

  /** The entries at each queue, in list order. */
  type Lists = map<Queue, seq<Entry>>

  function At(lists: Lists, q: Queue): seq<Entry> {
    if q in lists then lists[q] else []
  }

  // ---------------------------------------------------------------- paths

  ghost predicate Edge(tops: Lists, a: Queue, b: Queue) {
    exists e :: e in At(tops, a) && e.bottom == b
  }

  ghost predicate Path(tops: Lists, p: seq<Queue>) {
    p != [] && forall i :: 0 <= i < |p| - 1 ==> Edge(tops, p[i], p[i + 1])
  }

  /** There is a path of at least one edge. */
  ghost predicate Reaches(tops: Lists, a: Queue, b: Queue) {
    exists p :: Path(tops, p) && |p| >= 2 && p[0] == a && Last(p) == b
  }

  ghost predicate Acyclic(tops: Lists) {
    forall q :: !Reaches(tops, q, q)
  }

  lemma ReachesEdge(tops: Lists, a: Queue, b: Queue)
    requires Edge(tops, a, b)
    ensures Reaches(tops, a, b)
  {
    assert Path(tops, [a, b]);
  }

  lemma PathConcat(tops: Lists, p: seq<Queue>, q: seq<Queue>)
    requires Path(tops, p) && Path(tops, q) && Last(p) == q[0]
    ensures Path(tops, p + q[1..]) && Last(p + q[1..]) == Last(q)
  {
    var r := p + q[1..];
    forall i | 0 <= i < |r| - 1 ensures Edge(tops, r[i], r[i + 1]) {
      if i < |p| - 1 {
        assert Edge(tops, p[i], p[i + 1]);
      } else {
        var j := i - (|p| - 1);
        assert r[i] == q[j] && r[i + 1] == q[j + 1] && Edge(tops, q[j], q[j + 1]);
      }
    }
  }

  lemma ReachesTransitive(tops: Lists, a: Queue, b: Queue, c: Queue)
    requires Reaches(tops, a, b) && Reaches(tops, b, c)
    ensures Reaches(tops, a, c)
  {
    var p :| Path(tops, p) && |p| >= 2 && p[0] == a && Last(p) == b;
    var q :| Path(tops, q) && |q| >= 2 && q[0] == b && Last(q) == c;
    PathConcat(tops, p, q);
    assert (p + q[1..])[0] == a;
  }

  /** The first edge of a path. */
  lemma ReachesStep(tops: Lists, a: Queue, b: Queue)
    requires Reaches(tops, a, b)
    ensures exists e :: e in At(tops, a) && (e.bottom == b || Reaches(tops, e.bottom, b))
  {
    var p :| Path(tops, p) && |p| >= 2 && p[0] == a && Last(p) == b;
    assert Edge(tops, p[0], p[1]);
    var e :| e in At(tops, p[0]) && e.bottom == p[1];
    if |p| > 2 {
      var q := p[1..];
      forall i | 0 <= i < |q| - 1 ensures Edge(tops, q[i], q[i + 1]) {
        assert Edge(tops, p[i + 1], p[i + 2]);
      }
      assert Path(tops, q) && Last(q) == b;
    }
  }

  // ---------------------------------------------------------------- one more edge

  /** TAILQ_INSERT_HEAD */
  function InsertHead(lists: Lists, q: Queue, e: Entry): Lists {
    lists[q := [e] + At(lists, q)]
  }

  lemma EdgesAfter(tops: Lists, e: Entry, a: Queue, b: Queue)
    ensures Edge(InsertHead(tops, e.top, e), a, b) <==> Edge(tops, a, b) || (a == e.top && b == e.bottom)
  {
    var after := InsertHead(tops, e.top, e);
    if Edge(tops, a, b) {
      var x :| x in At(tops, a) && x.bottom == b;
      assert x in At(after, a);
    }
    if a == e.top && b == e.bottom {
      assert e in At(after, a);
    }
  }

  /** A path in the new graph that does not use the new edge is one in the old. */
  lemma PathBefore(tops: Lists, e: Entry, p: seq<Queue>)
    requires Path(InsertHead(tops, e.top, e), p)
    requires forall i :: 0 <= i < |p| - 1 ==> !(p[i] == e.top && p[i + 1] == e.bottom)
    ensures Path(tops, p)
  {
    forall i | 0 <= i < |p| - 1 ensures Edge(tops, p[i], p[i + 1]) {
      EdgesAfter(tops, e, p[i], p[i + 1]);
    }
  }

  lemma SubPath(tops: Lists, p: seq<Queue>, i: nat, j: nat)
    requires Path(tops, p) && i < j <= |p|
    ensures Path(tops, p[i..j])
  {
    var q := p[i..j];
    forall k | 0 <= k < |q| - 1 ensures Edge(tops, q[k], q[k + 1]) {
      assert Edge(tops, p[i + k], p[i + k + 1]);
    }
  }

  /** Going from the new edge's end to its start needs no new edge. */
  lemma {:induction false} BackWithout(tops: Lists, e: Entry, p: seq<Queue>)
    requires Path(InsertHead(tops, e.top, e), p) && |p| >= 2
    requires p[0] == e.bottom && Last(p) == e.top && e.top != e.bottom
    ensures Reaches(tops, e.bottom, e.top)
    decreases |p|
  {
    if i :| 0 <= i < |p| - 1 && p[i] == e.top && p[i + 1] == e.bottom {
      SubPath(InsertHead(tops, e.top, e), p, 0, i + 1);
      BackWithout(tops, e, p[0..i + 1]);
    } else {
      PathBefore(tops, e, p);
    }
  }

  /** A cycle through the new edge goes back from its end to its start. */
  lemma CycleGoesBack(tops: Lists, e: Entry, p: seq<Queue>, i: nat)
    requires Path(InsertHead(tops, e.top, e), p) && i < |p| - 1 && p[0] == Last(p)
    requires p[i] == e.top && p[i + 1] == e.bottom && e.top != e.bottom
    ensures Reaches(tops, e.bottom, e.top)
  {
    var after := InsertHead(tops, e.top, e);
    SubPath(after, p, i + 1, |p|);
    if i == 0 {
      BackWithout(tops, e, p[1..|p|]);
    } else {
      SubPath(after, p, 0, i + 1);
      PathConcat(after, p[i + 1..|p|], p[0..i + 1]);
      BackWithout(tops, e, p[i + 1..|p|] + p[0..i + 1][1..]);
    }
  }

  /** An edge keeps the graph acyclic exactly when it is no loop and there was no way back. */
  lemma AcyclicAfter(tops: Lists, e: Entry)
    requires Acyclic(tops)
    ensures Acyclic(InsertHead(tops, e.top, e)) <==> e.top != e.bottom && !Reaches(tops, e.bottom, e.top)
  {
    var after := InsertHead(tops, e.top, e);
    EdgesAfter(tops, e, e.top, e.bottom);
    ReachesEdge(after, e.top, e.bottom);
    if Reaches(tops, e.bottom, e.top) {
      ReachesKept(tops, e, e.bottom, e.top);
      ReachesTransitive(after, e.top, e.bottom, e.top);
    }
    if e.top != e.bottom && !Acyclic(after) {
      var q :| Reaches(after, q, q);
      var p :| Path(after, p) && |p| >= 2 && p[0] == q && Last(p) == q;
      if i :| 0 <= i < |p| - 1 && p[i] == e.top && p[i + 1] == e.bottom {
        CycleGoesBack(tops, e, p, i);
      } else {
        PathBefore(tops, e, p);
        assert Reaches(tops, q, q);
      }
    }
  }

  lemma ReachesKept(tops: Lists, e: Entry, a: Queue, b: Queue)
    requires Reaches(tops, a, b)
    ensures Reaches(InsertHead(tops, e.top, e), a, b)
  {
    var after := InsertHead(tops, e.top, e);
    var p :| Path(tops, p) && |p| >= 2 && p[0] == a && Last(p) == b;
    forall i | 0 <= i < |p| - 1 ensures Edge(after, p[i], p[i + 1]) {
      EdgesAfter(tops, e, p[i], p[i + 1]);
    }
    assert Path(after, p);
  }

  // ---------------------------------------------------------------- the search

  /** The entries of a report, last step first, lead from a to b. */
  ghost predicate Leads(tops: Lists, frames: seq<Entry>, a: Queue, b: Queue)
    decreases |frames|
  {
    if frames == [] then a == b
    else
      var e := frames[0];
      e in At(tops, e.top) && e.bottom == b && Leads(tops, frames[1..], a, e.top)
  }

  ghost predicate WellKept(tops: Lists) {
    forall q, e :: q in tops && e in tops[q] ==> e.top == q && e.bottom in tops
  }

  /** From q a cycle can be reached. */
  ghost predicate CycleFrom(tops: Lists, q: Queue) {
    exists r :: (r == q || Reaches(tops, q, r)) && Reaches(tops, r, r)
  }

  /** The search: no way found; the report of one, which ends it; or a queue whose lock it holds. */
  datatype Search = Clear | Found(frames: seq<Entry>) | Relock(queue: Queue)

  /** What a search that came back empty-handed has shown of the queues below `at`. */
  ghost predicate Searched(tops: Lists, top: Queue, at: Queue, held: set<Queue>) {
    !Reaches(tops, at, top) && !CycleFrom(tops, at) && forall q :: q in held ==> !Reaches(tops, at, q)
  }

  /** All entries searched: so is the queue they are on. */
  lemma AllSearched(tops: Lists, top: Queue, at: Queue, held: set<Queue>)
    requires at in held
    requires forall e :: e in At(tops, at) ==>
      e.bottom != top && e.bottom !in held && Searched(tops, top, e.bottom, held)
    ensures Searched(tops, top, at, held)
  {
    forall q | Reaches(tops, at, q)
      ensures q != top && q !in held && !Reaches(tops, q, q)
    {
      ReachesStep(tops, at, q);
      var e :| e in At(tops, at) && (e.bottom == q || Reaches(tops, e.bottom, q));
      assert Searched(tops, top, e.bottom, held);
    }
  }

  /**
    _dispatch_introspection_order_check, at queue `at` reached from `start` through `frames`, with
    the locks of `held` taken.  It ends; it comes back clear only without a way to `top` and without
    a cycle below; and it comes to a lock it holds only where there is a cycle.
  */
  method Check(tops: Lists, top: Queue, at: Queue, frames: seq<Entry>, ghost start: Queue, held: set<Queue>)
    returns (search: Search)
    requires WellKept(tops) && at in tops
    requires Leads(tops, frames, start, at)
    requires held <= tops.Keys && at !in held && forall q :: q in held ==> Reaches(tops, q, at)
    ensures search.Clear? ==> Searched(tops, top, at, held + {at})
    ensures search.Found? ==> Reaches(tops, at, top) && search.frames != [] && Leads(tops, search.frames, start, top)
    ensures search.Relock? ==> Reaches(tops, search.queue, search.queue)
                               && (search.queue in held + {at} || Reaches(tops, at, search.queue))
    decreases tops.Keys - held
  {
    hide Reaches;
    hide CycleFrom;
    hide Searched;
    var i := 0;
    while i < |tops[at]|
      invariant 0 <= i <= |tops[at]|
      invariant forall j :: 0 <= j < i ==>
        var c := tops[at][j].bottom;
        c != top && c !in held + {at} && Searched(tops, top, c, held + {at})
    {
      var e := tops[at][i];
      assert e in At(tops, at) && Edge(tops, at, e.bottom);
      ReachesEdge(tops, at, e.bottom);
      assert ([e] + frames)[1..] == frames;
      if e.bottom == top {
        return Found([e] + frames);
      }
      forall q | q in held ensures Reaches(tops, q, e.bottom) {
        ReachesTransitive(tops, q, at, e.bottom);
      }
      if e.bottom in held + {at} {
        return Relock(e.bottom);
      }
      search := Check(tops, top, e.bottom, [e] + frames, start, held + {at});
      if search.Found? {
        ReachesTransitive(tops, at, e.bottom, top);
        return;
      }
      if search.Relock? {
        Below(tops, at, e.bottom, search.queue);
        return;
      }
      SearchedLess(tops, top, e.bottom, held + {at}, (held + {at}) + {e.bottom});
      i := i + 1;
    }
    AllSearched(tops, top, at, held + {at});
    search := Clear;
  }

  lemma SearchedLess(tops: Lists, top: Queue, at: Queue, fewer: set<Queue>, held: set<Queue>)
    requires Searched(tops, top, at, held) && fewer <= held
    ensures Searched(tops, top, at, fewer)
  {
    hide Reaches;
    hide CycleFrom;
  }

  lemma Below(tops: Lists, a: Queue, b: Queue, c: Queue)
    requires Reaches(tops, a, b)
    ensures b == c || Reaches(tops, b, c) ==> Reaches(tops, a, c)
  {
    if Reaches(tops, b, c) {
      ReachesTransitive(tops, a, b, c);
    }
  }

  // ---------------------------------------------------------------- the two lists of every queue

  /** What is on a top list belongs there, and is on its bottom queue's bottom list. */
  ghost predicate TopsMirrored(tops: Lists, bottoms: Lists) {
    forall q, e :: q in tops && e in tops[q] ==> e.top == q && e.bottom in bottoms && e in bottoms[e.bottom]
  }

  ghost predicate BottomsMirrored(tops: Lists, bottoms: Lists) {
    forall q, e :: q in bottoms && e in bottoms[q] ==> e.bottom == q && e.top in tops && e in tops[e.top]
  }

  ghost predicate NoRepeats(lists: Lists) {
    forall q :: q in lists ==> NoDup(lists[q])
  }

  /** Every entry is on its top queue's top list and on its bottom queue's bottom list, once each. */
  ghost predicate Mirror(tops: Lists, bottoms: Lists) {
    && tops.Keys == bottoms.Keys && TopsMirrored(tops, bottoms) && BottomsMirrored(tops, bottoms)
    && NoRepeats(tops) && NoRepeats(bottoms)
  }

  /** One entry at most for each pair of queues. */
  ghost predicate OnePerPair(tops: Lists) {
    forall q, d, e :: q in tops && d in tops[q] && e in tops[q] && d.bottom == e.bottom ==> d == e
  }

  ghost predicate Consistent(tops: Lists, bottoms: Lists, next: nat) {
    && Mirror(tops, bottoms) && OnePerPair(tops)
    && forall q, e :: q in tops && e in tops[q] ==> e.id < next
  }

  lemma InsertNoRepeats(lists: Lists, q: Queue, e: Entry)
    requires NoRepeats(lists) && q in lists && e !in lists[q]
    ensures NoRepeats(InsertHead(lists, q, e))
  {
  }

  lemma InsertMirror(tops: Lists, bottoms: Lists, e: Entry)
    requires Mirror(tops, bottoms) && e.top in tops && e.bottom in tops && e !in tops[e.top]
    ensures Mirror(InsertHead(tops, e.top, e), InsertHead(bottoms, e.bottom, e))
  {
    assert e.bottom in bottoms && e !in bottoms[e.bottom];
    InsertNoRepeats(tops, e.top, e);
    InsertNoRepeats(bottoms, e.bottom, e);
    hide NoRepeats;
    var t, b := InsertHead(tops, e.top, e), InsertHead(bottoms, e.bottom, e);
    assert t.Keys == tops.Keys && b.Keys == bottoms.Keys;
    InsertTops(tops, bottoms, e);
    InsertBottoms(tops, bottoms, e);
    hide TopsMirrored;
    hide BottomsMirrored;
  }

  lemma InsertTops(tops: Lists, bottoms: Lists, e: Entry)
    requires TopsMirrored(tops, bottoms) && e.top in tops && e.bottom in bottoms
    ensures TopsMirrored(InsertHead(tops, e.top, e), InsertHead(bottoms, e.bottom, e))
  {
  }

  lemma InsertBottoms(tops: Lists, bottoms: Lists, e: Entry)
    requires BottomsMirrored(tops, bottoms) && e.top in tops && e.bottom in bottoms
    ensures BottomsMirrored(InsertHead(tops, e.top, e), InsertHead(bottoms, e.bottom, e))
  {
  }

  lemma InsertConsistent(tops: Lists, bottoms: Lists, next: nat, e: Entry)
    requires Consistent(tops, bottoms, next) && e.id == next && e.top in tops && e.bottom in tops
    requires !Edge(tops, e.top, e.bottom)
    ensures Consistent(InsertHead(tops, e.top, e), InsertHead(bottoms, e.bottom, e), next + 1)
  {
    assert e !in tops[e.top];
    InsertMirror(tops, bottoms, e);
    hide Mirror;
    forall d | d in tops[e.top] ensures d.bottom != e.bottom {
      assert d in At(tops, e.top);
    }
  }

  /** TAILQ_REMOVE */
  function Remove(list: seq<Entry>, e: Entry): seq<Entry> {
    if list == [] then []
    else if list[0] == e then list[1..]
    else [list[0]] + Remove(list[1..], e)
  }

  lemma {:induction false} Removed(list: seq<Entry>, e: Entry)
    requires NoDup(list)
    ensures NoDup(Remove(list, e)) && forall x :: x in Remove(list, e) <==> x in list && x != e
  {
    if list != [] && list[0] != e {
      Removed(list[1..], e);
      var rest := Remove(list[1..], e);
      forall i | 0 <= i < |rest| ensures rest[i] != list[0] {
        assert rest[i] in rest;
      }
    }
  }

  lemma ReachesMore(fewer: Lists, tops: Lists, a: Queue, b: Queue)
    requires Reaches(fewer, a, b) && forall q, e :: e in At(fewer, q) ==> e in At(tops, q)
    ensures Reaches(tops, a, b)
  {
    var p :| Path(fewer, p) && |p| >= 2 && p[0] == a && Last(p) == b;
    forall i | 0 <= i < |p| - 1 ensures Edge(tops, p[i], p[i + 1]) {
      assert Edge(fewer, p[i], p[i + 1]);
    }
    assert Path(tops, p);
  }

  /** Fewer entries, fewer paths. */
  lemma AcyclicFewer(tops: Lists, fewer: Lists)
    requires Acyclic(tops) && forall q, e :: e in At(fewer, q) ==> e in At(tops, q)
    ensures Acyclic(fewer)
  {
    forall q ensures !Reaches(fewer, q, q) {
      if Reaches(fewer, q, q) {
        ReachesMore(fewer, tops, q, q);
      }
    }
  }

  /** The queue at the other end of an entry on a top list (true) or on a bottom list. */
  function Other(e: Entry, onTop: bool): Queue {
    if onTop then e.bottom else e.top
  }

  /** A list without the entries whose other end is gone, the rest in order. */
  function Without(list: seq<Entry>, gone: Queue, onTop: bool): seq<Entry> {
    if list == [] then []
    else if Other(list[0], onTop) == gone then Without(list[1..], gone, onTop)
    else [list[0]] + Without(list[1..], gone, onTop)
  }

  lemma {:induction false} WithoutElements(list: seq<Entry>, gone: Queue, onTop: bool)
    ensures forall x :: x in Without(list, gone, onTop) <==> x in list && Other(x, onTop) != gone
    ensures NoDup(list) ==> NoDup(Without(list, gone, onTop))
  {
    if list != [] {
      var rest := Without(list[1..], gone, onTop);
      WithoutElements(list[1..], gone, onTop);
      if NoDup(list) {
        forall i | 0 <= i < |rest| ensures rest[i] != list[0] {
          assert rest[i] in rest;
        }
      }
    }
  }

  /** Removing one such entry changes nothing in what stays. */
  lemma {:induction false} WithoutRemove(list: seq<Entry>, e: Entry, gone: Queue, onTop: bool)
    requires Other(e, onTop) == gone
    ensures Without(Remove(list, e), gone, onTop) == Without(list, gone, onTop)
  {
    if list != [] && list[0] != e {
      WithoutRemove(list[1..], e, gone, onTop);
      var r := [list[0]] + Remove(list[1..], e);
      assert r[0] == list[0] && r[1..] == Remove(list[1..], e);
    }
  }

  lemma {:induction false} WithoutNone(list: seq<Entry>, gone: Queue, onTop: bool)
    requires forall x :: x in list ==> Other(x, onTop) != gone
    ensures Without(list, gone, onTop) == list
  {
    if list != [] {
      WithoutNone(list[1..], gone, onTop);
    }
  }

  /** The lists once dq is gone. */
  ghost function Cleared(lists: Lists, dq: Queue, onTop: bool): Lists {
    map q | q in lists :: if q == dq then [] else Without(lists[q], dq, onTop)
  }

  /** The lists without the entries whose other end is dq. */
  ghost function Dropped(lists: Lists, dq: Queue, onTop: bool): Lists {
    map q | q in lists :: Without(lists[q], dq, onTop)
  }

  /** Entries that lead to dq are all in `rest`, and otherwise the lists are as in `lists`. */
  ghost predicate Removing(lists: Lists, now: Lists, rest: seq<Entry>, dq: Queue, onTop: bool) {
    && now.Keys == lists.Keys && NoRepeats(now)
    && (forall q :: q in lists ==> Without(now[q], dq, onTop) == Without(lists[q], dq, onTop))
    && (forall q, e :: q in now && e in now[q] && Other(e, onTop) == dq ==> e in rest && Other(e, !onTop) == q)
  }

  lemma RemovedOne(lists: Lists, now: Lists, rest: seq<Entry>, dq: Queue, onTop: bool)
    requires Removing(lists, now, rest, dq, onTop) && rest != [] && Other(rest[0], onTop) == dq
    requires Other(rest[0], !onTop) in now
    ensures var q := Other(rest[0], !onTop);
      Removing(lists, now[q := Remove(now[q], rest[0])], rest[1..], dq, onTop)
  {
    var e := rest[0];
    var at := Other(e, !onTop);
    Removed(now[at], e);
    WithoutRemove(now[at], e, dq, onTop);
    var after := now[at := Remove(now[at], e)];
    assert after.Keys == now.Keys;
    hide Remove;
    hide Without;
    hide NoDup;
    forall q, x | q in after && x in after[q] && Other(x, onTop) == dq ensures x in rest[1..] && Other(x, !onTop) == q {
      assert x in now[q] && x in rest;
      assert x != e;
    }
  }

  /** Take the entries of one list, just emptied, off the lists at their other ends. */
  method RemoveAll(lists: Lists, head: seq<Entry>, dq: Queue, onTop: bool) returns (r: Lists)
    requires Removing(lists, lists, head, dq, onTop)
    requires forall e :: e in head ==> Other(e, onTop) == dq && Other(e, !onTop) in lists
    ensures r == Dropped(lists, dq, onTop)
  {
    r := lists;
    var rest := head;
    hide Removing;
    hide Remove;
    hide Dropped;
    while rest != []
      invariant r.Keys == lists.Keys && Removing(lists, r, rest, dq, onTop)
      invariant forall e :: e in rest ==> e in head
    {
      var e := rest[0];
      assert e in head && Other(e, !onTop) in lists.Keys;
      RemovedOne(lists, r, rest, dq, onTop);
      r := r[Other(e, !onTop) := Remove(r[Other(e, !onTop)], e)];
      rest := rest[1..];
    }
    AllRemoved(lists, r, dq, onTop);
  }

  lemma AllRemoved(lists: Lists, now: Lists, dq: Queue, onTop: bool)
    requires Removing(lists, now, [], dq, onTop)
    ensures now == Dropped(lists, dq, onTop)
  {
    forall q | q in lists ensures q in now && now[q] == Without(lists[q], dq, onTop) {
      assert q in now.Keys;
      WithoutNone(now[q], dq, onTop);
    }
    hide Without;
    assert Dropped(lists, dq, onTop).Keys == lists.Keys;
  }

  /** The first loop of the disposal can find what it is to remove ... */
  lemma FirstRemoval(tops: Lists, bottoms: Lists, dq: Queue)
    requires Mirror(tops, bottoms) && dq in tops
    ensures Removing(bottoms, bottoms, tops[dq], dq, false)
    ensures forall e :: e in tops[dq] ==> Other(e, false) == dq && Other(e, true) in bottoms
  {
  }

  /** ... and so can the second. */
  lemma SecondRemoval(tops: Lists, bottoms: Lists, dq: Queue)
    requires Mirror(tops, bottoms) && dq in tops && dq in bottoms
    ensures var head, rest := Without(bottoms[dq], dq, false), tops[dq := []];
      && Removing(rest, rest, head, dq, true)
      && forall e :: e in head ==> Other(e, true) == dq && Other(e, false) in rest
  {
    WithoutElements(bottoms[dq], dq, false);
    hide Without;
    var rest := tops[dq := []];
    assert NoRepeats(rest) by {
      assert forall q :: q in tops ==> NoDup(tops[q]);
    }
    hide NoRepeats;
    hide NoDup;
  }

  lemma ClearedAt(lists: Lists, dq: Queue, onTop: bool, q: Queue)
    requires q in lists
    ensures q in Cleared(lists, dq, onTop)
    ensures forall e :: e in Cleared(lists, dq, onTop)[q] <==> e in lists[q] && q != dq && Other(e, onTop) != dq
    ensures NoDup(lists[q]) ==> NoDup(Cleared(lists, dq, onTop)[q])
  {
    WithoutElements(lists[q], dq, onTop);
  }

  ghost predicate ClearedOk(lists: Lists, cleared: Lists, dq: Queue, onTop: bool) {
    && cleared.Keys == lists.Keys
    && forall q :: q in lists ==> ListOk(lists[q], cleared, dq, onTop, q)
  }

  ghost predicate ListOk(list: seq<Entry>, cleared: Lists, dq: Queue, onTop: bool, q: Queue) {
    q in cleared && forall e :: e in cleared[q] <==> e in list && q != dq && Other(e, onTop) != dq
  }

  lemma ClearedParts(lists: Lists, dq: Queue, onTop: bool)
    requires NoRepeats(lists)
    ensures ClearedOk(lists, Cleared(lists, dq, onTop), dq, onTop) && NoRepeats(Cleared(lists, dq, onTop))
  {
    forall q | q in lists
      ensures ListOk(lists[q], Cleared(lists, dq, onTop), dq, onTop, q)
      ensures q in Cleared(lists, dq, onTop) && NoDup(Cleared(lists, dq, onTop)[q])
    {
      ClearedAt(lists, dq, onTop, q);
    }
    assert Cleared(lists, dq, onTop).Keys == lists.Keys;
    hide Cleared;
    hide NoDup;
  }

  lemma ClearedTops(tops: Lists, bottoms: Lists, t: Lists, b: Lists, dq: Queue)
    requires tops.Keys == bottoms.Keys && TopsMirrored(tops, bottoms)
    requires ClearedOk(tops, t, dq, true) && ClearedOk(bottoms, b, dq, false)
    ensures TopsMirrored(t, b)
  {
    forall q, e | q in t && e in t[q] ensures e.top == q && e.bottom in b && e in b[e.bottom] {
      assert q in tops.Keys && ListOk(tops[q], t, dq, true, q);
      assert e.bottom in bottoms.Keys && ListOk(bottoms[e.bottom], b, dq, false, e.bottom);
      assert Other(e, false) != dq;
      assert e.bottom in b.Keys;
    }
  }

  lemma ClearedBottoms(tops: Lists, bottoms: Lists, t: Lists, b: Lists, dq: Queue)
    requires tops.Keys == bottoms.Keys && BottomsMirrored(tops, bottoms)
    requires ClearedOk(tops, t, dq, true) && ClearedOk(bottoms, b, dq, false)
    ensures BottomsMirrored(t, b)
  {
    forall q, e | q in b && e in b[q] ensures e.bottom == q && e.top in t && e in t[e.top] {
      assert q in bottoms.Keys && ListOk(bottoms[q], b, dq, false, q);
      assert e.top in tops.Keys && ListOk(tops[e.top], t, dq, true, e.top);
      assert Other(e, true) != dq;
      assert e.top in t.Keys;
    }
  }

  lemma ClearedConsistent(tops: Lists, bottoms: Lists, next: nat, dq: Queue)
    requires Consistent(tops, bottoms, next)
    ensures Consistent(Cleared(tops, dq, true), Cleared(bottoms, dq, false), next)
    ensures forall q, e :: e in At(Cleared(tops, dq, true), q) ==> e in At(tops, q)
  {
    var t, b := Cleared(tops, dq, true), Cleared(bottoms, dq, false);
    ClearedParts(tops, dq, true);
    ClearedParts(bottoms, dq, false);
    hide Cleared;
    hide NoRepeats;
    hide TopsMirrored;
    hide BottomsMirrored;
    ClearedTops(tops, bottoms, t, b, dq);
    ClearedBottoms(tops, bottoms, t, b, dq);
    assert t.Keys == tops.Keys;
    FewerOk(tops, t, next, dq);
    hide OnePerPair;
    hide ClearedOk;
  }

  lemma FewerOk(tops: Lists, t: Lists, next: nat, dq: Queue)
    requires ClearedOk(tops, t, dq, true) && OnePerPair(tops)
    requires forall q, e :: q in tops && e in tops[q] ==> e.id < next
    ensures OnePerPair(t) && forall q, e :: q in t && e in t[q] ==> e.id < next
    ensures forall q, e :: e in At(t, q) ==> e in At(tops, q)
  {
    forall q, e | q in t && e in t[q] ensures q in tops && e in tops[q] {
      assert q in tops.Keys && ListOk(tops[q], t, dq, true, q);
    }
  }

  lemma ClearedIs(lists: Lists, dq: Queue, onTop: bool)
    requires dq in lists
    ensures dq in Dropped(lists, dq, onTop) && Dropped(lists, dq, onTop)[dq] == Without(lists[dq], dq, onTop)
    ensures Dropped(lists, dq, onTop)[dq := []] == Cleared(lists, dq, onTop)
    ensures Dropped(lists[dq := []], dq, onTop) == Cleared(lists, dq, onTop)
  {
  }

  /** The two loops of _dispatch_introspection_queue_order_dispose. */
  method Detach(tops: Lists, bottoms: Lists, ghost next: nat, dq: Queue) returns (t: Lists, b: Lists)
    requires Consistent(tops, bottoms, next) && dq in tops
    ensures t == Cleared(tops, dq, true) && b == Cleared(bottoms, dq, false)
  {
    DisposeOk(tops, bottoms, next, dq);
    ClearedIs(tops, dq, true);
    ClearedIs(bottoms, dq, false);
    hide *;
    t := tops[dq := []];
    b := RemoveAll(bottoms, tops[dq], dq, false);
    var head := b[dq];
    b := b[dq := []];
    t := RemoveAll(t, head, dq, true);
  }

  lemma DisposeOk(tops: Lists, bottoms: Lists, next: nat, dq: Queue)
    requires Consistent(tops, bottoms, next) && dq in tops
    ensures dq in bottoms && Removing(bottoms, bottoms, tops[dq], dq, false)
    ensures forall e :: e in tops[dq] ==> Other(e, false) == dq && Other(e, true) in bottoms
    ensures var head, rest := Without(bottoms[dq], dq, false), tops[dq := []];
      && Removing(rest, rest, head, dq, true)
      && forall e :: e in head ==> Other(e, true) == dq && Other(e, false) in rest
    ensures Consistent(Cleared(tops, dq, true), Cleared(bottoms, dq, false), next)
    ensures Acyclic(tops) ==> Acyclic(Cleared(tops, dq, true))
  {
    assert dq in bottoms.Keys;
    FirstRemoval(tops, bottoms, dq);
    SecondRemoval(tops, bottoms, dq);
    ClearedConsistent(tops, bottoms, next, dq);
    if Acyclic(tops) {
      AcyclicFewer(tops, Cleared(tops, dq, true));
    }
  }

  /** do_targetq: a root queue has none. */
  type Targets = map<Queue, Queue>

  /** The number of target links below q, when there is an end to them. */
  ghost predicate Ranked(targets: Targets, rank: map<Queue, nat>) {
    forall q :: q in targets ==> q in rank && targets[q] in rank && rank[targets[q]] < rank[q]
  }

  /** The queue just above the root in q's chain of targets. */
  function BottomTarget(targets: Targets, rank: map<Queue, nat>, q: Queue): Queue
    requires Ranked(targets, rank) && q in targets
    decreases rank[q]
  {
    if targets[q] in targets then BottomTarget(targets, rank, targets[q]) else q
  }

  /** The queue n targets below q. */
  function TargetAt(targets: Targets, q: Queue, n: nat): Option<Queue>
    decreases n
  {
    if n == 0 then Some(q) else if q in targets then TargetAt(targets, targets[q], n - 1) else None
  }

  ghost predicate LeadsTo(targets: Targets, q: Queue, r: Queue) {
    exists n: nat :: TargetAt(targets, q, n) == Some(r)
  }

  /** It is the one queue below q, or q itself, whose target is a root. */
  lemma {:induction false} BottomIsTargetAt(targets: Targets, rank: map<Queue, nat>, q: Queue)
    requires Ranked(targets, rank) && q in targets
    ensures var r := BottomTarget(targets, rank, q); r in targets && targets[r] !in targets && LeadsTo(targets, q, r)
    decreases rank[q]
  {
    if targets[q] in targets {
      BottomIsTargetAt(targets, rank, targets[q]);
      var n: nat :| TargetAt(targets, targets[q], n) == Some(BottomTarget(targets, rank, q));
      assert TargetAt(targets, q, n + 1) == TargetAt(targets, targets[q], n);
    } else {
      assert TargetAt(targets, q, 0) == Some(q);
    }
  }

  lemma {:induction false} BottomIsOnly(targets: Targets, rank: map<Queue, nat>, q: Queue, n: nat)
    requires Ranked(targets, rank) && q in targets && TargetAt(targets, q, n).Some?
    requires var r := TargetAt(targets, q, n).value; r in targets && targets[r] !in targets
    ensures TargetAt(targets, q, n) == Some(BottomTarget(targets, rank, q))
    decreases n
  {
    if n > 0 {
      assert targets[q] in targets || n == 1;
      BottomIsOnly(targets, rank, targets[q], n - 1);
    }
  }

  /** _dispatch_queue_bottom_target_queue */
  method FindBottomTarget(targets: Targets, ghost rank: map<Queue, nat>, start: Queue) returns (q: Queue)
    requires Ranked(targets, rank) && start in targets
    ensures q in targets && targets[q] !in targets && q == BottomTarget(targets, rank, start)
    ensures LeadsTo(targets, start, q)
    ensures forall n: nat :: TargetAt(targets, start, n).Some? ==>
              var r := TargetAt(targets, start, n).value; r in targets && targets[r] !in targets ==> r == q
  {
    BottomIsTargetAt(targets, rank, start);
    forall n: nat | TargetAt(targets, start, n).Some?
      ensures var r := TargetAt(targets, start, n).value;
        r in targets && targets[r] !in targets ==> r == BottomTarget(targets, rank, start)
    {
      var r := TargetAt(targets, start, n).value;
      if r in targets && targets[r] !in targets {
        BottomIsOnly(targets, rank, start, n);
      }
    }
    q := start;
    while targets[q] in targets
      invariant q in targets && BottomTarget(targets, rank, q) == BottomTarget(targets, rank, start)
      decreases rank[q]
    {
      q := targets[q];
    }
  }

  /** An acyclic graph has no cycle to come to. */
  lemma NoCycles(tops: Lists, b: Queue)
    ensures Acyclic(tops) ==> !CycleFrom(tops, b)
  {
  }

  /** ... and no edge, nor a way, from a queue to itself. */
  lemma OutcomeOf(tops: Lists, a: Queue, b: Queue)
    ensures Acyclic(tops) && a == b ==> !Edge(tops, a, b) && !Reaches(tops, b, a)
    ensures Acyclic(tops) && Edge(tops, a, b) ==> a != b
  {
    if Edge(tops, a, b) {
      ReachesEdge(tops, a, b);
    }
  }

  /** Relocked: the search has come to a queue whose lock it holds. */
  datatype Outcome = NotChecked | Known | Inversion(frames: seq<Entry>) | Recorded | Relocked

  class Order {
    const targets: Targets
    ghost const rank: map<Queue, nat>
    var tops: Lists      // diq_order_top_head of each queue
    var bottoms: Lists   // diq_order_bottom_head
    var next: nat

    ghost predicate Valid()
      reads this
    {
      && Ranked(targets, rank) && Consistent(tops, bottoms, next)
      && (forall q :: q in targets ==> q in tops)
    }

    constructor (targets: Targets, ghost rank: map<Queue, nat>)
      requires Ranked(targets, rank)
      ensures Valid() && Acyclic(tops) && this.targets == targets && this.rank == rank
      ensures forall q :: At(tops, q) == []
    {
      this.targets, this.rank := targets, rank;
      tops := map q | q in targets :: [];
      bottoms := map q | q in targets :: [];
      next := 0;
      new;
      forall q ensures !Reaches(tops, q, q) {
        if Reaches(tops, q, q) {
          ReachesStep(tops, q, q);
        }
      }
    }

    /** The scan of a top list for an entry to the same bottom queue. */
    method IsKnown(top: Queue, bottom: Queue) returns (known: bool)
      requires top in tops
      ensures known <==> Edge(tops, top, bottom)
    {
      var i := 0;
      while i < |tops[top]|
        invariant 0 <= i <= |tops[top]|
        invariant forall j :: 0 <= j < i ==> tops[top][j].bottom != bottom
      {
        if tops[top][i].bottom == bottom {
          assert tops[top][i] in At(tops, top);
          return true;
        }
        i := i + 1;
      }
      known := false;
    }

    /**
      _dispatch_introspection_order_record.  On an acyclic graph it reports an inversion exactly when
      there is a way back already, and what it records keeps the graph acyclic exactly when the two
      bottom targets differ, which nothing checks.  Once there is a cycle, a call whose search comes
      to it, and finds no way back first, takes a lock it holds.
    */
    method Record(topQ: Queue, bottomQ: Option<Queue>) returns (outcome: Outcome)
      requires Valid()
      modifies this
      ensures Valid()
      ensures outcome.NotChecked? <==> bottomQ.None? || bottomQ.value !in targets || topQ !in targets
      ensures !outcome.Recorded? ==> unchanged(this)
      ensures !outcome.NotChecked? ==>
        var a, b := BottomTarget(targets, rank, topQ), BottomTarget(targets, rank, bottomQ.value);
        && (outcome.Known? <==> Edge(old(tops), a, b))
        && (outcome.Inversion? ==> Reaches(old(tops), b, a))
        && (outcome.Inversion? ==> outcome.frames != [] && Leads(old(tops), outcome.frames, b, a))
        && (outcome.Relocked? ==> CycleFrom(old(tops), b))
        && (outcome.Recorded? ==> !Reaches(old(tops), b, a) && !CycleFrom(old(tops), b))
        && (outcome.Recorded? ==>
              && tops == old(tops)[a := [Entry(old(next), a, b)] + At(old(tops), a)]
              && bottoms == old(bottoms)[b := [Entry(old(next), a, b)] + At(old(bottoms), b)])
        && (old(Acyclic(tops)) ==>
              && !outcome.Relocked? && (a == b ==> outcome.Recorded?)
              && (outcome.Inversion? <==> !Edge(old(tops), a, b) && Reaches(old(tops), b, a))
              && (Acyclic(tops) <==> a != b))
    {
      if bottomQ.None? || bottomQ.value !in targets || topQ !in targets {
        return NotChecked;
      }
      var a := FindBottomTarget(targets, rank, topQ);
      var b := FindBottomTarget(targets, rank, bottomQ.value);
      NoCycles(tops, b);
      OutcomeOf(tops, a, b);
      var known := IsKnown(a, b);
      if known {
        return Known;
      }
      var search := Check(tops, a, b, [], b, {});
      if search.Found? {
        return Inversion(search.frames);
      }
      if search.Relock? {
        return Relocked;
      }
      var e := Entry(next, a, b);
      known := IsKnown(a, b);
      if known {
        assert false;  // nobody recorded it meanwhile
      }
      InsertConsistent(tops, bottoms, next, e);
      if Acyclic(tops) {
        AcyclicAfter(tops, e);
      }
      hide Consistent;
      hide Acyclic;
      hide Reaches;
      hide Edge;
      tops := InsertHead(tops, a, e);
      bottoms := InsertHead(bottoms, b, e);
      next := next + 1;
      outcome := Recorded;
    }

    /** _dispatch_introspection_queue_order_dispose: dq's entries leave both lists they are on. */
    method Dispose(dq: Queue)
      requires Valid() && dq in tops
      modifies `tops, `bottoms
      ensures Valid() && (old(Acyclic(tops)) ==> Acyclic(tops))
      ensures tops == Cleared(old(tops), dq, true) && bottoms == Cleared(old(bottoms), dq, false)
    {
      DisposeOk(tops, bottoms, next, dq);
      assert tops.Keys == Cleared(tops, dq, true).Keys;
      hide Consistent;
      hide Acyclic;
      hide Cleared;
      tops, bottoms := Detach(tops, bottoms, next, dq);
    }
  }

  /**
    Any two queues with one bottom target x, and any queue on another: a dispatch_sync between the
    first two is recorded without a report, and the next one from the third onto either of them
    ends in a lock taken twice.
  */
  method SameBottomTarget(targets: Targets, ghost rank: map<Queue, nat>, p: Queue, q: Queue, other: Queue)
    returns (first: Outcome, second: Outcome)
    requires Ranked(targets, rank) && p in targets && q in targets && other in targets
    requires BottomTarget(targets, rank, p) == BottomTarget(targets, rank, q) != BottomTarget(targets, rank, other)
    ensures first.Recorded? && second.Relocked?
  {
    ghost var x, z := BottomTarget(targets, rank, p), BottomTarget(targets, rank, other);
    var order := new Order(targets, rank);
    ghost var empty, n := order.tops, order.next;
    hide Acyclic;
    hide Consistent;
    hide Reaches;
    hide Edge;
    hide CycleFrom;
    first := order.Record(p, Some(q));
    LoopOnly(empty, order.tops, Entry(n, x, x), z);
    second := order.Record(other, Some(p));
  }

  /** A graph of one loop. */
  lemma LoopOnly(empty: Lists, tops: Lists, e: Entry, z: Queue)
    requires (forall q :: At(empty, q) == []) && e.top == e.bottom != z && tops == InsertHead(empty, e.top, e)
    ensures CycleFrom(tops, e.top) && !Edge(tops, z, e.top) && !Reaches(tops, e.top, z)
  {
    EdgesAfter(empty, e, e.top, e.top);
    ReachesEdge(tops, e.top, e.top);
    if Edge(tops, z, e.top) {
      EdgesAfter(empty, e, z, e.top);
    }
    if Reaches(tops, e.top, z) {
      var p :| Path(tops, p) && |p| >= 2 && p[0] == e.top && Last(p) == z;
      var n := |p|;
      assert Edge(tops, p[n - 2], p[n - 1]);
      EdgesAfter(empty, e, p[n - 2], p[n - 1]);
    }
  }
}
