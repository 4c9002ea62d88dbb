// Waitlist arithmetic: the next position, the three ways the service computes
// a rank, the promoted prefix, and the admin renumbering.
module Waitlist {
  import opened Registry

  // -------------------------------------------------------- assignPosition

  function Positions(rows: map<RowId, Row>): set<nat> {
    set id | id in rows && rows[id].status.WAITLISTED? && rows[id].position.Some? :: rows[id].Pos()
  }

  predicate IsGreatest(s: set<nat>, x: nat) { x in s && forall y | y in s :: y <= x }

  lemma MaxExists(s: set<nat>)
    requires s != {}
    ensures exists x :: IsGreatest(s, x)
    decreases s
  {
    var x :| x in s;
    if s == {x} {
      assert IsGreatest(s, x);
    } else {
      var rest := s - {x};
      MaxExists(rest);
      var m :| IsGreatest(rest, m);
      var best := if m < x then x else m;
      forall y | y in s
        ensures y <= best
      {
        assert y == x || y in rest;
      }
      assert IsGreatest(s, best);
    }
  }

  // aggregate _max, with null (no rows) read as 0.
  function MaxOf(s: set<nat>): (m: nat)
    ensures forall y <- s :: y <= m
    ensures s != {} ==> m in s
  {
    if s == {} then 0 else
      MaxExists(s);
      var x: nat :| IsGreatest(s, x);
      x
  }

  // One behind the last, and 1 on an empty waitlist.
  function NextPosition(rows: map<RowId, Row>): (p: nat)
    ensures forall id <- Waiting(rows) :: rows[id].Pos() < p
    ensures p == 1 || exists id <- Waiting(rows) :: rows[id].Pos() == p - 1
    ensures Waiting(rows) == {} ==> p == 1
  {
    var m := MaxOf(Positions(rows));
    assert forall id <- Waiting(rows) | rows[id].position.Some? :: rows[id].Pos() in Positions(rows);
    m + 1
  }

  // ----------------------------------------------------------------- ranks

  // SELECT count(*) ... AND "waitlistPosition" <= p.
  function AtOrBelow(rows: map<RowId, Row>, p: nat): set<RowId> {
    set id | id in rows && rows[id].status.WAITLISTED? && rows[id].position.Some? && rows[id].Pos() <= p
  }

  function Rank(rows: map<RowId, Row>, p: nat): nat { |AtOrBelow(rows, p)| }

  lemma OrderedFacts(rows: map<RowId, Row>)
    requires PositionsOk(rows)
    ensures var o := Ordered(rows);
            Distinct(o) && Elems(o) == Waiting(rows) && |o| == |Waiting(rows)|
            && (forall k | 0 <= k < |o| :: o[k] in Waiting(rows))
            && (forall i, j | 0 <= i < j < |o| :: rows[o[i]].Pos() < rows[o[j]].Pos())
  {
    OrderOfSorted(rows, Waiting(rows));
    var o := Ordered(rows);
    assert forall k | 0 <= k < |o| :: o[k] in Elems(o);
    forall i, j | 0 <= i < j < |o|
      ensures rows[o[i]].Pos() < rows[o[j]].Pos()
    {
      assert Before(rows, o[i], o[j]) && o[i] != o[j];
    }
  }

  lemma OrderedInRows(rows: map<RowId, Row>)
    ensures forall id <- Ordered(rows) :: id in Waiting(rows)
    ensures forall k | 0 <= k < |Ordered(rows)| :: Ordered(rows)[k] in rows
  {
    OrderOfSorted(rows, Waiting(rows));
    assert forall id <- Ordered(rows) :: id in Elems(Ordered(rows));
    assert forall k | 0 <= k < |Ordered(rows)| :: Ordered(rows)[k] in Ordered(rows);
  }

  // computeRank and the index in the ordered list agree: the k-th row of the
  // list has rank k + 1, so ranks are a bijection onto 1..n.
  lemma RankIsIndex(rows: map<RowId, Row>, k: nat)
    requires PositionsOk(rows) && k < |Ordered(rows)|
    ensures Ordered(rows)[k] in Waiting(rows)
    ensures Rank(rows, rows[Ordered(rows)[k]].Pos()) == k + 1
  {
    OrderedFacts(rows);
    var o := Ordered(rows);
    var t := o[..k + 1];
    var p := rows[o[k]].Pos();
    forall id
      ensures id in AtOrBelow(rows, p) <==> id in Elems(t)
    {
      if id in AtOrBelow(rows, p) {
        assert id in Elems(o);
        var i :| 0 <= i < |o| && o[i] == id;
        assert i <= k;
        assert t[i] == id;
      }
    }
    assert AtOrBelow(rows, p) == Elems(t);
    DistinctCard(t);
  }

  lemma RankedBy(rows: map<RowId, Row>, id: RowId) returns (k: nat)
    requires PositionsOk(rows) && id in Waiting(rows)
    ensures k < |Ordered(rows)| && Ordered(rows)[k] == id && Rank(rows, rows[id].Pos()) == k + 1
  {
    OrderedFacts(rows);
    assert id in Elems(Ordered(rows));
    k :| 0 <= k < |Ordered(rows)| && Ordered(rows)[k] == id;
    RankIsIndex(rows, k);
  }

  // ------------------------------------------------------------- promotion

  function Seat(r: Row): Row { Row(r.student, ENROLLED, None) }

  function Release(r: Row): Row { Row(r.student, DROPPED, None) }

  // Every row of `ids` moved to ENROLLED with its position cleared.
  function Seated(rows: map<RowId, Row>, ids: seq<RowId>): map<RowId, Row> {
    map id | id in rows :: if id in ids then Seat(rows[id]) else rows[id]
  }

  // Every row of `ids` moved to DROPPED with its position cleared.
  function Released(rows: map<RowId, Row>, ids: seq<RowId>): map<RowId, Row> {
    map id | id in rows :: if id in ids then Release(rows[id]) else rows[id]
  }

  // The rows a promotion must seat: the first min(free seats, waiters).
  function Promotable(sec: Section): seq<RowId> {
    var o := Ordered(sec.rows);
    var free := sec.cols.capacity - sec.cols.enrolledCount;
    if free <= 0 then [] else if free < |o| then o[..free] else o
  }

  lemma {:induction false} OrderSuffix(rows: map<RowId, Row>, w: set<RowId>, k: nat)
    requires w <= rows.Keys && k <= |OrderOf(rows, w)|
    ensures OrderOf(rows, w - Elems(OrderOf(rows, w)[..k])) == OrderOf(rows, w)[k..]
    decreases k
  {
    var o := OrderOf(rows, w);
    if k == 0 {
      assert Elems(o[..0]) == {};
      assert w - {} == w;
    } else {
      OrderSuffix(rows, w - {o[0]}, k - 1);
      var t := OrderOf(rows, w - {o[0]});
      assert o == [o[0]] + t;
      assert o[..k] == [o[0]] + t[..k - 1];
      assert Elems(o[..k]) == {o[0]} + Elems(t[..k - 1]);
      assert w - Elems(o[..k]) == w - {o[0]} - Elems(t[..k - 1]);
    }
  }

  // After the first k waiters are seated, the waitlist is the remaining suffix.
  lemma SeatedOrder(rows: map<RowId, Row>, k: nat)
    requires k <= |Ordered(rows)|
    ensures Ordered(Seated(rows, Ordered(rows)[..k])) == Ordered(rows)[k..]
    ensures Waiting(Seated(rows, Ordered(rows)[..k])) == Waiting(rows) - Elems(Ordered(rows)[..k])
  {
    var o := Ordered(rows);
    var w := Waiting(rows);
    var rows' := Seated(rows, o[..k]);
    assert Waiting(rows') == w - Elems(o[..k]);
    OrderSuffix(rows, w, k);
    OrderOfFrame(rows, rows', w - Elems(o[..k]));
  }

  lemma SeatedSnoc(rows: map<RowId, Row>, ids: seq<RowId>, id: RowId)
    requires id in rows
    ensures Seated(rows, ids + [id]) == Seated(rows, ids)[id := Seat(Seated(rows, ids)[id])]
    ensures Seated(rows, []) == rows
  {
    forall i <- rows
      ensures i in ids + [id] <==> i in ids || i == id
    {
      if i in ids { var k :| 0 <= k < |ids| && ids[k] == i; assert (ids + [id])[k] == i; }
      assert (ids + [id])[|ids|] == id;
    }
  }

  lemma ReleasedSnoc(rows: map<RowId, Row>, ids: seq<RowId>, id: RowId)
    requires id in rows
    ensures Released(rows, ids + [id]) == Released(rows, ids)[id := Release(Released(rows, ids)[id])]
    ensures Released(rows, []) == rows
  {
    forall i <- rows
      ensures i in ids + [id] <==> i in ids || i == id
    {
      if i in ids { var k :| 0 <= k < |ids| && ids[k] == i; assert (ids + [id])[k] == i; }
      assert (ids + [id])[|ids|] == id;
    }
  }

  // --------------------------------------------------------------- reorder

  function IndexOf(order: seq<RowId>, id: RowId): (k: nat)
    requires id in order
    ensures k < |order| && order[k] == id
  {
    if order[0] == id then 0 else 1 + IndexOf(order[1..], id)
  }

  // Every row of `order` given its 1-based index there as its new position.
  function Renumbered(rows: map<RowId, Row>, order: seq<RowId>): map<RowId, Row> {
    map id | id in rows ::
      if id in order then rows[id].(position := Some(IndexOf(order, id) + 1)) else rows[id]
  }

  lemma RenumberedSnoc(rows: map<RowId, Row>, order: seq<RowId>, id: RowId)
    requires id in rows && id !in order
    ensures Renumbered(rows, order + [id])
         == Renumbered(rows, order)[id := Renumbered(rows, order)[id].(position := Some(|order| + 1))]
    ensures Renumbered(rows, []) == rows
  {
    var all := order + [id];
    forall i <- rows
      ensures i in all <==> i in order || i == id
      ensures i in order ==> IndexOf(all, i) == IndexOf(order, i)
    {
      if i in order {
        var k :| 0 <= k < |order| && order[k] == i; assert all[k] == i;
        IndexOfPrefix(order, [id], i);
      }
      assert all[|order|] == id;
    }
    IndexOfLast(order, id);
  }

  lemma {:induction false} IndexOfPrefix(a: seq<RowId>, b: seq<RowId>, id: RowId)
    requires id in a && id in a + b
    ensures IndexOf(a + b, id) == IndexOf(a, id)
  {
    if a[0] != id {
      assert (a + b)[1..] == a[1..] + b;
      assert id in a[1..] && id in a[1..] + b;
      IndexOfPrefix(a[1..], b, id);
    }
  }

  lemma {:induction false} IndexOfLast(a: seq<RowId>, id: RowId)
    requires id !in a && id in a + [id]
    ensures IndexOf(a + [id], id) == |a|
  {
    if a != [] {
      assert (a + [id])[1..] == a[1..] + [id];
      IndexOfLast(a[1..], id);
    }
  }

  lemma {:induction false} SortedUnique(rows: map<RowId, Row>, w: set<RowId>, s: seq<RowId>)
    requires w <= rows.Keys && Distinct(s) && Elems(s) == w
    requires forall i, j | 0 <= i < j < |s| :: s[i] in rows && s[j] in rows && Before(rows, s[i], s[j])
    ensures OrderOf(rows, w) == s
    decreases |s|
  {
    if s == [] {
      assert w == {};
    } else {
      assert s[0] in w;
      var id := First(rows, w);
      assert id in Elems(s);
      var k :| 0 <= k < |s| && s[k] == id;
      assert Before(rows, id, s[0]);
      assert k == 0;
      var t := s[1..];
      assert s == [s[0]] + t;
      assert s[0] !in t;
      assert Elems(t) == w - {id} by {
        assert forall x :: x in s <==> x == s[0] || x in t;
      }
      SortedUnique(rows, w - {id}, t);
    }
  }

  // reorder realises exactly the submitted permutation.
  lemma RenumberedOrder(rows: map<RowId, Row>, order: seq<RowId>)
    requires PositionsOk(rows) && Distinct(order) && Elems(order) == Waiting(rows)
    ensures Ordered(Renumbered(rows, order)) == order
    ensures PositionsOk(Renumbered(rows, order))
  {
    var rows' := Renumbered(rows, order);
    assert forall id <- rows :: id in order <==> id in Elems(order);
    assert forall id <- rows :: rows'[id].status == rows[id].status;
    assert Waiting(rows') == Waiting(rows);
    RenumberedPositions(rows, order);
    hide PositionsOk;
    forall i, j | 0 <= i < j < |order|
      ensures order[i] in rows' && order[j] in rows' && Before(rows', order[i], order[j])
    {
      assert order[i] in Elems(order) && order[j] in Elems(order);
      assert IndexOf(order, order[i]) == i && IndexOf(order, order[j]) == j;
    }
    hide Renumbered, IndexOf, Before;
    SortedUnique(rows', Waiting(rows'), order);
  }

  lemma RenumberedPositions(rows: map<RowId, Row>, order: seq<RowId>)
    requires PositionsOk(rows) && Distinct(order) && Elems(order) == Waiting(rows)
    ensures PositionsOk(Renumbered(rows, order))
  {
    assert forall id <- rows :: id in order <==> id in Elems(order);
  }
}
