// What one promotion run and one waitlist join mean for the queue.
module Promotion {
  import opened Registry
  import opened Waitlist
  import opened Operations
  import opened Seats

  function Min(a: int, b: int): int { if a < b then a else b }

  lemma PromotableIs(sec: Section)
    requires SeatInvariant(sec)
    ensures var ids := Promotable(sec);
            |ids| == Min(sec.cols.capacity - sec.cols.enrolledCount, |Waiting(sec.rows)|)
            && |ids| <= |Ordered(sec.rows)| && ids == Ordered(sec.rows)[..|ids|]
  {
    OrderedFacts(sec.rows);
    var o, ids := Ordered(sec.rows), Promotable(sec);
    assert o[..|o|] == o && o[..0] == [];
    hide Ordered, Waiting, PositionsOk, OneActive, Enrolled;
  }

  // Each seated row: one event and one notification, in position order.
  lemma PromotionEach(sec: Section, s: SectionId, i: nat)
    requires SeatInvariant(sec) && i < |Promotable(sec)|
    ensures var fx, o := PromoteFx(sec, s), Ordered(sec.rows);
            && |fx.events| == |fx.notes| == |Promotable(sec)| <= |o| && o[i] in sec.rows
            && fx.events[i] == Promoted(o[i], s, sec.rows[o[i]].position)
            && fx.notes[i] == PromotedNote(sec.rows[o[i]].student, o[i], s) && o[i] in Enrolled(fx.sec.rows)
  {
    var ids, o := Promotable(sec), Ordered(sec.rows);
    PromotableIs(sec);
    OrderedInRows(sec.rows);
    hide Ordered, SeatInvariant, Promotable;
    assert ids[i] == o[i] && o[i] in ids;
  }

  lemma PromotionRest(sec: Section, s: SectionId)
    requires SeatInvariant(sec)
    ensures var fx, k := PromoteFx(sec, s), |Promotable(sec)|;
            && k <= |Ordered(sec.rows)| && Ordered(fx.sec.rows) == Ordered(sec.rows)[k..]
            && |Waiting(fx.sec.rows)| == |Waiting(sec.rows)| - k
  {
    var k := |Promotable(sec)|;
    PromotableIs(sec);
    PromoteKeeps(sec, s);
    SeatedOrder(sec.rows, k);
    OrderedFacts(sec.rows);
    assert PositionsOk(PromoteFx(sec, s).sec.rows);
    OrderedFacts(PromoteFx(sec, s).sec.rows);
    hide Ordered, SeatInvariant, PositionsOk, Promotable, Seated, Waiting;
  }

  // A run seats exactly the first min(free seats, waiters) rows in position
  // order, one event and one notification each, leaves the rest in order, and
  // leaves the section full or its waitlist empty.
  lemma PromotionExact(sec: Section, s: SectionId)
    requires SeatInvariant(sec)
    ensures var fx, o := PromoteFx(sec, s), Ordered(sec.rows);
            var k := Min(sec.cols.capacity - sec.cols.enrolledCount, |o|);
            && 0 <= k <= |o| && fx.out == PromotedRows(k) && |fx.events| == k && |fx.notes| == k
            && (forall i | 0 <= i < k :: o[i] in sec.rows && fx.events[i] == Promoted(o[i], s, sec.rows[o[i]].position)
                                         && fx.notes[i] == PromotedNote(sec.rows[o[i]].student, o[i], s)
                                         && o[i] in Enrolled(fx.sec.rows))
            && Ordered(fx.sec.rows) == o[k..]
            && fx.sec.cols == sec.cols.(enrolledCount := sec.cols.enrolledCount + k)
            && fx.sec.cols.enrolledCount == |Enrolled(fx.sec.rows)|
            && (fx.sec.cols.enrolledCount == fx.sec.cols.capacity || Waiting(fx.sec.rows) == {})
  {
    PromotableIs(sec);
    OrderedFacts(sec.rows);
    OrderedInRows(sec.rows);
    PromoteKeeps(sec, s);
    PromotionRest(sec, s);
    assert PromoteFx(sec, s).sec.cols.enrolledCount == |Enrolled(PromoteFx(sec, s).sec.rows)| by {
      assert SeatInvariant(PromoteFx(sec, s).sec);
    }
    var o, k := Ordered(sec.rows), |Promotable(sec)|;
    hide Ordered, Waiting, Enrolled, SeatInvariant, PositionsOk, Promotable, Seated, PromotionEvents, PromotionNotes;
    forall i | 0 <= i < k
      ensures o[i] in sec.rows && PromoteFx(sec, s).events[i] == Promoted(o[i], s, sec.rows[o[i]].position)
      ensures PromoteFx(sec, s).notes[i] == PromotedNote(sec.rows[o[i]].student, o[i], s)
      ensures o[i] in Enrolled(PromoteFx(sec, s).sec.rows)
    {
      PromotionEach(sec, s, i);
    }
  }

  // Duplicate delivery is harmless: a second run changes nothing.
  lemma SecondRunIsNoOp(sec: Section, s: SectionId)
    requires SeatInvariant(sec)
    ensures var after := PromoteFx(sec, s).sec; PromoteFx(after, s) == Nothing(after, PromotedRows(0))
  {
    PromotionExact(sec, s);
    PromoteKeeps(sec, s);
    hide SeatInvariant, Ordered, Promotable, Seated;
    var after := PromoteFx(sec, s).sec;
    NothingToPromote(after, s);
  }

  lemma NothingToPromote(sec: Section, s: SectionId)
    requires SeatInvariant(sec) && (sec.cols.enrolledCount == sec.cols.capacity || Waiting(sec.rows) == {})
    ensures PromoteFx(sec, s) == Nothing(sec, PromotedRows(0))
  {
    PromotableIs(sec);
    assert Promotable(sec) == [];
    assert Seated(sec.rows, []) == sec.rows;
    hide Ordered, Promotable, SeatInvariant;
  }

  // Everyone still waiting moves up by the number seated.
  lemma RanksDropByCount(sec: Section, s: SectionId, id: RowId)
    requires SeatInvariant(sec) && id in Waiting(PromoteFx(sec, s).sec.rows)
    ensures var fx := PromoteFx(sec, s);
            id in Waiting(sec.rows) && fx.sec.rows[id] == sec.rows[id]
            && Rank(fx.sec.rows, sec.rows[id].Pos()) == Rank(sec.rows, sec.rows[id].Pos()) - |fx.events|
  {
    hide Ordered, Rank, Promotable, CheckHolds, OneActive, Enrolled;
    var fx, o := PromoteFx(sec, s), Ordered(sec.rows);
    var k := |fx.events|;
    PromotionExact(sec, s);
    PromoteKeeps(sec, s);
    OrderedInRows(sec.rows);
    assert PositionsOk(sec.rows) && PositionsOk(fx.sec.rows);
    hide SeatInvariant, PositionsOk;
    var j := RankedBy(fx.sec.rows, id);
    assert o[k..][j] == o[k + j];
    assert o[k + j] in Waiting(sec.rows);
    RankIsIndex(sec.rows, k + j);
  }

  // The rank reported to a new waiter is the new length of the waitlist, and
  // within the cap if there is one.
  lemma NewWaiterRank(sec: Section, s: SectionId, student: StudentId, id: RowId)
    requires SeatInvariant(sec) && id !in sec.rows && ActiveOf(sec.rows, student) == {}
    requires Join(sec, s, student, id).out.WaitlistedAs?
    ensures var fx := Join(sec, s, student, id);
            && fx.out.rank == |Waiting(fx.sec.rows)| == |Waiting(sec.rows)| + 1
            && (sec.cols.waitlistCap.Some? ==> fx.out.rank <= sec.cols.waitlistCap.value)
            && Ordered(fx.sec.rows) == Ordered(sec.rows) + [id]
  {
    hide Ordered, NextPosition, CheckHolds, OneActive, Enrolled, ActiveOf;
    var fx := Join(sec, s, student, id);
    var p := NextPosition(sec.rows);
    assert PositionsOk(sec.rows);
    hide SeatInvariant;
    assert Waiting(fx.sec.rows) == Waiting(sec.rows) + {id};
    assert AtOrBelow(fx.sec.rows, p) == Waiting(fx.sec.rows);
    AppendedOrder(sec.rows, id, fx.sec.rows[id]);
  }

  // A repeat request is told the place its row has in the ordered list, or
  // none if it holds a seat.
  lemma RepeatShowsPlace(sec: Section, id: RowId)
    requires SeatInvariant(sec) && id in sec.rows && sec.rows[id].Active()
    ensures var out := AlreadyOutcome(sec, id);
            out.Already? && out.id == id && out.status == sec.rows[id].status
            && if id in Waiting(sec.rows)
               then out.shownRank.Some? && 0 < out.shownRank.value <= |Ordered(sec.rows)|
                    && Ordered(sec.rows)[out.shownRank.value - 1] == id
               else out.shownRank.None?
  {
    if id in Waiting(sec.rows) {
      assert PositionsOk(sec.rows);
      var k := RankedBy(sec.rows, id);
    }
    hide Ordered, Rank, OneActive, Enrolled;
  }

  lemma AppendedSorted(rows: map<RowId, Row>, before: seq<RowId>, id: RowId, r: Row)
    requires id !in rows && Distinct(before)
    requires forall k | 0 <= k < |before| :: before[k] in rows && rows[before[k]].Pos() < r.Pos()
    requires forall i, j | 0 <= i < j < |before| :: rows[before[i]].Pos() < rows[before[j]].Pos()
    ensures var o, rows' := before + [id], rows[id := r];
            Distinct(o) && (forall k | 0 <= k < |o| :: o[k] in rows')
            && forall i, j | 0 <= i < j < |o| :: Before(rows', o[i], o[j])
  {
    var o := before + [id];
    assert forall k | 0 <= k < |before| :: o[k] == before[k] && o[k] != id;
  }

  lemma AppendedOrder(rows: map<RowId, Row>, id: RowId, r: Row)
    requires PositionsOk(rows) && id !in rows && r.status.WAITLISTED? && forall w <- Waiting(rows) ::
             rows[w].Pos() < r.Pos()
    ensures Ordered(rows[id := r]) == Ordered(rows) + [id]
  {
    var rows', before := rows[id := r], Ordered(rows);
    OrderedFacts(rows);
    OrderedInRows(rows);
    assert Waiting(rows') == Waiting(rows) + {id};
    assert Elems(before + [id]) == Elems(before) + {id};
    hide Waiting, PositionsOk, Before, Distinct, Elems, OrderOf;
    AppendedSorted(rows, before, id, r);
    SortedUnique(rows', Waiting(rows'), before + [id]);
  }
}
