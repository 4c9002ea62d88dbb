// The seat invariant of every section, kept by every operation.
module Seats {
  import opened Registry
  import opened Waitlist
  import opened Operations

  ghost predicate IdsUnique(sections: map<SectionId, Section>) {
    forall s, t, id | s in sections && t in sections && id in sections[s].rows && id in sections[t].rows :: s == t
  }

  ghost predicate FreshId(sections: map<SectionId, Section>, id: RowId) {
    forall s <- sections :: id !in sections[s].rows
  }

  ghost predicate DbInvariant(db: Db) {
    && (forall s <- db.sections :: SeatInvariant(db.sections[s]))
    && IdsUnique(db.sections)
  }

  // What a request brings with it: a new row's uuid is unused, and a
  // reordering lists each id once (its DTO is @ArrayUnique).
  ghost predicate WellFormed(db: Db, req: Request) {
    && (req.Enroll? || req.Swap? ==> FreshId(db.sections, req.newId))
    && (req.Reorder? ==> Distinct(req.order))
  }

  // ------------------------------------------------------------- one row

  lemma EnrolledPut(rows: map<RowId, Row>, id: RowId, r: Row)
    ensures var was := if id in rows && rows[id].status.ENROLLED? then 1 else 0;
            var now := if r.status.ENROLLED? then 1 else 0;
            |Enrolled(rows[id := r])| == |Enrolled(rows)| - was + now
  {
    var others, rows' := Enrolled(rows) - {id}, rows[id := r];
    assert Enrolled(rows) == if id in rows && rows[id].status.ENROLLED? then others + {id} else others;
    assert Enrolled(rows') == if r.status.ENROLLED? then others + {id} else others;
    hide Enrolled;
  }

  lemma JoinKeeps(sec: Section, s: SectionId, student: StudentId, id: RowId)
    requires SeatInvariant(sec) && id !in sec.rows && ActiveOf(sec.rows, student) == {}
    ensures SeatInvariant(Join(sec, s, student, id).sec)
  {
    hide PositionsOk, OneActive, Enrolled, Waiting, Rank, NextPosition, ActiveOf;
    var fx := Join(sec, s, student, id);
    if fx.sec != sec {
      var row := fx.sec.rows[id];
      assert fx.sec.rows == sec.rows[id := row];
      EnrolledPut(sec.rows, id, row);
      JoinedOnce(sec.rows, id, row);
      JoinedPositions(sec.rows, id, row);
    }
  }

  lemma JoinedOnce(rows: map<RowId, Row>, id: RowId, row: Row)
    requires OneActive(rows) && id !in rows && ActiveOf(rows, row.student) == {}
    ensures OneActive(rows[id := row])
  {
    assert forall i <- rows | rows[i].Active() && rows[i].student == row.student :: i in ActiveOf(rows, row.student);
    hide ActiveOf;
  }

  lemma JoinedPositions(rows: map<RowId, Row>, id: RowId, row: Row)
    requires PositionsOk(rows) && id !in rows
    requires row.position == if row.status.WAITLISTED? then Some(NextPosition(rows)) else None
    ensures PositionsOk(rows[id := row])
  {
    var p := NextPosition(rows);
    hide NextPosition;
  }

  lemma EnrollKeeps(sec: Section, s: SectionId, student: StudentId, id: RowId)
    requires SeatInvariant(sec) && id !in sec.rows
    ensures SeatInvariant(EnrollFx(sec, s, student, id).sec)
  {
    if HolderRow(sec.rows, student).None? { JoinKeeps(sec, s, student, id); }
  }

  lemma SwapOutKeeps(sec: Section, id: RowId)
    requires SeatInvariant(sec) && id in sec.rows && sec.rows[id].Active()
    ensures SeatInvariant(SwapOut(sec, id))
  {
    EnrolledPut(sec.rows, id, Release(sec.rows[id]));
  }

  lemma DropKeeps(sec: Section, s: SectionId, id: RowId)
    requires SeatInvariant(sec) && id in sec.rows
    ensures SeatInvariant(DropFx(sec, s, id).sec)
  {
    if sec.rows[id].Active() { SwapOutKeeps(sec, id); }
  }

  lemma SwapInKeeps(sec: Section, student: StudentId, id: RowId)
    requires SeatInvariant(sec) && id !in sec.rows && ActiveOf(sec.rows, student) == {}
    requires sec.cols.enrolledCount < sec.cols.capacity
    ensures SeatInvariant(SwapIn(sec, student, id))
  {
    JoinKeeps(sec, 0, student, id);
  }

  lemma SeatedCard(rows: map<RowId, Row>, ids: seq<RowId>)
    requires Distinct(ids) && forall id <- ids :: id in Waiting(rows)
    ensures |Enrolled(Seated(rows, ids))| == |Enrolled(rows)| + |ids|
  {
    assert Enrolled(Seated(rows, ids)) == Enrolled(rows) + Elems(ids);
    assert Enrolled(rows) !! Elems(ids);
    DistinctCard(ids);
  }

  lemma SeatedKeeps(rows: map<RowId, Row>, ids: seq<RowId>)
    requires PositionsOk(rows) && OneActive(rows) && forall id <- ids :: id in Waiting(rows)
    ensures PositionsOk(Seated(rows, ids)) && OneActive(Seated(rows, ids))
  {
    var rows' := Seated(rows, ids);
    assert Waiting(rows') <= Waiting(rows);
    assert forall id <- rows' :: rows'[id].Active() == rows[id].Active() && rows'[id].student == rows[id].student;
  }

  lemma PromoteKeeps(sec: Section, s: SectionId)
    requires SeatInvariant(sec)
    ensures SeatInvariant(PromoteFx(sec, s).sec)
  {
    var ids := Promotable(sec);
    OrderedInRows(sec.rows);
    assert Distinct(ids) by { OrderedFacts(sec.rows); }
    SeatedCard(sec.rows, ids);
    SeatedKeeps(sec.rows, ids);
  }

  lemma ReorderKeeps(sec: Section, s: SectionId, order: seq<RowId>)
    requires SeatInvariant(sec) && Distinct(order)
    ensures SeatInvariant(ReorderFx(sec, s, order).sec)
  {
    if (set id <- order) == Waiting(sec.rows) {
      var rows' := Renumbered(sec.rows, order);
      assert Elems(order) == Waiting(sec.rows);
      RenumberedOrder(sec.rows, order);
      assert Enrolled(rows') == Enrolled(sec.rows);
    }
  }

  lemma ExpireKeeps(sec: Section, s: SectionId)
    requires SeatInvariant(sec)
    ensures SeatInvariant(ExpireFx(sec, s).sec)
    ensures Waiting(ExpireFx(sec, s).sec.rows) == {}
  {
    var ids := Ordered(sec.rows);
    var rows' := Released(sec.rows, ids);
    OrderedInRows(sec.rows);
    OrderedFacts(sec.rows);
    assert forall id <- sec.rows :: id in ids <==> id in Elems(ids);
    assert Enrolled(rows') == Enrolled(sec.rows);
    assert Waiting(rows') == {};
  }

  lemma EditKeeps(sec: Section, s: SectionId, capacity: Option<int>, waitlistCap: Option<Option<nat>>)
    requires SeatInvariant(sec)
    ensures SeatInvariant(EditFx(sec, s, capacity, waitlistCap).sec)
  {
  }

  // ----------------------------------------------------------- whole steps

  // Replacing one section by a good one that adds only fresh rows.
  lemma ReplaceKeeps(sections: map<SectionId, Section>, s: SectionId, sec: Section)
    requires (forall t <- sections :: SeatInvariant(sections[t])) && IdsUnique(sections)
    requires s in sections && SeatInvariant(sec)
    requires forall i <- sec.rows | i !in sections[s].rows :: FreshId(sections, i)
    ensures var sections' := sections[s := sec];
            (forall t <- sections' :: SeatInvariant(sections'[t])) && IdsUnique(sections')
  {
    hide SeatInvariant;
    var sections' := sections[s := sec];
    forall t, u, i | t in sections' && u in sections' && i in sections'[t].rows && i in sections'[u].rows
      ensures t == u
    {
      if t != s { assert i in sections[t].rows; }
      if u != s { assert i in sections[u].rows; }
    }
  }

  lemma EnrollOpKeeps(cat: Catalog, db: Db, req: Request, now: nat, hold: bool)
    requires DbInvariant(db) && req.Enroll? && WellFormed(db, req)
    ensures DbInvariant(EnrollOp(cat, db, req, now, hold).0)
  {
    hide SeatInvariant;
    if req.section in db.sections {
      var sec := db.sections[req.section];
      var fx := EnrollFx(sec, req.section, req.student, req.newId);
      EnrollKeeps(sec, req.section, req.student, req.newId);
      assert db.sections == db.sections[req.section := sec];
      ReplaceKeeps(db.sections, req.section, fx.sec);
    }
  }

  lemma DropOpKeeps(db: Db, id: RowId)
    requires DbInvariant(db)
    ensures DbInvariant(DropOp(db, id).0)
  {
    hide SeatInvariant;
    var home := HomeOf(db.sections, id);
    if home.Some? {
      var sec := db.sections[home.value];
      DropKeeps(sec, home.value, id);
      ReplaceKeeps(db.sections, home.value, DropFx(sec, home.value, id).sec);
    }
  }

  lemma SwapDbKeeps(db: Db, source: SectionId, req: Request)
    requires DbInvariant(db) && req.Swap? && FreshId(db.sections, req.newId)
    requires source in db.sections && req.target in db.sections && source != req.target
    requires req.id in db.sections[source].rows && db.sections[source].rows[req.id].Active()
    requires ActiveOf(db.sections[req.target].rows, req.student) == {}
    requires db.sections[req.target].cols.enrolledCount < db.sections[req.target].cols.capacity
    ensures DbInvariant(SwapDb(db, source, req))
  {
    var out := SwapOut(db.sections[source], req.id);
    var inn := SwapIn(db.sections[req.target], req.student, req.newId);
    SwapOutKeeps(db.sections[source], req.id);
    SwapInKeeps(db.sections[req.target], req.student, req.newId);
    hide SeatInvariant;
    hide Release;
    ReplaceKeeps(db.sections, source, out);
    ReplaceKeeps(db.sections[source := out], req.target, inn);
  }

  lemma SwapOpKeeps(cat: Catalog, db: Db, req: Request, now: nat, hold: bool)
    requires DbInvariant(db) && req.Swap? && WellFormed(db, req)
    ensures DbInvariant(SwapOp(cat, db, req, now, hold).0)
  {
    hide SeatInvariant, SwapDb, Verdict, Gate;
    if SwapOp(cat, db, req, now, hold).1.SwappedTo? {
      SwapDbKeeps(db, HomeOf(db.sections, req.id).value, req);
    }
  }

  // Replacing one section by a good one with the same rows.
  lemma RewriteKeeps(sections: map<SectionId, Section>, s: SectionId, sec: Section)
    requires (forall t <- sections :: SeatInvariant(sections[t])) && IdsUnique(sections)
    requires s in sections && SeatInvariant(sec) && sec.rows.Keys == sections[s].rows.Keys
    ensures var sections' := sections[s := sec];
            (forall t <- sections' :: SeatInvariant(sections'[t])) && IdsUnique(sections')
  {
    hide SeatInvariant;
    ReplaceKeeps(sections, s, sec);
  }

  lemma PromoteOpKeeps(cat: Catalog, db: Db, s: SectionId, now: nat)
    requires DbInvariant(db)
    ensures DbInvariant(PromoteOp(cat, db, s, now).0)
  {
    hide SeatInvariant;
    if s in db.sections {
      PromoteKeeps(db.sections[s], s);
      RewriteKeeps(db.sections, s, PromoteFx(db.sections[s], s).sec);
    }
  }

  lemma ReorderOpKeeps(db: Db, s: SectionId, order: seq<RowId>)
    requires DbInvariant(db) && Distinct(order)
    ensures DbInvariant(ReorderOp(db, s, order).0)
  {
    hide SeatInvariant;
    if s in db.sections {
      ReorderKeeps(db.sections[s], s, order);
      RewriteKeeps(db.sections, s, ReorderFx(db.sections[s], s, order).sec);
    }
  }

  lemma ExpireOpKeeps(db: Db, s: SectionId)
    requires DbInvariant(db)
    ensures DbInvariant(ExpireOp(db, s).0)
  {
    hide SeatInvariant;
    if s in db.sections {
      ExpireKeeps(db.sections[s], s);
      RewriteKeeps(db.sections, s, ExpireFx(db.sections[s], s).sec);
    }
  }

  lemma EditOpKeeps(db: Db, s: SectionId, capacity: Option<int>, waitlistCap: Option<Option<nat>>)
    requires DbInvariant(db)
    ensures DbInvariant(EditOp(db, s, capacity, waitlistCap).0)
  {
    hide SeatInvariant;
    if s in db.sections {
      EditKeeps(db.sections[s], s, capacity, waitlistCap);
      RewriteKeeps(db.sections, s, EditFx(db.sections[s], s, capacity, waitlistCap).sec);
    }
  }

  // Every operation, on any input, keeps enrolledCount equal to the number of
  // ENROLLED rows and within capacity, one active row per student and section,
  // and a distinct positive position exactly on the WAITLISTED rows.
  lemma ApplyKeeps(cat: Catalog, db: Db, req: Request, now: nat, hold: bool)
    requires DbInvariant(db) && WellFormed(db, req)
    ensures DbInvariant(Apply(cat, db, req, now, hold).0)
    ensures Apply(cat, db, req, now, hold).0.sections.Keys == db.sections.Keys
  {
    hide DbInvariant, EnrollFx, DropFx, PromoteFx, ReorderFx, ExpireFx, EditFx, Verdict, Gate;
    match req
    case Enroll(_, _, _) => EnrollOpKeeps(cat, db, req, now, hold);
    case Drop(id) => DropOpKeeps(db, id);
    case Swap(_, id, target, _) => SwapOpKeeps(cat, db, req, now, hold);
    case Promote(s) => PromoteOpKeeps(cat, db, s, now);
    case Reorder(s, order) => ReorderOpKeeps(db, s, order);
    case Expire(s) => ExpireOpKeeps(db, s);
    case Edit(s, capacity, waitlistCap) => EditOpKeeps(db, s, capacity, waitlistCap);
  }
}
