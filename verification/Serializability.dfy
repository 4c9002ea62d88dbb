// Whole runs: the invariant of every reachable state of the machine, and the
// refinement of interleaved runs by runs of atomic operations.
module Serializability {
  import opened Registry
  import opened Operations
  import opened Seats
  import opened Machine
  import opened LocalSteps
  import opened Interleaving

  // -------------------------------------------------------------- commits

  ghost predicate OneSection(db: Db, s: SectionId, fx: Effect, out: Outcome, db': Db) {
    s in db.sections && db' == Put(db, s, fx) && out == fx.out
  }

  ghost predicate AtomicSwap(db: Db, req: Request, out: Outcome, db': Db)
    requires req.Swap?
  {
    var home := HomeOf(db.sections, req.id);
    if out.SameSection? then db' == db else
      && home.Some? && req.target in db.sections && home.value != req.target
      && var row := db.sections[home.value].rows[req.id];
         && row.student == req.student && row.Active() && !Full(db.sections[req.target].cols)
         && ActiveOf(db.sections[req.target].rows, req.student) == {}
         && out == SwappedTo(req.newId, row.status.ENROLLED?) && db' == SwapDb(db, home.value, req)
  }

  // One successful atomic operation, from db to db': the effect Operations
  // defines, on the database as it is. (The eligibility chain of enroll and
  // swap reads rows no lock protects; Eligibility says what holds of it.)
  ghost predicate Atomic(db: Db, req: Request, out: Outcome, db': Db) {
    && !out.Error?
    && match req
       case Enroll(x, s, id) => s in db.sections && OneSection(db, s, EnrollFx(db.sections[s], s, x, id), out, db')
       case Drop(id) =>
         var home := HomeOf(db.sections, id);
         home.Some? && OneSection(db, home.value, DropFx(db.sections[home.value], home.value, id), out, db')
       case Swap(_, _, _, _) => AtomicSwap(db, req, out, db')
       case Promote(s) =>
         if out.RegistrationOver? || out.NoSection? then db' == db
         else s in db.sections && OneSection(db, s, PromoteFx(db.sections[s], s), out, db')
       case Reorder(s, order) => s in db.sections && OneSection(db, s, ReorderFx(db.sections[s], s, order), out, db')
       case Expire(s) =>
         if out.NoSection? then db' == db
         else s in db.sections && OneSection(db, s, ExpireFx(db.sections[s], s), out, db')
       case Edit(s, c, w) => s in db.sections && OneSection(db, s, EditFx(db.sections[s], s, c, w), out, db')
  }

  lemma {:induction false} ViewOutside(sec: Section, s: SectionId, ws: seq<Write>, held: set<SectionId>)
    requires WritesIn(ws, held) && s !in held
    ensures View(sec, s, ws) == sec
  {
    if ws != [] {
      var t := ws[..|ws| - 1];
      assert forall w <- t :: w in ws;
      assert ws[|ws| - 1] in ws;
      ViewOutside(sec, s, t, held);
    }
  }

  lemma NothingWritten(sections: map<SectionId, Section>)
    ensures ViewAll(sections, []) == sections
  {
  }

  lemma CommitOne(db: Db, t: Txn, fx: Effect)
    requires t.home in db.sections && WritesIn(t.writes, {t.home})
    requires Wrote(db.sections[t.home], t.home, t.writes, fx.sec, fx.events, fx.notes)
    ensures CommitDb(db, t.writes) == Put(db, t.home, fx)
  {
    forall s <- db.sections
      ensures View(db.sections[s], s, t.writes) == db.sections[t.home := fx.sec][s]
    {
      if s != t.home { ViewOutside(db.sections[s], s, t.writes, {t.home}); }
    }
    assert ViewAll(db.sections, t.writes) == db.sections[t.home := fx.sec];
  }

  lemma HomeIs(sections: map<SectionId, Section>, s: SectionId, id: RowId)
    requires IdsUnique(sections) && s in sections && id in sections[s].rows
    ensures HomeOf(sections, id) == Some(s)
  {
  }

  lemma CommitUnderLock(db: Db, t: Txn)
    requires DbInvariant(db) && UnderLock(db.sections, t) && t.pc.Ready? && WritesIn(t.writes, t.held)
    ensures Atomic(db, t.req, t.pc.out, CommitDb(db, t.writes))
  {
    hide DropFx, EnrollFx, ReorderFx, EditFx, DbInvariant, WritesIn, View, EventsOf, NotesOf;
    var s := t.home;
    var sec := db.sections[s];
    match t.req {
      case Enroll(x, _, id) => CommitOne(db, t, EnrollFx(sec, s, x, id));
      case Drop(id) =>
        assert IdsUnique(db.sections) by { assert DbInvariant(db); DbIdsUnique(db); }
        HomeIs(db.sections, s, id);
        CommitOne(db, t, DropFx(sec, s, id));
      case Promote(_) =>
        if t.pc.out.RegistrationOver? {
          NothingWritten(db.sections);
          assert CommitDb(db, []) == db by { NothingPending(db); }
        } else {
          CommitOne(db, t, PromoteFx(sec, s));
        }
      case Reorder(_, order) => CommitOne(db, t, ReorderFx(sec, s, order));
      case Expire(_) => CommitOne(db, t, ExpireFx(sec, s));
      case Edit(_, capacity, waitlistCap) =>
        CommitOne(db, t, EditFx(sec, s, capacity, waitlistCap));
    }
    hide Wrote;
  }

  lemma DbIdsUnique(db: Db)
    requires DbInvariant(db)
    ensures IdsUnique(db.sections)
  {
  }

  lemma NothingPending(db: Db)
    ensures CommitDb(db, []) == db
  {
    NothingWritten(db.sections);
  }

  lemma CommitSwap(db: Db, t: Txn)
    requires DbInvariant(db) && UnderBothLocks(db.sections, t) && t.pc.Ready? && WritesIn(t.writes, t.held)
    ensures Atomic(db, t.req, t.pc.out, CommitDb(db, t.writes))
  {
    hide DbInvariant, SwapOut, SwapIn, EventsOf, NotesOf, WritesIn, View, ViewAll, Wrote, IdsUnique, HomeOf;
    var sections, s, u := db.sections, t.home, t.req.target;
    DbIdsUnique(db);
    HomeIs(sections, s, t.req.id);
    SwapWritten(sections, t);
    SwapViews(sections, t, SwapOut(sections[s], t.req.id), SwapIn(sections[u], t.req.student, t.req.newId));
  }

  lemma SwapWritten(sections: map<SectionId, Section>, t: Txn)
    requires UnderBothLocks(sections, t) && t.pc.Ready?
    ensures var s, u, ws := t.home, t.req.target, t.writes;
            && View(sections[s], s, ws) == SwapOut(sections[s], t.req.id)
            && View(sections[u], u, ws) == SwapIn(sections[u], t.req.student, t.req.newId)
            && EventsOf(ws) == [Swapped(t.req.id, s, sections[s].rows[t.req.id].status, t.req.newId, t.req.student, u)]
            && NotesOf(ws) == []
  {
    hide View, EventsOf, NotesOf, SwapOut, SwapIn;
  }

  lemma SwapViews(sections: map<SectionId, Section>, t: Txn, out: Section, inn: Section)
    requires t.req.Swap? && t.home in sections && t.req.target in sections && t.home != t.req.target
    requires WritesIn(t.writes, {t.home, t.req.target})
    requires View(sections[t.home], t.home, t.writes) == out
             && View(sections[t.req.target], t.req.target, t.writes) == inn
    ensures ViewAll(sections, t.writes) == sections[t.home := out][t.req.target := inn]
  {
    var after := sections[t.home := out][t.req.target := inn];
    forall s <- sections
      ensures View(sections[s], s, t.writes) == after[s]
    {
      if s != t.home && s != t.req.target { ViewOutside(sections[s], s, t.writes, {t.home, t.req.target}); }
    }
    hide View, WritesIn;
    assert ViewAll(sections, t.writes) == after;
  }

  lemma CommitRefines(db: Db, t: Txn)
    requires DbInvariant(db) && GoodTxn(db.sections, t) && t.pc.Ready?
    ensures Atomic(db, t.req, t.pc.out, CommitDb(db, t.writes))
  {
    hide DbInvariant, WritesIn;
    if UnderLock(db.sections, t) {
      CommitUnderLock(db, t);
    } else if UnderBothLocks(db.sections, t) {
      CommitSwap(db, t);
    } else {
      NothingPending(db);
    }
  }

  // ------------------------------------------------------ atomic operations

  lemma DbSections(db: Db)
    requires DbInvariant(db)
    ensures forall s <- db.sections :: SeatInvariant(db.sections[s])
    ensures IdsUnique(db.sections)
  {
  }

  ghost predicate RowsGrow(rows: map<RowId, Row>, rows': map<RowId, Row>, ids: set<RowId>) {
    && rows.Keys <= rows'.Keys <= rows.Keys + ids
    && forall i <- rows :: rows'[i].student == rows[i].student
  }

  // Nothing deleted, no row's student changed, no row added but those in ids.
  ghost predicate GrowsBy(sections: map<SectionId, Section>, sections': map<SectionId, Section>, ids: set<RowId>) {
    && sections'.Keys == sections.Keys
    && forall s <- sections :: RowsGrow(sections[s].rows, sections'[s].rows, ids)
  }

  lemma AtomicOne(db: Db, ids: set<RowId>, s: SectionId, sec: Section)
    requires DbInvariant(db) && s in db.sections && SeatInvariant(sec)
    requires RowsGrow(db.sections[s].rows, sec.rows, ids) && forall id <- ids :: FreshId(db.sections, id)
    ensures var sections' := db.sections[s := sec];
            (forall t <- sections' :: SeatInvariant(sections'[t])) && IdsUnique(sections')
            && GrowsBy(db.sections, sections', ids)
  {
    hide SeatInvariant;
    ReplaceKeeps(db.sections, s, sec);
  }

  lemma DbFrom(db: Db)
    requires (forall t <- db.sections :: SeatInvariant(db.sections[t])) && IdsUnique(db.sections)
    ensures DbInvariant(db)
  {
  }

  lemma PutKeeps(db: Db, s: SectionId, fx: Effect, out: Outcome, db': Db, ids: set<RowId>)
    requires DbInvariant(db) && OneSection(db, s, fx, out, db') && SeatInvariant(fx.sec)
    requires RowsGrow(db.sections[s].rows, fx.sec.rows, ids) && forall id <- ids :: FreshId(db.sections, id)
    ensures DbInvariant(db') && GrowsBy(db.sections, db'.sections, ids)
  {
    hide SeatInvariant, IdsUnique;
    AtomicOne(db, ids, s, fx.sec);
    DbFrom(db');
  }

  lemma EnrollGrows(sec: Section, s: SectionId, x: StudentId, id: RowId)
    requires id !in sec.rows
    ensures RowsGrow(sec.rows, EnrollFx(sec, s, x, id).sec.rows, {id})
  {
  }

  lemma EnrollPut(db: Db, s: SectionId, x: StudentId, id: RowId, out: Outcome, db': Db)
    requires DbInvariant(db) && s in db.sections && FreshId(db.sections, id)
    requires OneSection(db, s, EnrollFx(db.sections[s], s, x, id), out, db')
    ensures DbInvariant(db') && GrowsBy(db.sections, db'.sections, {id})
  {
    var sec := db.sections[s];
    var fx := EnrollFx(db.sections[s], s, x, id);
    DbSections(db);
    EnrollKeeps(sec, s, x, id);
    EnrollGrows(sec, s, x, id);
    hide SeatInvariant, DbInvariant, OneSection, EnrollFx, RowsGrow;
    PutKeeps(db, s, fx, out, db', {id});
  }

  lemma DropPut(db: Db, s: SectionId, id: RowId, out: Outcome, db': Db)
    requires DbInvariant(db) && s in db.sections && id in db.sections[s].rows
    requires OneSection(db, s, DropFx(db.sections[s], s, id), out, db')
    ensures DbInvariant(db') && GrowsBy(db.sections, db'.sections, {})
  {
    hide SeatInvariant, DbInvariant, OneSection, IdsUnique, GrowsBy;
    var sec := db.sections[s];
    var fx := DropFx(db.sections[s], s, id);
    DbSections(db);
    DropKeeps(sec, s, id);
    assert RowsGrow(sec.rows, fx.sec.rows, {});
    hide DropFx, RowsGrow;
    PutKeeps(db, s, fx, out, db', {});
  }

  lemma PromotePut(db: Db, s: SectionId, out: Outcome, db': Db)
    requires DbInvariant(db) && s in db.sections
    requires OneSection(db, s, PromoteFx(db.sections[s], s), out, db')
    ensures DbInvariant(db') && GrowsBy(db.sections, db'.sections, {})
  {
    var sec := db.sections[s];
    var fx := PromoteFx(db.sections[s], s);
    DbSections(db);
    PromoteKeeps(sec, s);
    assert RowsGrow(sec.rows, fx.sec.rows, {}) by { hide SeatInvariant, DbInvariant, OneSection; }
    hide SeatInvariant, DbInvariant, OneSection, PromoteFx, RowsGrow;
    PutKeeps(db, s, fx, out, db', {});
  }

  lemma ReorderPut(db: Db, s: SectionId, order: seq<RowId>, out: Outcome, db': Db)
    requires DbInvariant(db) && s in db.sections && Distinct(order)
    requires OneSection(db, s, ReorderFx(db.sections[s], s, order), out, db')
    ensures DbInvariant(db') && GrowsBy(db.sections, db'.sections, {})
  {
    var sec := db.sections[s];
    var fx := ReorderFx(db.sections[s], s, order);
    DbSections(db);
    ReorderKeeps(sec, s, order);
    assert RowsGrow(sec.rows, fx.sec.rows, {}) by { hide SeatInvariant, DbInvariant, OneSection; }
    hide SeatInvariant, DbInvariant, OneSection, ReorderFx, RowsGrow;
    PutKeeps(db, s, fx, out, db', {});
  }

  lemma ExpirePut(db: Db, s: SectionId, out: Outcome, db': Db)
    requires DbInvariant(db) && s in db.sections
    requires OneSection(db, s, ExpireFx(db.sections[s], s), out, db')
    ensures DbInvariant(db') && GrowsBy(db.sections, db'.sections, {})
  {
    var sec := db.sections[s];
    var fx := ExpireFx(db.sections[s], s);
    DbSections(db);
    ExpireKeeps(sec, s);
    assert RowsGrow(sec.rows, fx.sec.rows, {}) by { hide SeatInvariant, DbInvariant, OneSection; }
    hide SeatInvariant, DbInvariant, OneSection, ExpireFx, RowsGrow;
    PutKeeps(db, s, fx, out, db', {});
  }

  lemma EditPut(db: Db, s: SectionId, c: Option<int>, w: Option<Option<nat>>, out: Outcome, db': Db)
    requires DbInvariant(db) && s in db.sections
    requires OneSection(db, s, EditFx(db.sections[s], s, c, w), out, db')
    ensures DbInvariant(db') && GrowsBy(db.sections, db'.sections, {})
  {
    var sec := db.sections[s];
    var fx := EditFx(db.sections[s], s, c, w);
    DbSections(db);
    EditKeeps(sec, s, c, w);
    assert RowsGrow(sec.rows, fx.sec.rows, {}) by { hide SeatInvariant, DbInvariant, OneSection; }
    hide SeatInvariant, DbInvariant, OneSection, EditFx, RowsGrow;
    PutKeeps(db, s, fx, out, db', {});
  }

  lemma SwapGrows(db: Db, req: Request, out: Outcome, db': Db)
    requires DbInvariant(db) && req.Swap? && FreshId(db.sections, req.newId) && AtomicSwap(db, req, out, db')
    ensures DbInvariant(db') && GrowsBy(db.sections, db'.sections, {req.newId})
  {
    hide DbInvariant;
    if !out.SameSection? { SwapDbKeeps(db, HomeOf(db.sections, req.id).value, req); }
  }

  // An atomic operation keeps the seat invariant of every section, deletes no
  // row, moves none to another student, and adds none but its own new row.
  lemma AtomicKeeps(db: Db, req: Request, out: Outcome, db': Db)
    requires DbInvariant(db) && WellFormed(db, req) && Atomic(db, req, out, db')
    ensures DbInvariant(db') && GrowsBy(db.sections, db'.sections, NewIds(req))
  {
    hide DbInvariant, OneSection, AtomicSwap, GrowsBy, EnrollFx, DropFx, PromoteFx, ReorderFx, ExpireFx, EditFx;
    match req
    case Enroll(x, s, id) => EnrollPut(db, s, x, id, out, db');
    case Drop(id) => DropPut(db, HomeOf(db.sections, id).value, id, out, db');
    case Swap(_, _, _, _) => SwapGrows(db, req, out, db');
    case Promote(s) =>
      Unchanged(db);
      if db' != db { PromotePut(db, s, out, db'); }
    case Reorder(s, order) => ReorderPut(db, s, order, out, db');
    case Expire(s) =>
      Unchanged(db);
      if db' != db { ExpirePut(db, s, out, db'); }
    case Edit(s, c, w) => EditPut(db, s, c, w, out, db');
  }

  lemma Unchanged(db: Db)
    ensures GrowsBy(db.sections, db.sections, {})
  {
  }
}
