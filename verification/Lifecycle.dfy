// The life of an enrollment row: what one operation may do to it, and what
// follows for whole runs. Rows end once, waiters keep their order, and a
// closed term only loses rows.
module Lifecycle {
  import opened Registry
  import opened Waitlist
  import opened Operations
  import opened Seats
  import opened LocalSteps
  import opened Machine
  import opened Serializability
  import opened Runs

  // --------------------------------------------------------- one operation

  // What an operation may do to an existing row of section s.
  ghost predicate Moves(req: Request, s: SectionId, r: Row, r': Row) {
    || r' == r
    || (req.Promote? && req.section == s && r.status.WAITLISTED? && r' == Seat(r))
    || (req.Reorder? && req.section == s && r.status.WAITLISTED? && r'.status.WAITLISTED? && r'.student == r.student)
    || ((req.Drop? || req.Swap? || (req.Expire? && req.section == s)) && r.Active() && r' == Release(r))
  }

  // A new row takes a seat, or queues behind every waiter of a full section.
  ghost predicate Joins(req: Request, s: SectionId, sec: Section, id: RowId, r: Row) {
    && ((req.Enroll? && s == req.section && id == req.newId) || (req.Swap? && s == req.target && id == req.newId))
    && ((r.status.ENROLLED? && !Full(sec.cols))
        || (req.Enroll? && r.status.WAITLISTED? && Full(sec.cols) && forall w <- Waiting(sec.rows) ::
            sec.rows[w].Pos() < r.Pos()))
  }

  ghost predicate SectionMoves(req: Request, s: SectionId, sec: Section, sec': Section) {
    && sec.rows.Keys <= sec'.rows.Keys
    && (forall id <- sec.rows :: Moves(req, s, sec.rows[id], sec'.rows[id]))
    && (forall id <- sec'.rows | id !in sec.rows :: Joins(req, s, sec, id, sec'.rows[id]))
  }

  ghost predicate AllMove(req: Request, sections: map<SectionId, Section>, sections': map<SectionId, Section>) {
    sections'.Keys == sections.Keys && forall s <- sections :: SectionMoves(req, s, sections[s], sections'[s])
  }

  lemma StayPut(req: Request, sections: map<SectionId, Section>)
    ensures AllMove(req, sections, sections)
  {
  }

  lemma MoveOne(req: Request, db: Db, s: SectionId, fx: Effect, out: Outcome, db': Db)
    requires OneSection(db, s, fx, out, db') && SectionMoves(req, s, db.sections[s], fx.sec)
    ensures AllMove(req, db.sections, db'.sections)
  {
    hide SectionMoves;
    forall t <- db.sections
      ensures SectionMoves(req, t, db.sections[t], db'.sections[t])
    {
      if t != s { SectionStays(req, t, db.sections[t]); }
    }
  }

  lemma SectionStays(req: Request, s: SectionId, sec: Section)
    ensures SectionMoves(req, s, sec, sec)
  {
  }

  lemma EnrollMoves(req: Request, s: SectionId, sec: Section)
    requires req.Enroll? && s == req.section && req.newId !in sec.rows
    ensures SectionMoves(req, s, sec, EnrollFx(sec, s, req.student, req.newId).sec)
  {
    hide Rank, HolderRow, Waiting;
  }

  lemma DropMoves(req: Request, s: SectionId, sec: Section)
    requires req.Drop? && req.id in sec.rows
    ensures SectionMoves(req, s, sec, DropFx(sec, s, req.id).sec)
  {
  }

  lemma PromoteMoves(req: Request, s: SectionId, sec: Section)
    requires req.Promote? && req.section == s
    ensures SectionMoves(req, s, sec, PromoteFx(sec, s).sec)
  {
    OrderedInRows(sec.rows);
    assert forall id <- Promotable(sec) :: id in Waiting(sec.rows);
    hide Ordered, Promotable;
  }

  lemma ExpireMoves(req: Request, s: SectionId, sec: Section)
    requires req.Expire? && req.section == s
    ensures SectionMoves(req, s, sec, ExpireFx(sec, s).sec)
  {
    OrderedInRows(sec.rows);
    hide Ordered;
  }

  lemma ReorderMoves(req: Request, s: SectionId, sec: Section)
    requires req.Reorder? && req.section == s
    ensures SectionMoves(req, s, sec, ReorderFx(sec, s, req.order).sec)
  {
    var fx := ReorderFx(sec, s, req.order);
    if fx.sec != sec {
      assert forall id <- req.order :: id in Waiting(sec.rows);
    }
    hide Ordered, IndexOf;
  }

  lemma EditMoves(req: Request, s: SectionId, sec: Section)
    requires req.Edit?
    ensures SectionMoves(req, s, sec, EditFx(sec, s, req.capacity, req.waitlistCap).sec)
  {
  }

  lemma SwapMoves(db: Db, source: SectionId, req: Request)
    requires req.Swap? && source in db.sections && req.target in db.sections && source != req.target
    requires req.id in db.sections[source].rows && db.sections[source].rows[req.id].Active()
             && req.newId !in db.sections[req.target].rows
    requires !Full(db.sections[req.target].cols)
    ensures AllMove(req, db.sections, SwapDb(db, source, req).sections)
  {
    hide Waiting;
    var db' := SwapDb(db, source, req);
    forall t <- db.sections
      ensures SectionMoves(req, t, db.sections[t], db'.sections[t])
    {
    }
  }

  lemma AtomicMoves(db: Db, req: Request, out: Outcome, db': Db)
    requires WellFormed(db, req) && Atomic(db, req, out, db')
    ensures AllMove(req, db.sections, db'.sections)
  {
    hide EnrollFx, DropFx, PromoteFx, ExpireFx, ReorderFx, EditFx, OneSection, AllMove, SectionMoves;
    StayPut(req, db.sections);
    var sections := db.sections;
    match req {
      case Enroll(x, s, id) =>
        EnrollMoves(req, s, sections[s]);
        MoveOne(req, db, s, EnrollFx(sections[s], s, x, id), out, db');
      case Drop(id) =>
        var s := HomeOf(sections, id).value;
        DropMoves(req, s, sections[s]);
        MoveOne(req, db, s, DropFx(sections[s], s, id), out, db');
      case Swap(_, _, _, _) =>
        if !out.SameSection? { SwapMoves(db, HomeOf(sections, req.id).value, req); }
      case Promote(s) =>
        if db' != db { PromoteMoves(req, s, sections[s]); MoveOne(req, db, s, PromoteFx(sections[s], s), out, db'); }
      case Reorder(s, order) =>
        ReorderMoves(req, s, sections[s]);
        MoveOne(req, db, s, ReorderFx(sections[s], s, order), out, db');
      case Expire(s) =>
        if db' != db { ExpireMoves(req, s, sections[s]); MoveOne(req, db, s, ExpireFx(sections[s], s), out, db'); }
      case Edit(s, c, w) =>
        EditMoves(req, s, sections[s]);
        MoveOne(req, db, s, EditFx(sections[s], s, c, w), out, db');
    }
  }

  // ------------------------------------------------------------ whole runs

  // DROPPED and COMPLETED are final, and a row that is not waiting never waits again.
  lemma {:induction false} RowsEndOnce(db: Db, ops: seq<Op>, db': Db, s: SectionId, id: RowId)
    requires Serial(db, ops, db') && s in db.sections && id in db.sections[s].rows
    ensures s in db'.sections && id in db'.sections[s].rows
    ensures var r, r' := db.sections[s].rows[id], db'.sections[s].rows[id];
            && r'.student == r.student
            && (!r.Active() ==> r' == r)
            && (!r.status.WAITLISTED? ==> !r'.status.WAITLISTED?)
    decreases |ops|
  {
    if ops != [] {
      var mid :| AtomicStep(db, ops[0], mid) && Serial(mid, ops[1..], db');
      AtomicMoves(db, ops[0].req, ops[0].out, mid);
      assert SectionMoves(ops[0].req, s, db.sections[s], mid.sections[s]);
      hide Atomic, WellFormed, Joins;
      assert Moves(ops[0].req, s, db.sections[s].rows[id], mid.sections[s].rows[id]);
      RowsEndOnce(mid, ops[1..], db', s, id);
    }
  }

  // -------------------------------------------------------------------- FIFO

  ghost predicate InOrder(rows: map<RowId, Row>, a: RowId, b: RowId) {
    a in rows && b in rows && rows[a].status.WAITLISTED? && rows[b].status.WAITLISTED? && rows[a].Pos() < rows[b].Pos()
  }

  lemma PromoteInOrder(sec: Section, s: SectionId, a: RowId, b: RowId)
    requires PositionsOk(sec.rows) && InOrder(sec.rows, a, b)
    ensures PromoteFx(sec, s).sec.rows[b].status.ENROLLED? ==> PromoteFx(sec, s).sec.rows[a].status.ENROLLED?
  {
    OrderedFacts(sec.rows);
    var o, ids := Ordered(sec.rows), Promotable(sec);
    assert a in Elems(o);
    var i :| 0 <= i < |o| && o[i] == a;
    if b in ids {
      var j :| 0 <= j < |ids| && ids[j] == b;
      assert o[j] == b;
      assert i < j && ids[i] == a;
    }
  }

  lemma PromotedInOrder(db: Db, req: Request, out: Outcome, db': Db, a: RowId, b: RowId)
    requires req.Promote? && DbInvariant(db) && Atomic(db, req, out, db') && req.section in db.sections
    requires InOrder(db.sections[req.section].rows, a, b)
    ensures var s := req.section;
            s in db'.sections && a in db'.sections[s].rows && b in db'.sections[s].rows
            && (db'.sections[s].rows[b].status.ENROLLED? ==> db'.sections[s].rows[a].status.ENROLLED?)
  {
    hide PositionsOk, IdsUnique, Ordered, Promotable, CheckHolds, OneActive, Enrolled, Waiting;
    var s := req.section;
    if db' != db {
      assert PositionsOk(db.sections[s].rows) by { assert SeatInvariant(db.sections[s]); }
      hide SeatInvariant, DbInvariant;
      PromoteInOrder(db.sections[s], s, a, b);
      OrderedInRows(db.sections[s].rows);
    }
  }

  lemma WaiterMoves(req: Request, s: SectionId, r: Row, r': Row)
    requires Moves(req, s, r, r') && r.status.WAITLISTED?
    ensures r'.status.WAITLISTED? && !(req.Reorder? && req.section == s) ==> r' == r
    ensures r'.status.ENROLLED? ==> req.Promote? && req.section == s
    ensures !r'.status.COMPLETED?
  {
  }

  // One operation other than a reorder: two waiters keep their positions
  // while both wait, and the one behind is not seated first.
  lemma FifoStep(db: Db, req: Request, out: Outcome, db': Db, s: SectionId, a: RowId, b: RowId)
    requires DbInvariant(db) && WellFormed(db, req) && Atomic(db, req, out, db') && s in db.sections
    requires InOrder(db.sections[s].rows, a, b) && !(req.Reorder? && req.section == s)
    ensures s in db'.sections && a in db'.sections[s].rows && b in db'.sections[s].rows
    ensures var rows, rows' := db.sections[s].rows, db'.sections[s].rows;
            && (rows'[a].status.WAITLISTED? ==> rows'[a] == rows[a])
            && (rows'[b].status.WAITLISTED? ==> rows'[b] == rows[b])
            && (rows'[b].status.ENROLLED? ==> rows'[a].status.ENROLLED?)
  {
    AtomicMoves(db, req, out, db');
    assert SectionMoves(req, s, db.sections[s], db'.sections[s]);
    hide DbInvariant, WellFormed, Atomic, Joins, AllMove;
    var rows, rows' := db.sections[s].rows, db'.sections[s].rows;
    assert Moves(req, s, rows[a], rows'[a]) && Moves(req, s, rows[b], rows'[b]);
    hide Moves, SectionMoves;
    WaiterMoves(req, s, rows[a], rows'[a]);
    WaiterMoves(req, s, rows[b], rows'[b]);
    if rows'[b].status.ENROLLED? { PromotedInOrder(db, req, out, db', a, b); }
  }

  // With no reorder of the section in between, of two rows waiting together
  // the one behind is never seated while the other still waits, and whoever
  // still waits keeps its row as it was, hence the relative order.
  lemma {:induction false} Fifo(db: Db, ops: seq<Op>, db': Db, s: SectionId, a: RowId, b: RowId)
    requires DbInvariant(db) && Serial(db, ops, db') && s in db.sections && InOrder(db.sections[s].rows, a, b)
    requires forall op <- ops :: !(op.req.Reorder? && op.req.section == s)
    ensures s in db'.sections && a in db'.sections[s].rows && b in db'.sections[s].rows
    ensures var rows, rows' := db.sections[s].rows, db'.sections[s].rows;
            && (rows'[a].status.WAITLISTED? ==> rows'[a] == rows[a])
            && (rows'[b].status.WAITLISTED? ==> rows'[b] == rows[b])
            && (rows'[b].status.ENROLLED? ==> !rows'[a].status.WAITLISTED?)
    decreases |ops|
  {
    if ops != [] {
      var mid :| AtomicStep(db, ops[0], mid) && Serial(mid, ops[1..], db');
      FifoStep(db, ops[0].req, ops[0].out, mid, s, a, b);
      AtomicKeeps(db, ops[0].req, ops[0].out, mid);
      hide DbInvariant, WellFormed, Atomic;
      assert ops[0] in ops && forall op <- ops[1..] :: op in ops;
      RowsEndOnce(mid, ops[1..], db', s, a);
      RowsEndOnce(mid, ops[1..], db', s, b);
      if InOrder(mid.sections[s].rows, a, b) { Fifo(mid, ops[1..], db', s, a, b); }
      else if mid.sections[s].rows[a].status.WAITLISTED? { WaitsOn(mid, ops[1..], db', s, a); }
      else if mid.sections[s].rows[b].status.WAITLISTED? { WaitsOn(mid, ops[1..], db', s, b); }
    }
  }

  lemma {:induction false} WaitsOn(db: Db, ops: seq<Op>, db': Db, s: SectionId, id: RowId)
    requires Serial(db, ops, db') && s in db.sections && id in db.sections[s].rows
             && db.sections[s].rows[id].status.WAITLISTED?
    requires forall op <- ops :: !(op.req.Reorder? && op.req.section == s)
    ensures s in db'.sections && id in db'.sections[s].rows
    ensures db'.sections[s].rows[id].status.WAITLISTED? ==> db'.sections[s].rows[id] == db.sections[s].rows[id]
    decreases |ops|
  {
    if ops != [] {
      var mid :| AtomicStep(db, ops[0], mid) && Serial(mid, ops[1..], db');
      AtomicMoves(db, ops[0].req, ops[0].out, mid);
      assert SectionMoves(ops[0].req, s, db.sections[s], mid.sections[s]);
      hide Atomic, WellFormed, Joins;
      assert Moves(ops[0].req, s, db.sections[s].rows[id], mid.sections[s].rows[id]);
      WaiterMoves(ops[0].req, s, db.sections[s].rows[id], mid.sections[s].rows[id]);
      assert ops[0] in ops && forall op <- ops[1..] :: op in ops;
      RowsEndOnce(mid, ops[1..], db', s, id);
      if mid.sections[s].rows[id].status.WAITLISTED? { WaitsOn(mid, ops[1..], db', s, id); }
    }
  }

  // The same of every interleaved run.
  lemma RunsAreFifo(cat: Catalog, st: State, actions: seq<Action>, st': State, s: SectionId, a: RowId, b: RowId)
    requires Inv(st) && Run(cat, st, actions, st') && s in st.db.sections && InOrder(st.db.sections[s].rows, a, b)
    requires forall op <- Commits(cat, st, actions) :: !(op.req.Reorder? && op.req.section == s)
    ensures s in st'.db.sections && a in st'.db.sections[s].rows && b in st'.db.sections[s].rows
    ensures var rows, rows' := st.db.sections[s].rows, st'.db.sections[s].rows;
            && (rows'[b].status.ENROLLED? ==> !rows'[a].status.WAITLISTED?)
            && (rows'[a].status.WAITLISTED? && rows'[b].status.WAITLISTED? ==> InOrder(rows', a, b))
  {
    RunRefines(cat, st, actions, st');
    hide TxnsGood, LocksAgree, IdsKnown, DbInvariant, Serial, Run, Commits;
    Fifo(st.db, Commits(cat, st, actions), st'.db, s, a, b);
  }

  // Whoever joins a waitlist joins behind everyone on it.
  lemma JoinsBehind(db: Db, req: Request, out: Outcome, db': Db, s: SectionId, a: RowId, b: RowId)
    requires DbInvariant(db) && WellFormed(db, req) && Atomic(db, req, out, db') && s in db.sections
    requires a in Waiting(db.sections[s].rows) && b !in db.sections[s].rows
    requires s in db'.sections && b in Waiting(db'.sections[s].rows)
    ensures InOrder(db'.sections[s].rows, a, b)
  {
    AtomicMoves(db, req, out, db');
    assert SectionMoves(req, s, db.sections[s], db'.sections[s]);
    hide *;
    JoinedBehind(req, s, db.sections[s], db'.sections[s], a, b);
  }

  lemma JoinedBehind(req: Request, s: SectionId, sec: Section, sec': Section, a: RowId, b: RowId)
    requires SectionMoves(req, s, sec, sec') && a in Waiting(sec.rows) && b !in sec.rows && b in Waiting(sec'.rows)
    ensures InOrder(sec'.rows, a, b)
  {
    assert a in sec.rows && Moves(req, s, sec.rows[a], sec'.rows[a]) && Joins(req, s, sec, b, sec'.rows[b]);
  }

  // --------------------------------------------------------- departures

  // The event says that row id left its section.
  predicate Departs(e: Event, id: RowId) {
    match e
    case Dropped(i, _) => i == id
    case WaitlistLeft(i, _) => i == id
    case Expired(i, _) => i == id
    case Swapped(oldId, _, _, _, _, _) => oldId == id
    case _ => false
  }

  function Departures(events: seq<Event>, id: RowId): nat {
    if events == [] then 0 else
      Departures(events[..|events| - 1], id) + (if Departs(events[|events| - 1], id) then 1 else 0)
  }

  lemma {:induction false} DeparturesConcat(a: seq<Event>, b: seq<Event>, id: RowId)
    ensures Departures(a + b, id) == Departures(a, id) + Departures(b, id)
  {
    if b == [] {
      assert a + b == a;
    } else {
      var n := |b| - 1;
      assert (a + b)[..|a + b| - 1] == a + b[..n] && (a + b)[|a + b| - 1] == b[n];
      DeparturesConcat(a, b[..n], id);
    }
  }

  ghost predicate GoneIn(sec: Section, id: RowId) { id in sec.rows && !sec.rows[id].Active() }

  // Present and no longer active.
  ghost predicate Gone(sections: map<SectionId, Section>, id: RowId) {
    exists s :: s in sections && GoneIn(sections[s], id)
  }

  ghost function Count(b: bool): nat { if b then 1 else 0 }

  // The events of one effect report exactly the rows it ends.
  ghost predicate Reports(sec: Section, sec': Section, events: seq<Event>, id: RowId) {
    Departures(events, id) == Count(GoneIn(sec', id)) - Count(GoneIn(sec, id))
  }

  lemma GoneOne(sections: map<SectionId, Section>, s: SectionId, sec': Section, id: RowId)
    requires IdsUnique(sections) && s in sections && sections[s].rows.Keys <= sec'.rows.Keys
    requires id in sec'.rows && id !in sections[s].rows ==> sec'.rows[id].Active() && FreshId(sections, id)
    ensures Count(Gone(sections[s := sec'], id)) - Count(Gone(sections, id))
         == Count(GoneIn(sec', id)) - Count(GoneIn(sections[s], id))
  {
    var sections' := sections[s := sec'];
    if id in sections[s].rows {
      assert Gone(sections, id) <==> GoneIn(sections[s], id);
      assert GoneIn(sec', id) ==> s in sections' && GoneIn(sections'[s], id);
      assert forall t <- sections' | t != s :: id !in sections'[t].rows;
    } else {
      assert !GoneIn(sec', id) && !GoneIn(sections[s], id);
      forall t <- sections
        ensures GoneIn(sections[t], id) <==> GoneIn(sections'[t], id)
      {
      }
      assert sections'.Keys == sections.Keys;
    }
  }

  lemma NoDeparture(e: Event, id: RowId)
    ensures Departures([e], id) == Count(Departs(e, id)) && Departures([], id) == 0
  {
    assert [e][..0] == [];
  }

  lemma {:induction false} PromotionDeparts(rows: map<RowId, Row>, s: SectionId, ids: seq<RowId>, id: RowId, k: nat)
    requires (forall i <- ids :: i in rows) && k <= |ids|
    ensures |PromotionEvents(rows, s, ids)| == |ids| && Departures(PromotionEvents(rows, s, ids)[..k], id) == 0
  {
    var events := PromotionEvents(rows, s, ids);
    if k > 0 {
      PromotionDeparts(rows, s, ids, id, k - 1);
      assert events[..k][..k - 1] == events[..k - 1];
    }
  }

  lemma {:induction false} ExpiryDeparts(rows: map<RowId, Row>, ids: seq<RowId>, id: RowId, k: nat)
    requires (forall i <- ids :: i in rows) && Distinct(ids) && k <= |ids|
    ensures |ExpiryEvents(rows, ids)| == |ids| && Departures(ExpiryEvents(rows, ids)[..k], id) == Count(id in ids[..k])
  {
    var events := ExpiryEvents(rows, ids);
    if k > 0 {
      ExpiryDeparts(rows, ids, id, k - 1);
      assert events[..k][..k - 1] == events[..k - 1];
      assert ids[..k] == ids[..k - 1] + [ids[k - 1]];
    }
  }

  lemma PromoteReports(sec: Section, s: SectionId, id: RowId)
    ensures var fx := PromoteFx(sec, s); Reports(sec, fx.sec, fx.events, id)
  {
    var ids := Promotable(sec);
    OrderedInRows(sec.rows);
    assert forall i <- ids :: i in Waiting(sec.rows);
    PromotionDeparts(sec.rows, s, ids, id, |ids|);
    assert PromotionEvents(sec.rows, s, ids)[..|ids|] == PromotionEvents(sec.rows, s, ids);
    hide Departures, PromotionEvents, Promotable, Ordered;
  }

  lemma ExpireReports(sec: Section, s: SectionId, id: RowId)
    requires PositionsOk(sec.rows)
    ensures var fx := ExpireFx(sec, s); Reports(sec, fx.sec, fx.events, id)
  {
    hide Departures, ExpiryEvents, Ordered, PositionsOk;
    var ids := Ordered(sec.rows);
    OrderedFacts(sec.rows);
    OrderedInRows(sec.rows);
    ExpiryDeparts(sec.rows, ids, id, |ids|);
    assert ExpiryEvents(sec.rows, ids)[..|ids|] == ExpiryEvents(sec.rows, ids) && ids[..|ids|] == ids;
    assert id in ids <==> id in Waiting(sec.rows) by { assert id in ids <==> id in Elems(ids); }
  }

  lemma EnrollReports(sec: Section, s: SectionId, x: StudentId, newId: RowId, id: RowId)
    requires newId !in sec.rows
    ensures var fx := EnrollFx(sec, s, x, newId); Reports(sec, fx.sec, fx.events, id)
  {
    var fx := EnrollFx(sec, s, x, newId);
    if fx.events != [] { NoDeparture(fx.events[0], id); }
    hide Rank, NextPosition, HolderRow, Waiting;
  }

  lemma DropReports(sec: Section, s: SectionId, gone: RowId, id: RowId)
    requires gone in sec.rows
    ensures var fx := DropFx(sec, s, gone); Reports(sec, fx.sec, fx.events, id)
  {
    var fx := DropFx(sec, s, gone);
    if fx.events != [] { NoDeparture(fx.events[0], id); }
  }

  lemma OtherReports(sec: Section, s: SectionId, order: seq<RowId>, c: Option<int>, w: Option<Option<nat>>, id: RowId)
    ensures var fx := ReorderFx(sec, s, order); Reports(sec, fx.sec, fx.events, id)
    ensures var fx := EditFx(sec, s, c, w); Reports(sec, fx.sec, fx.events, id)
  {
    NoDeparture(Reordered(s, Ordered(sec.rows), order), id);
    hide Ordered, IndexOf;
    var fx := EditFx(sec, s, c, w);
    if fx.events != [] { NoDeparture(fx.events[0], id); }
    var fy := ReorderFx(sec, s, order);
    if fy.sec != sec { assert GoneIn(fy.sec, id) == GoneIn(sec, id); }
  }

  // Departure events of a step = rows it ends, for any row id.
  ghost predicate DepartsOnce(db: Db, db': Db, id: RowId) {
    db.outbox <= db'.outbox
    && Departures(db'.outbox[|db.outbox|..], id) == Count(Gone(db'.sections, id)) - Count(Gone(db.sections, id))
  }

  lemma OneDeparts(req: Request, db: Db, s: SectionId, fx: Effect, out: Outcome, db': Db, id: RowId)
    requires IdsUnique(db.sections) && WellFormed(db, req) && OneSection(db, s, fx, out, db')
    requires AllMove(req, db.sections, db'.sections) && Reports(db.sections[s], fx.sec, fx.events, id)
    ensures DepartsOnce(db, db', id)
  {
    assert SectionMoves(req, s, db.sections[s], fx.sec) by {
      assert SectionMoves(req, s, db.sections[s], db'.sections[s]);
    }
    if id in fx.sec.rows && id !in db.sections[s].rows { assert Joins(req, s, db.sections[s], id, fx.sec.rows[id]); }
    hide Gone, GoneIn, IdsUnique, FreshId, Moves, AllMove;
    GoneOne(db.sections, s, fx.sec, id);
    assert (db.outbox + fx.events)[|db.outbox|..] == fx.events;
  }

  lemma NoneDeparts(db: Db, id: RowId)
    ensures DepartsOnce(db, db, id)
  {
    assert db.outbox[|db.outbox|..] == [];
  }

  lemma SwapDeparts(db: Db, source: SectionId, req: Request, id: RowId)
    requires IdsUnique(db.sections) && req.Swap? && FreshId(db.sections, req.newId)
    requires source in db.sections && req.target in db.sections && source != req.target
    requires req.id in db.sections[source].rows && db.sections[source].rows[req.id].Active()
    ensures DepartsOnce(db, SwapDb(db, source, req), id)
  {
    var sections := db.sections;
    var out, inn := SwapOut(sections[source], req.id), SwapIn(sections[req.target], req.student, req.newId);
    var e := Swapped(req.id, source, sections[source].rows[req.id].status, req.newId, req.student, req.target);
    assert SwapDb(db, source, req).outbox[|db.outbox|..] == [e];
    NoDeparture(e, id);
    var mid := sections[source := out];
    assert IdsUnique(mid) && FreshId(mid, req.newId);
    GoneOne(sections, source, out, id);
    GoneOne(mid, req.target, inn, id);
    hide Gone, IdsUnique, FreshId;
  }

  lemma AtomicDeparts(db: Db, req: Request, out: Outcome, db': Db, id: RowId)
    requires DbInvariant(db) && WellFormed(db, req) && Atomic(db, req, out, db')
    ensures DepartsOnce(db, db', id)
  {
    DbSections(db);
    AtomicMoves(db, req, out, db');
    NoneDeparts(db, id);
    var sections := db.sections;
    hide Reports, DepartsOnce, OneSection, EnrollFx, DropFx, PromoteFx, ReorderFx, ExpireFx, EditFx, IdsUnique;
    hide DbInvariant, AllMove, FreshId;
    match req {
      case Enroll(x, s, newId) =>
        EnrollReports(sections[s], s, x, newId, id) by { assert FreshId(sections, newId); }
        OneDeparts(req, db, s, EnrollFx(sections[s], s, x, newId), out, db', id);
      case Drop(gone) =>
        var s := HomeOf(sections, gone).value;
        DropReports(sections[s], s, gone, id);
        OneDeparts(req, db, s, DropFx(sections[s], s, gone), out, db', id);
      case Swap(_, _, _, _) =>
        if !out.SameSection? { SwapDeparts(db, HomeOf(sections, req.id).value, req, id); }
      case Promote(s) =>
        if db' != db {
          PromoteReports(sections[s], s, id);
          OneDeparts(req, db, s, PromoteFx(sections[s], s), out, db', id);
        }
      case Reorder(s, order) =>
        OtherReports(sections[s], s, order, None, None, id);
        OneDeparts(req, db, s, ReorderFx(sections[s], s, order), out, db', id);
      case Expire(s) =>
        if db' != db {
          assert PositionsOk(sections[s].rows) by { assert SeatInvariant(sections[s]); }
          ExpireReports(sections[s], s, id);
          OneDeparts(req, db, s, ExpireFx(sections[s], s), out, db', id);
        }
      case Edit(s, c, w) =>
        OtherReports(sections[s], s, [], c, w, id);
        OneDeparts(req, db, s, EditFx(sections[s], s, c, w), out, db', id);
    }
    hide SeatInvariant;
  }

  lemma DepartsCompose(db: Db, mid: Db, db': Db, id: RowId)
    requires DepartsOnce(db, mid, id) && DepartsOnce(mid, db', id)
    ensures DepartsOnce(db, db', id)
  {
    hide Gone, Departures;
    var a, b := mid.outbox[|db.outbox|..], db'.outbox[|mid.outbox|..];
    assert db'.outbox[|db.outbox|..] == a + b;
    DeparturesConcat(a, b, id);
  }

  // Over a run a row leaves at most once, and leaves one departure event when
  // it does: concurrent drops of one row release one seat and log once.
  lemma {:induction false} SerialDeparts(db: Db, ops: seq<Op>, db': Db, id: RowId)
    requires DbInvariant(db) && Serial(db, ops, db')
    ensures DbInvariant(db') && DepartsOnce(db, db', id)
    decreases |ops|
  {
    if ops == [] {
      NoneDeparts(db, id);
    } else {
      var mid :| AtomicStep(db, ops[0], mid) && Serial(mid, ops[1..], db');
      AtomicDeparts(db, ops[0].req, ops[0].out, mid, id);
      AtomicKeeps(db, ops[0].req, ops[0].out, mid);
      hide Atomic, WellFormed, DbInvariant, GrowsBy, DepartsOnce;
      SerialDeparts(mid, ops[1..], db', id);
      DepartsCompose(db, mid, db', id);
    }
  }

  lemma RunDeparts(cat: Catalog, st: State, actions: seq<Action>, st': State, id: RowId)
    requires Initial(st) && Run(cat, st, actions, st')
    ensures st.db.outbox <= st'.db.outbox
    ensures var n := Departures(st'.db.outbox[|st.db.outbox|..], id);
            n <= 1 && (n == 1 <==> Gone(st'.db.sections, id) && !Gone(st.db.sections, id))
  {
    InitialInv(st);
    RunRefines(cat, st, actions, st');
    SerialDeparts(st.db, Commits(cat, st, actions), st'.db, id);
    if Gone(st.db.sections, id) { StaysGone(st.db, Commits(cat, st, actions), st'.db, id); }
    hide Run, Serial, Commits, Gone, DbInvariant, TxnsGood, LocksAgree, IdsKnown, Departures;
  }

  lemma StaysGone(db: Db, ops: seq<Op>, db': Db, id: RowId)
    requires Serial(db, ops, db') && Gone(db.sections, id)
    ensures Gone(db'.sections, id)
  {
    var s :| s in db.sections && GoneIn(db.sections[s], id);
    RowsEndOnce(db, ops, db', s, id);
    assert GoneIn(db'.sections[s], id);
  }
}
