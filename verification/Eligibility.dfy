// Eligibility as an invariant: provided one student's own enroll and swap
// requests do not overlap, whatever else interleaves, every student's active
// rows stay conflict-free, one per course, within the credit cap and with
// prerequisites completed, although no lock protects the rows these checks read.
module Eligibility {
  import opened Registry
  import opened Waitlist
  import opened Operations
  import opened Seats
  import opened Machine
  import opened LocalSteps
  import opened Interleaving
  import opened Serializability
  import opened Runs
  import opened Answers
  import TimeConflict

  // ------------------------------------------------- a student's active rows

  ghost predicate Eligible(cat: Catalog, x: StudentId, seats: set<RowKey>, done: set<CourseId>) {
    && (forall p, q | p in seats && q in seats && p != q :: cat.course(p.0) != cat.course(q.0))
    && (forall p, q | p in seats && q in seats && p != q && cat.term(p.0) == cat.term(q.0) ::
          !TimeConflict.Conflict(cat.pattern(p.0), cat.pattern(q.0)))
    && (forall term: TermId :: CreditSum(cat, SameTerm(cat, seats, term)) <= cat.CreditCap(x, term))
    && (forall p <- seats :: cat.prereqs(cat.course(p.0)) <= done)
  }

  lemma EligibleSubset(cat: Catalog, x: StudentId, seats: set<RowKey>, done: set<CourseId>, seats': set<RowKey>,
                       done': set<CourseId>)
    requires Eligible(cat, x, seats, done) && seats' <= seats && done <= done'
    ensures Eligible(cat, x, seats', done')
  {
    forall term: TermId
      ensures CreditSum(cat, SameTerm(cat, seats', term)) <= cat.CreditCap(x, term)
    {
      CreditSumMonotone(cat, SameTerm(cat, seats', term), SameTerm(cat, seats, term));
    }
  }

  // A new row that passes the chain against the others can join them.
  ghost predicate Admits(cat: Catalog, x: StudentId, others: set<RowKey>, done: set<CourseId>, target: SectionId) {
    var mine := SameTerm(cat, others, cat.term(target));
    && !DuplicateCourse(cat, others, target)
    && cat.prereqs(cat.course(target)) <= done
    && !ClashesWith(cat, mine, target)
    && CreditsFit(cat, x, mine, target)
  }

  lemma EligibleAdd(cat: Catalog, x: StudentId, others: set<RowKey>, done: set<CourseId>, p: RowKey)
    requires Eligible(cat, x, others, done) && Admits(cat, x, others, done, p.0)
    ensures Eligible(cat, x, others + {p}, done)
  {
    var seats := others + {p};
    assert p !in others;
    forall q | q in others && cat.term(p.0) == cat.term(q.0)
      ensures !TimeConflict.Conflict(cat.pattern(p.0), cat.pattern(q.0))
      ensures !TimeConflict.Conflict(cat.pattern(q.0), cat.pattern(p.0))
    {
      assert q in SameTerm(cat, others, cat.term(p.0));
      TimeConflict.ConflictSymmetric(cat.pattern(p.0), cat.pattern(q.0));
    }
    hide TimeConflict.Conflict;
    forall term: TermId
      ensures CreditSum(cat, SameTerm(cat, seats, term)) <= cat.CreditCap(x, term)
    {
      AddCredits(cat, others, p, term);
    }
  }

  lemma EligibleReplace(cat: Catalog, x: StudentId, seats: set<RowKey>, done: set<CourseId>, others: set<RowKey>,
                        p: RowKey,
               seats': set<RowKey>, done': set<CourseId>)
    requires Eligible(cat, x, seats, done) && others <= seats && Admits(cat, x, others, done, p.0)
    requires seats' <= others + {p} && done <= done'
    ensures Eligible(cat, x, seats', done')
  {
    hide Eligible, Admits;
    EligibleSubset(cat, x, seats, done, others, done);
    EligibleAdd(cat, x, others, done, p);
    EligibleSubset(cat, x, others + {p}, done, seats', done');
  }

  lemma AddCredits(cat: Catalog, others: set<RowKey>, p: RowKey, term: TermId)
    requires p !in others
    ensures CreditSum(cat, SameTerm(cat, others + {p}, term))
         == CreditSum(cat, SameTerm(cat, others, term))
             + (if cat.term(p.0) == term then cat.credits(cat.course(p.0)) else 0)
  {
    var before, after := SameTerm(cat, others, term), SameTerm(cat, others + {p}, term);
    if cat.term(p.0) == term {
      assert after - {p} == before;
      CreditSumRemove(cat, after, p);
    } else {
      assert after == before;
    }
  }

  // Passing the chain stays true while the student's other rows only shrink.
  lemma AdmitsMonotone(cat: Catalog, x: StudentId, others: set<RowKey>, done: set<CourseId>, target: SectionId,
                       others': set<RowKey>)
    requires others' <= others
    ensures !DuplicateCourse(cat, others, target) ==> !DuplicateCourse(cat, others', target)
    ensures var mine, mine' := SameTerm(cat, others, cat.term(target)), SameTerm(cat, others', cat.term(target));
            && mine' <= mine
            && (!ClashesWith(cat, mine, target) ==> !ClashesWith(cat, mine', target))
            && CreditSum(cat, mine') <= CreditSum(cat, mine)
  {
    var mine, mine' := SameTerm(cat, others, cat.term(target)), SameTerm(cat, others', cat.term(target));
    CreditSumMonotone(cat, mine', mine);
  }

  // -------------------------------------------- what operations do to rows

  ghost predicate RowCalm(r: Row, r': Row) {
    && r'.student == r.student && (r'.Active() ==> r.Active()) && (r'.status.COMPLETED? <==> r.status.COMPLETED?)
  }

  ghost predicate CalmRows(rows: map<RowId, Row>, rows': map<RowId, Row>, adds: set<RowId>) {
    && rows.Keys <= rows'.Keys <= rows.Keys + adds
    && forall id <- rows :: RowCalm(rows[id], rows'[id])
  }

  ghost function AddsAt(adds: set<RowKey>, s: SectionId): set<RowId> { set p | p in adds && p.0 == s :: p.1 }

  // Old rows do not become active or change completion; new rows are in `adds`.
  ghost predicate Calm(sections: map<SectionId, Section>, sections': map<SectionId, Section>, adds: set<RowKey>) {
    && sections'.Keys == sections.Keys
    && forall s <- sections :: CalmRows(sections[s].rows, sections'[s].rows, AddsAt(adds, s))
  }

  lemma CalmStudent(cat: Catalog, sections: map<SectionId, Section>, sections': map<SectionId, Section>,
                    adds: set<RowKey>, x: StudentId)
    requires Calm(sections, sections', adds)
    ensures ActiveSeats(sections', x) <= ActiveSeats(sections, x) + adds
    ensures CompletedCourses(cat, sections, x) <= CompletedCourses(cat, sections', x)
  {
    forall p | p in ActiveSeats(sections', x)
      ensures p in ActiveSeats(sections, x) + adds
    {
      var s, id := p.0, p.1;
      assert CalmRows(sections[s].rows, sections'[s].rows, AddsAt(adds, s));
      if id in sections[s].rows {
        assert RowCalm(sections[s].rows[id], sections'[s].rows[id]);
      } else {
        assert id in AddsAt(adds, s);
      }
    }
    forall c | c in CompletedCourses(cat, sections, x)
      ensures c in CompletedCourses(cat, sections', x)
    {
      var s, id :| s in sections && id in sections[s].rows && sections[s].rows[id].student == x
                   && sections[s].rows[id].status.COMPLETED? && cat.course(s) == c;
      assert CalmRows(sections[s].rows, sections'[s].rows, AddsAt(adds, s));
      assert RowCalm(sections[s].rows[id], sections'[s].rows[id]);
    }
  }

  // The row a committed operation adds, if any.
  ghost function Adds(req: Request, out: Outcome): set<RowKey> {
    match req
    case Enroll(_, s, id) => if out.EnrolledAs? || out.WaitlistedAs? then {(s, id)} else {}
    case Swap(_, _, target, id) => if out.SwappedTo? then {(target, id)} else {}
    case _ => {}
  }

  lemma CalmOne(db: Db, s: SectionId, fx: Effect, out: Outcome, db': Db, adds: set<RowKey>)
    requires OneSection(db, s, fx, out, db') && CalmRows(db.sections[s].rows, fx.sec.rows, AddsAt(adds, s))
    ensures Calm(db.sections, db'.sections, adds)
  {
    forall t <- db.sections
      ensures CalmRows(db.sections[t].rows, db'.sections[t].rows, AddsAt(adds, t))
    {
    }
  }

  lemma EnrollCalm(sec: Section, s: SectionId, x: StudentId, id: RowId)
    requires id !in sec.rows
    ensures var fx := EnrollFx(sec, s, x, id);
            CalmRows(sec.rows, fx.sec.rows, AddsAt(Adds(Enroll(x, s, id), fx.out), s))
  {
    assert (s, id) in {(s, id)};
    assert id in AddsAt({(s, id)}, s);
    hide NextPosition, Rank, Waiting, ActiveOf;
  }

  lemma OthersCalm(sec: Section, s: SectionId)
    ensures CalmRows(sec.rows, PromoteFx(sec, s).sec.rows, {})
    ensures CalmRows(sec.rows, ExpireFx(sec, s).sec.rows, {})
  {
    OrderedInRows(sec.rows);
    assert forall id <- Promotable(sec) :: id in Waiting(sec.rows);
  }

  lemma DropCalm(sec: Section, s: SectionId, id: RowId)
    requires id in sec.rows
    ensures CalmRows(sec.rows, DropFx(sec, s, id).sec.rows, {})
  {
  }

  lemma SwapCalm(db: Db, source: SectionId, req: Request)
    requires req.Swap? && source in db.sections && req.target in db.sections && source != req.target
    requires req.id in db.sections[source].rows && db.sections[source].rows[req.id].Active()
             && req.newId !in db.sections[req.target].rows
    ensures Calm(db.sections, SwapDb(db, source, req).sections, {(req.target, req.newId)})
  {
    var adds := {(req.target, req.newId)};
    var db' := SwapDb(db, source, req);
    assert (req.target, req.newId) in adds;
    assert req.newId in AddsAt(adds, req.target);
    forall t <- db.sections
      ensures CalmRows(db.sections[t].rows, db'.sections[t].rows, AddsAt(adds, t))
    {
    }
  }

  lemma AtomicCalm(db: Db, req: Request, out: Outcome, db': Db)
    requires WellFormed(db, req) && Atomic(db, req, out, db')
    ensures Calm(db.sections, db'.sections, Adds(req, out))
  {
    assert forall s :: AddsAt({}, s) == {};
    hide EnrollFx, DropFx, PromoteFx, ExpireFx, OneSection, Calm, CalmRows;
    match req {
      case Enroll(x, s, id) =>
        EnrollCalm(db.sections[s], s, x, id);
        CalmOne(db, s, EnrollFx(db.sections[s], s, x, id), out, db', Adds(req, out)) by {
          assert OneSection(db, s, EnrollFx(db.sections[s], s, x, id), out, db');
        }
      case Drop(id) =>
        var s := HomeOf(db.sections, id).value;
        DropCalm(db.sections[s], s, id);
        CalmOne(db, s, DropFx(db.sections[s], s, id), out, db', {});
      case Swap(_, _, _, _) => SwapRowsCalm(db, req, out, db');
      case Promote(s) =>
        NothingCalm(db);
        if db' != db { OthersCalm(db.sections[s], s); CalmOne(db, s, PromoteFx(db.sections[s], s), out, db', {}); }
      case Reorder(s, order) => ReorderCalm(db, s, order, out, db');
      case Expire(s) =>
        NothingCalm(db);
        if db' != db { OthersCalm(db.sections[s], s); CalmOne(db, s, ExpireFx(db.sections[s], s), out, db', {}); }
      case Edit(s, c, w) => EditCalm(db, s, c, w, out, db');
    }
  }

  lemma NothingCalm(db: Db)
    ensures Calm(db.sections, db.sections, {})
  {
  }

  lemma SwapRowsCalm(db: Db, req: Request, out: Outcome, db': Db)
    requires req.Swap? && FreshId(db.sections, req.newId) && AtomicSwap(db, req, out, db')
    ensures Calm(db.sections, db'.sections, Adds(req, out))
  {
    if out.SameSection? { NothingCalm(db); } else { SwapCalm(db, HomeOf(db.sections, req.id).value, req); }
  }

  lemma ReorderCalm(db: Db, s: SectionId, order: seq<RowId>, out: Outcome, db': Db)
    requires s in db.sections && OneSection(db, s, ReorderFx(db.sections[s], s, order), out, db')
    ensures Calm(db.sections, db'.sections, {})
  {
    hide Ordered, Waiting;
    CalmOne(db, s, ReorderFx(db.sections[s], s, order), out, db', {});
  }

  lemma EditCalm(db: Db, s: SectionId, c: Option<int>, w: Option<Option<nat>>, out: Outcome, db': Db)
    requires s in db.sections && OneSection(db, s, EditFx(db.sections[s], s, c, w), out, db')
    ensures Calm(db.sections, db'.sections, {})
  {
    CalmOne(db, s, EditFx(db.sections[s], s, c, w), out, db', {});
  }

  // --------------------------------------------------- transactions in flight

  // Swaps within one course skip the first two checks.
  predicate Skips(cat: Catalog, t: Txn)
    requires Adding(t.req)
  {
    t.req.Swap? && cat.course(t.home) == cat.course(t.req.target)
  }

  // How many checks of the chain a transaction has passed: course,
  // prerequisites, clashes, credits.
  function Stage(t: Txn): nat {
    match t.pc
    case Enrolling(e) =>
      if e.EnrollPrereq? then 1 else if e.EnrollMine? then 2 else if e.EnrollOverload? then 3
      else if EnrollChecking(e) || e.EnrollLock? then 0 else 4
    case Swapping(w) =>
      if w.SwapPrereq? then 1 else if w.SwapMine? then 2 else if w.SwapOverload? then 3
      else if SwapWriting(w) then 4 else 0
    case Ready(out) => if out.EnrolledAs? || out.WaitlistedAs? || out.SwappedTo? then 4 else 0
    case _ => 0
  }

  function CreditsRead(t: Txn): nat {
    match t.pc
    case Enrolling(EnrollOverload(_, credits)) => credits
    case Swapping(SwapOverload(_, credits)) => credits
    case _ => 0
  }

  // The checks passed so far still hold of the database as it is now.
  ghost predicate Checked(cat: Catalog, sections: map<SectionId, Section>, t: Txn)
    requires Adding(t.req)
  {
    var x, target, others := t.req.student, TargetOf(t.req), OtherSeats(sections, t.req);
    var mine := SameTerm(cat, others, cat.term(target));
    && (Stage(t) >= 1 && !Skips(cat, t) ==> !DuplicateCourse(cat, others, target))
    && (Stage(t) >= 2 && !Skips(cat, t) ==> PrerequisitesMet(cat, sections, x, target))
    && (Stage(t) >= 3 ==> !ClashesWith(cat, mine, target))
    && (Stage(t) == 3 ==> CreditSum(cat, mine) <= CreditsRead(t))
    && (Stage(t) >= 4 ==> CreditsFit(cat, x, mine, target))
  }

  ghost predicate TxnChecked(cat: Catalog, sections: map<SectionId, Section>, t: Txn) {
    t.Unfinished() && Adding(t.req) ==> Checked(cat, sections, t) && t.pc != Failed(UNIQUE_VIOLATION)
  }

  // Another operation that adds nothing for this student leaves the verdicts standing.
  lemma CheckedUndisturbed(cat: Catalog, sections: map<SectionId, Section>, sections': map<SectionId, Section>, t: Txn)
    requires Adding(t.req) && Checked(cat, sections, t)
    requires ActiveSeats(sections', t.req.student) <= ActiveSeats(sections, t.req.student)
    requires CompletedCourses(cat, sections, t.req.student) <= CompletedCourses(cat, sections', t.req.student)
    ensures Checked(cat, sections', t)
  {
    var x, target := t.req.student, TargetOf(t.req);
    var others, others' := OtherSeats(sections, t.req), OtherSeats(sections', t.req);
    assert others' <= others by { hide ActiveSeats; }
    AdmitsMonotone(cat, x, others, {}, target, others');
    hide ActiveSeats, CompletedCourses, OtherSeats, SameTerm, DuplicateCourse, ClashesWith, CreditSum, Stage, Skips;
  }

  // A statement passes a check only by evaluating it on the database as it is.
  lemma EnrollChecked(cat: Catalog, sections: map<SectionId, Section>, t: Txn, e: EnrollPc, now: nat, hold: bool)
    requires t.req.Enroll? && t.pc == Enrolling(e) && !e.EnrollLock?
    requires EnrollChecking(e) ==> t.writes == []
    requires Checked(cat, sections, t)
    ensures Checked(cat, sections, ExecEnroll(cat, sections, t, e, now, hold))
  {
    NothingWritten(sections);
    hide View, ViewAll, ActiveSeats, CompletedCourses, SameTerm, DuplicateCourse, ClashesWith, CreditSum, Gate;
    hide HolderRow, ActiveOf;
    hide NextPosition, Rank, Waiting, SeatsOutside, SeatsExcept;
  }

  lemma SwapChecked(cat: Catalog, sections: map<SectionId, Section>, t: Txn, w: SwapPc, now: nat, hold: bool)
    requires t.req.Swap? && t.pc == Swapping(w) && !w.SwapLock1? && !w.SwapLock2?
    requires !SwapWriting(w) ==> t.writes == []
    requires Checked(cat, sections, t)
    ensures Checked(cat, sections, ExecSwap(cat, sections, t, w, now, hold))
  {
    hide ExecSwapWrites, ExecSwapChecks, Checked, ActiveSeats, ViewAll;
    if SwapWriting(w) {
      if t.home in sections && t.req.target in sections { SwapWritesChecked(cat, sections, t, w); }
      else { FailedChecked(cat, sections, t); }
    } else if w.SwapRead? || t.home !in sections || t.req.target !in sections {
      UncheckedYet(cat, sections, t, ExecSwap(cat, sections, t, w, now, hold));
    } else {
      SwapChecksChecked(cat, sections, t, w, now, hold);
    }
  }

  lemma FailedChecked(cat: Catalog, sections: map<SectionId, Section>, t: Txn)
    requires Adding(t.req)
    ensures forall code :: Checked(cat, sections, Fail(t, code))
  {
    hide ActiveSeats, SameTerm;
  }

  lemma UncheckedYet(cat: Catalog, sections: map<SectionId, Section>, t: Txn, t': Txn)
    requires Adding(t'.req) && Stage(t') == 0
    ensures Checked(cat, sections, t')
  {
    hide ActiveSeats, SameTerm;
  }

  lemma SwapWritesChecked(cat: Catalog, sections: map<SectionId, Section>, t: Txn, w: SwapPc)
    requires t.req.Swap? && t.pc == Swapping(w) && t.home in sections && t.req.target in sections && SwapWriting(w)
    requires Checked(cat, sections, t)
    ensures Checked(cat, sections, ExecSwapWrites(sections, t, w))
  {
    hide View, ViewAll, ActiveSeats, CompletedCourses, SameTerm, DuplicateCourse, PrerequisitesMet, ClashesWith;
    hide CreditsFit, CreditSum;
    hide SeatsExcept, CheckHolds, Release, ActiveOf;
  }

  lemma SwapChecksChecked(cat: Catalog, sections: map<SectionId, Section>, t: Txn, w: SwapPc, now: nat, hold: bool)
    requires t.req.Swap? && t.pc == Swapping(w) && !w.SwapLock1? && !w.SwapLock2? && !w.SwapRead? && !SwapWriting(w)
    requires t.home in sections && t.req.target in sections && t.writes == [] && Checked(cat, sections, t)
    ensures Checked(cat, sections, ExecSwapChecks(cat, sections, t, w, now, hold))
  {
    NothingWritten(sections);
    hide View, ViewAll, ActiveSeats, CompletedCourses, SameTerm, DuplicateCourse, ClashesWith, CreditSum, Gate;
    hide ActiveOf, HomeOf;
    hide SeatsExcept;
  }

  // --------------------------------------------------------- the invariant

  // One student's own enroll and swap requests do not overlap.
  ghost predicate AddingSerial(st: State) {
    forall t, u | t in st.txns && u in st.txns && t != u && st.txns[t].Unfinished() && st.txns[u].Unfinished()
                  && Adding(st.txns[t].req) && Adding(st.txns[u].req) ::
      st.txns[t].req.student != st.txns[u].req.student
  }

  ghost predicate StudentOk(cat: Catalog, sections: map<SectionId, Section>, x: StudentId) {
    Eligible(cat, x, ActiveSeats(sections, x), CompletedCourses(cat, sections, x))
  }

  ghost predicate ElInv(cat: Catalog, st: State) {
    && (forall x: StudentId :: StudentOk(cat, st.db.sections, x))
    && (forall t <- st.txns :: TxnChecked(cat, st.db.sections, st.txns[t]))
  }

  lemma HeldRowsAreOthers(sections: map<SectionId, Section>, t: Txn)
    requires IdsUnique(sections) && UnderBothLocks(sections, t)
    ensures forall j <- ActiveOf(sections[t.req.target].rows, t.req.student) ::
            (t.req.target, j) in OtherSeats(sections, t.req)
  {
    hide GoodSwapPc;
    forall j <- ActiveOf(sections[t.req.target].rows, t.req.student)
      ensures (t.req.target, j) in OtherSeats(sections, t.req)
    {
      assert (t.req.target, j) in ActiveSeats(sections, t.req.student);
      assert j != t.req.id;
    }
  }

  // The checks passed and the student's other rows leave no room for a
  // second active row in the target: the unique index cannot fire.
  lemma SwapUnheld(cat: Catalog, sections: map<SectionId, Section>, t: Txn)
    requires IdsUnique(sections) && UnderBothLocks(sections, t) && Stage(t) >= 4
             && sections[t.home].rows[t.req.id].Active()
    requires Checked(cat, sections, t) && StudentOk(cat, sections, t.req.student)
    ensures ActiveOf(sections[t.req.target].rows, t.req.student) == {}
    ensures Admits(cat, t.req.student, OtherSeats(sections, t.req), CompletedCourses(cat, sections, t.req.student),
                   t.req.target)
  {
    var x, target, seats := t.req.student, t.req.target, ActiveSeats(sections, t.req.student);
    var others := OtherSeats(sections, t.req);
    var src := (t.home, t.req.id);
    assert src in seats;
    forall p <- others
      ensures cat.course(p.0) != cat.course(target)
    {
      if Skips(cat, t) { assert p in seats && p != src; }
    }
    HeldRowsAreOthers(sections, t);
  }

  // What commits on behalf of a student is what the chain admits, judged on
  // the database at the moment of the commit.
  lemma CommitAdmits(cat: Catalog, st: State, t: TxnId, txn: Txn)
    requires Inv(st) && ElInv(cat, st) && t in st.txns && st.txns[t] == txn && txn.pc.Ready? && Adding(txn.req)
    requires Adds(txn.req, txn.pc.out) != {}
    ensures Admits(cat, txn.req.student, OtherSeats(st.db.sections, txn.req),
                   CompletedCourses(cat, st.db.sections, txn.req.student), TargetOf(txn.req))
  {
    hide GoodTxn, Admits, StudentOk, OtherSeats, CompletedCourses, Checked, IdsUnique, DbInvariant, LocksAgree;
    hide IdsKnown, SeatInvariant;
    var sections := st.db.sections;
    assert TxnChecked(cat, sections, txn) && StudentOk(cat, sections, txn.req.student) && GoodTxn(sections, txn);
    DbSections(st.db);
    hide Inv, ElInv;
    if txn.req.Swap? {
      SwapReady(sections, txn);
      SwapUnheld(cat, sections, txn);
    } else {
      EnrollReady(cat, sections, txn);
    }
  }

  lemma EnrollReady(cat: Catalog, sections: map<SectionId, Section>, txn: Txn)
    requires txn.req.Enroll? && txn.pc.Ready? && (txn.pc.out.EnrolledAs? || txn.pc.out.WaitlistedAs?)
             && Checked(cat, sections, txn)
    ensures Admits(cat, txn.req.student, OtherSeats(sections, txn.req),
                   CompletedCourses(cat, sections, txn.req.student), TargetOf(txn.req))
  {
    hide OtherSeats, CompletedCourses, SameTerm, DuplicateCourse, ClashesWith, CreditsFit;
  }

  lemma SwapReady(sections: map<SectionId, Section>, txn: Txn)
    requires GoodTxn(sections, txn) && txn.pc.Ready? && txn.req.Swap? && txn.pc.out.SwappedTo?
    ensures UnderBothLocks(sections, txn) && sections[txn.home].rows[txn.req.id].Active()
  {
  }

  // ---------------------------------------------------------------- commits

  // An enroll or swap that adds a row leaves its student with the rows it was
  // checked against and the new one, and adds nothing for anyone else.
  lemma EnrollAdded(db: Db, s: SectionId, x: StudentId, id: RowId, out: Outcome, db': Db, y: StudentId)
    requires s in db.sections && id !in db.sections[s].rows
    requires OneSection(db, s, EnrollFx(db.sections[s], s, x, id), out, db') && (out.EnrolledAs? || out.WaitlistedAs?)
    ensures y == x ==> ActiveSeats(db'.sections, y) <= SeatsOutside(ActiveSeats(db.sections, x), s) + {(s, id)}
    ensures y != x ==> ActiveSeats(db'.sections, y) <= ActiveSeats(db.sections, y)
  {
    var rows, rows' := db.sections[s].rows, db'.sections[s].rows;
    assert ActiveOf(rows, x) == {};
    assert rows' == rows[id := rows'[id]] && rows'[id].student == x;
    hide EnrollFx, HolderRow;
    forall p | p in ActiveSeats(db'.sections, y)
      ensures y == x ==> p in SeatsOutside(ActiveSeats(db.sections, x), s) + {(s, id)}
      ensures y != x ==> p in ActiveSeats(db.sections, y)
    {
      if p.0 == s && p.1 != id && y == x { assert p.1 !in ActiveOf(rows, x); }
    }
  }

  lemma SwapAdded(db: Db, req: Request, out: Outcome, db': Db, y: StudentId)
    requires req.Swap? && IdsUnique(db.sections) && FreshId(db.sections, req.newId)
    requires AtomicSwap(db, req, out, db') && out.SwappedTo?
    ensures y == req.student ==>
              ActiveSeats(db'.sections, y) <= SeatsExcept(ActiveSeats(db.sections, y), req.id)
                  + {(req.target, req.newId)}
    ensures y != req.student ==> ActiveSeats(db'.sections, y) <= ActiveSeats(db.sections, y)
  {
    var source := HomeOf(db.sections, req.id).value;
    forall p | p in ActiveSeats(db'.sections, y)
      ensures y == req.student ==> p in SeatsExcept(ActiveSeats(db.sections, y), req.id) + {(req.target, req.newId)}
      ensures y != req.student ==> p in ActiveSeats(db.sections, y)
    {
      assert p.0 != source && p.0 != req.target ==> db'.sections[p.0] == db.sections[p.0];
    }
  }

  lemma AtomicAdded(db: Db, req: Request, out: Outcome, db': Db, y: StudentId)
    requires IdsUnique(db.sections) && WellFormed(db, req) && Atomic(db, req, out, db') && Adds(req, out) != {}
    ensures y == req.student ==> ActiveSeats(db'.sections, y) <= OtherSeats(db.sections, req) + Adds(req, out)
    ensures y != req.student ==> ActiveSeats(db'.sections, y) <= ActiveSeats(db.sections, y)
  {
    hide OneSection, EnrollFx, AtomicSwap, ActiveSeats, SeatsOutside, SeatsExcept, IdsUnique;
    match req
    case Enroll(x, s, id) => EnrollAdded(db, s, x, id, out, db', y);
    case Swap(_, _, _, _) => SwapAdded(db, req, out, db', y);
    case _ =>
  }

  lemma OtherSeatsMine(sections: map<SectionId, Section>, req: Request)
    requires Adding(req)
    ensures OtherSeats(sections, req) <= ActiveSeats(sections, req.student)
  {
    hide ActiveSeats;
  }

  // An operation the chain admits leaves every student eligible.
  lemma AtomicEligible(cat: Catalog, db: Db, req: Request, out: Outcome, db': Db, y: StudentId)
    requires IdsUnique(db.sections) && WellFormed(db, req) && Atomic(db, req, out, db')
             && StudentOk(cat, db.sections, y)
    requires Adds(req, out) != {} && y == req.student ==>
               Admits(cat, y, OtherSeats(db.sections, req), CompletedCourses(cat, db.sections, y), TargetOf(req))
    ensures StudentOk(cat, db'.sections, y)
  {
    hide Eligible, Admits, Atomic, ActiveSeats, CompletedCourses, Calm, WellFormed, OtherSeats, IdsUnique;
    var adds := Adds(req, out);
    var done, done' := CompletedCourses(cat, db.sections, y), CompletedCourses(cat, db'.sections, y);
    var seats, seats' := ActiveSeats(db.sections, y), ActiveSeats(db'.sections, y);
    AtomicCalm(db, req, out, db');
    CalmStudent(cat, db.sections, db'.sections, adds, y);
    if adds == {} {
      EligibleSubset(cat, y, seats, done, seats', done');
    } else {
      AtomicAdded(db, req, out, db', y);
      if y == req.student {
        var others, p := OtherSeats(db.sections, req), (TargetOf(req), req.newId);
        OtherSeatsMine(db.sections, req);
        EligibleReplace(cat, y, seats, done, others, p, seats', done');
      } else {
        EligibleSubset(cat, y, seats, done, seats', done');
      }
    }
  }

  lemma CommitEligible(cat: Catalog, st: State, t: TxnId, txn: Txn, y: StudentId)
    requires Inv(st) && ElInv(cat, st) && t in st.txns && st.txns[t] == txn && txn.pc.Ready?
    ensures StudentOk(cat, CommitDb(st.db, txn.writes).sections, y)
  {
    assert StudentOk(cat, st.db.sections, y);
    if Adds(txn.req, txn.pc.out) != {} { CommitAdmits(cat, st, t, txn); }
    CommitEffect(st, t, txn);
    CommitWellFormed(st, t, txn);
    DbSections(st.db);
    hide ElInv, Inv, CommitDb, Atomic, StudentOk, Admits, DbInvariant, GrowsBy, WellFormed, OtherSeats;
    hide CompletedCourses, IdsUnique;
    AtomicEligible(cat, st.db, txn.req, txn.pc.out, CommitDb(st.db, txn.writes), y);
  }

  // ------------------------------------------------------------- statements

  lemma PreLockChecked(cat: Catalog, sections: map<SectionId, Section>, txn: Txn, now: nat, hold: bool)
    requires BeforeLock(sections, txn) && Stepping(txn) && TxnChecked(cat, sections, txn)
    ensures TxnChecked(cat, sections, Exec(cat, sections, txn, now, hold))
  {
    if Adding(txn.req) {
      PreLockStep(cat, sections, txn, now, hold);
      if txn.req.Enroll? { EnrollChecked(cat, sections, txn, txn.pc.e, now, hold); }
      else { SwapChecked(cat, sections, txn, txn.pc.w, now, hold); }
    } else {
      PreLockStep(cat, sections, txn, now, hold);
    }
    hide Checked, ExecEnroll, ExecSwap, ExecDrop, ExecPromote, ExecReorder, ExecExpire, ExecEdit, SourceKnown, HomeOf;
  }

  lemma EnrollingChecked(cat: Catalog, db: Db, txn: Txn, now: nat, hold: bool)
    requires DbInvariant(db) && UnderLock(db.sections, txn) && WritesIn(txn.writes, txn.held) && Stepping(txn)
    requires txn.req.Enroll? && TxnChecked(cat, db.sections, txn)
    ensures TxnChecked(cat, db.sections, Exec(cat, db.sections, txn, now, hold))
  {
    hide Checked, ExecEnroll, SeatInvariant, IdsUnique, DbInvariant, WritesIn, Matches;
    hide ExecDrop, ExecSwap, ExecPromote, ExecReorder, ExecExpire, ExecEdit, HolderRow, Join, View, Waiting;
    hide NextPosition, Rank;
    var sections := db.sections;
    assert EnrollChecking(txn.pc.e) ==> txn.writes == [];
    assert !txn.pc.e.EnrollLock?;
    hide GoodEnroll;
    DbSections(db);
    UnderLockStep(cat, sections, txn, now, hold);
    EnrollChecked(cat, sections, txn, txn.pc.e, now, hold);
  }

  // The insert is the only statement of a swap that the unique index can refuse.
  lemma OnlyInsertRefused(cat: Catalog, sections: map<SectionId, Section>, txn: Txn, w: SwapPc, now: nat, hold: bool)
    requires txn.pc == Swapping(w) && txn.req.Swap? && txn.home in sections && txn.req.target in sections
             && !w.SwapRead?
    requires w.SwapInsert? ==>
               ActiveOf(View(sections[txn.req.target], txn.req.target, txn.writes).rows, txn.req.student) == {}
    ensures ExecSwap(cat, sections, txn, w, now, hold).pc != Failed(UNIQUE_VIOLATION)
  {
    hide View, ViewAll, Others, OthersInTerm, DuplicateCourse, PrerequisitesMet, ClashesWith, CreditSum, ActiveOf;
    hide CheckHolds;
  }

  lemma SwapFacts(sections: map<SectionId, Section>, txn: Txn)
    requires UnderBothLocks(sections, txn) && Stepping(txn)
    ensures txn.pc.Swapping? && !txn.pc.w.SwapRead? && !txn.pc.w.SwapLock1? && !txn.pc.w.SwapLock2?
    ensures !SwapWriting(txn.pc.w) ==> txn.writes == []
    ensures SwapWriting(txn.pc.w) ==> sections[txn.home].rows[txn.req.id].Active()
    ensures txn.pc.w.SwapInsert? ==>
              View(sections[txn.req.target], txn.req.target, txn.writes) == sections[txn.req.target]
  {
  }

  lemma SwappingChecked(cat: Catalog, db: Db, txn: Txn, now: nat, hold: bool)
    requires DbInvariant(db) && UnderBothLocks(db.sections, txn) && Stepping(txn)
    requires TxnChecked(cat, db.sections, txn) && StudentOk(cat, db.sections, txn.req.student)
    ensures TxnChecked(cat, db.sections, Exec(cat, db.sections, txn, now, hold))
  {
    hide Checked, StudentOk, SeatInvariant, IdsUnique, DbInvariant, OtherSeats, GoodSwapPc, View, ExecSwap, WritesIn;
    var sections := db.sections;
    SwapFacts(sections, txn);
    DbSections(db);
    if txn.pc.w.SwapInsert? { SwapUnheld(cat, sections, txn); }
    OnlyInsertRefused(cat, sections, txn, txn.pc.w, now, hold);
    SwapChecked(cat, sections, txn, txn.pc.w, now, hold);
  }

  lemma StatementChecked(cat: Catalog, db: Db, txn: Txn, now: nat, hold: bool)
    requires DbInvariant(db) && GoodTxn(db.sections, txn) && Stepping(txn)
    requires TxnChecked(cat, db.sections, txn) && forall x: StudentId :: StudentOk(cat, db.sections, x)
    ensures TxnChecked(cat, db.sections, Exec(cat, db.sections, txn, now, hold))
  {
    hide TxnChecked, DbInvariant, StudentOk, Exec, BeforeLock, WritesIn;
    if BeforeLock(db.sections, txn) { PreLockChecked(cat, db.sections, txn, now, hold); }
    else if txn.req.Enroll? { EnrollingChecked(cat, db, txn, now, hold); }
    else if txn.req.Swap? { SwappingChecked(cat, db, txn, now, hold); }
    else { OthersUnchecked(cat, db, txn, now, hold); }
  }

  lemma OthersUnchecked(cat: Catalog, db: Db, txn: Txn, now: nat, hold: bool)
    requires !Adding(txn.req)
    ensures TxnChecked(cat, db.sections, Exec(cat, db.sections, txn, now, hold))
  {
    hide View, HomeOf, Ordered, First, Waiting, Waiters;
  }

  // -------------------------------------------------------------- whole runs

  // A step that leaves the database alone.
  lemma TxnStepKeeps(cat: Catalog, st: State, t: TxnId, txn: Txn)
    requires ElInv(cat, st) && TxnChecked(cat, st.db.sections, txn)
    ensures forall st': State | st'.db == st.db && st'.txns == st.txns[t := txn] :: ElInv(cat, st')
  {
    hide StudentOk, TxnChecked;
  }

  lemma LockedChecked(cat: Catalog, sections: map<SectionId, Section>, txn: Txn, s: SectionId)
    requires GoodTxn(sections, txn) && Wants(txn) == Some(s) && TxnChecked(cat, sections, txn)
    ensures s in sections ==> TxnChecked(cat, sections, Locked(txn, s, sections[s].cols))
    ensures TxnChecked(cat, sections, Missing(txn))
  {
    hide DuplicateCourse, PrerequisitesMet, ClashesWith, CreditSum, SameTerm, OtherSeats, CreditsFit, Skips;
    hide SourceKnown, WritesIn;
    hide UnderLock, UnderBothLocks;
  }

  lemma CommitOthers(cat: Catalog, st: State, t: TxnId, txn: Txn, u: TxnId)
    requires Inv(st) && ElInv(cat, st) && AddingSerial(st) && t in st.txns && st.txns[t] == txn && txn.pc.Ready?
    requires u in st.txns && u != t
    ensures TxnChecked(cat, CommitDb(st.db, txn.writes).sections, st.txns[u])
  {
    var db, db', other := st.db, CommitDb(st.db, txn.writes), st.txns[u];
    assert TxnChecked(cat, db.sections, other);
    if other.Unfinished() && Adding(other.req) {
      var y := other.req.student;
      assert Adding(txn.req) ==> txn.req.student != y;
      CommitEffect(st, t, txn);
      CommitWellFormed(st, t, txn);
      DbSections(db);
      hide Inv, ElInv, AddingSerial, Checked, Atomic, CommitDb, DbInvariant, GrowsBy, IdsUnique, ActiveSeats;
      hide CompletedCourses, WellFormed, Calm;
      AtomicCalm(db, txn.req, txn.pc.out, db');
      CalmStudent(cat, db.sections, db'.sections, Adds(txn.req, txn.pc.out), y);
      if Adds(txn.req, txn.pc.out) != {} { AtomicAdded(db, txn.req, txn.pc.out, db', y); }
      CheckedUndisturbed(cat, db.sections, db'.sections, other);
    }
  }

  lemma CommitKeepsEl(cat: Catalog, st: State, t: TxnId, txn: Txn, st': State)
    requires Inv(st) && ElInv(cat, st) && AddingSerial(st) && t in st.txns && st.txns[t] == txn && txn.pc.Ready?
    requires st'.db == CommitDb(st.db, txn.writes) && t in st'.txns && !st'.txns[t].Unfinished()
    requires st'.txns.Keys == st.txns.Keys && forall u <- st.txns | u != t :: st'.txns[u] == st.txns[u]
    ensures ElInv(cat, st')
  {
    hide Inv, StudentOk, CommitDb, AddingSerial, Checked;
    forall x: StudentId ensures StudentOk(cat, st'.db.sections, x) { CommitEligible(cat, st, t, txn, x); }
    forall u <- st'.txns ensures TxnChecked(cat, st'.db.sections, st'.txns[u]) {
      if u != t { CommitOthers(cat, st, t, txn, u); }
    }
  }

  lemma StepKeepsEl(cat: Catalog, st: State, a: Action)
    requires Inv(st) && ElInv(cat, st) && AddingSerial(st) && Enabled(st, a)
    ensures ElInv(cat, Next(cat, st, a))
  {
    hide DbInvariant, StudentOk, GoodTxn, Checked, LocksAgree, IdsKnown, CommitDb, Unlock, Exec, AddingSerial, Wants;
    hide Locked, Missing;
    var st' := Next(cat, st, a);
    match a
    case Begin(t, req) =>
      assert TxnChecked(cat, st.db.sections, Start(req)) by { StartChecked(cat, st.db.sections, req); }
      TxnStepKeeps(cat, st, t, Start(req));
    case Acquire(t) =>
      LockedChecked(cat, st.db.sections, st.txns[t], Wants(st.txns[t]).value);
      TxnStepKeeps(cat, st, t, st'.txns[t]);
    case Statement(t, now, hold) =>
      StatementChecked(cat, st.db, st.txns[t], now, hold);
      TxnStepKeeps(cat, st, t, st'.txns[t]);
    case Commit(t) => CommitKeepsEl(cat, st, t, st.txns[t], st');
    case Rollback(t) => TxnStepKeeps(cat, st, t, st'.txns[t]);
  }

  lemma StartChecked(cat: Catalog, sections: map<SectionId, Section>, req: Request)
    ensures TxnChecked(cat, sections, Start(req))
  {
    hide OtherSeats, SameTerm, PrerequisitesMet;
  }

  // In every state of the run no student has two adding requests in flight.
  ghost predicate OwnRequestsSerial(cat: Catalog, st: State, actions: seq<Action>)
    decreases |actions|
  {
    AddingSerial(st)
    && (actions != [] && Enabled(st, actions[0]) ==> OwnRequestsSerial(cat, Next(cat, st, actions[0]), actions[1..]))
  }

  lemma {:induction false} RunKeepsEl(cat: Catalog, st: State, actions: seq<Action>, st': State)
    requires Inv(st) && ElInv(cat, st) && Run(cat, st, actions, st') && OwnRequestsSerial(cat, st, actions)
    ensures ElInv(cat, st')
    decreases |actions|
  {
    if actions != [] {
      StepKeeps(cat, st, actions[0]);
      StepKeepsEl(cat, st, actions[0]);
      hide Inv, ElInv, Enabled, Next, AddingSerial;
      RunKeepsEl(cat, Next(cat, st, actions[0]), actions[1..], st');
    }
  }

  // x's active rows of a term, each once.
  ghost predicate ListsTerm(cat: Catalog, sections: map<SectionId, Section>, x: StudentId, term: TermId,
                            list: seq<RowKey>) {
    Distinct(list) && forall p :: p in list <==> HoldsRow(sections, x, p.0, p.1) && cat.term(p.0) == term
  }

  // Their credits are within the approved overload, or the term's own limit.
  ghost predicate WithinCap(cat: Catalog, sections: map<SectionId, Section>, x: StudentId, term: TermId) {
    forall list | ListsTerm(cat, sections, x, term, list) ::
      Total(cat, list) <= if (x, term) in cat.overloads then cat.overloads[(x, term)] else cat.maxCredits(term)
  }

  // A student in order, told of the rows: no two active rows of one course, none
  // of one term that clash, every prerequisite of every course held completed by
  // a row of their own, and a term's credits within the overload or the limit.
  ghost predicate InGoodOrder(cat: Catalog, sections: map<SectionId, Section>, x: StudentId) {
    && (forall p: RowKey, q: RowKey | HoldsRow(sections, x, p.0, p.1) && HoldsRow(sections, x, q.0, q.1) && p != q ::
          cat.course(p.0) != cat.course(q.0)
          && (cat.term(p.0) == cat.term(q.0) ==> !TimeConflict.Conflict(cat.pattern(p.0), cat.pattern(q.0))))
    && (forall p: RowKey, c | HoldsRow(sections, x, p.0, p.1) && c in cat.prereqs(cat.course(p.0)) ::
          HasCompleted(cat, sections, x, c))
    && (forall term: TermId :: WithinCap(cat, sections, x, term))
  }

  lemma HeldAre(sections: map<SectionId, Section>, x: StudentId)
    ensures forall p: RowKey :: p in ActiveSeats(sections, x) <==> HoldsRow(sections, x, p.0, p.1)
  {
  }

  lemma TermCredits(cat: Catalog, sections: map<SectionId, Section>, x: StudentId, term: TermId)
    ensures CreditSum(cat, SameTerm(cat, ActiveSeats(sections, x), term)) <= cat.CreditCap(x, term)
            <==> WithinCap(cat, sections, x, term)
  {
    HeldAre(sections, x);
    hide ActiveSeats, HoldsRow, CreditSum;
    var mine := SameTerm(cat, ActiveSeats(sections, x), term);
    forall list | ListsTerm(cat, sections, x, term, list)
      ensures CreditSum(cat, mine) == Total(cat, list)
    {
      assert Elems(list) == mine;
      TotalIs(cat, list);
    }
    var list := ListOf(mine);
    assert forall p :: p in list <==> p in Elems(list);
    assert ListsTerm(cat, sections, x, term, list);
  }

  lemma EligibleOnRows(cat: Catalog, sections: map<SectionId, Section>, x: StudentId)
    ensures StudentOk(cat, sections, x) <==> InGoodOrder(cat, sections, x)
  {
    HeldAre(sections, x);
    CompletedAre(cat, sections, x);
    forall term: TermId
      ensures CreditSum(cat, SameTerm(cat, ActiveSeats(sections, x), term)) <= cat.CreditCap(x, term)
              <==> WithinCap(cat, sections, x, term)
    {
      TermCredits(cat, sections, x, term);
    }
    hide ActiveSeats, HoldsRow, HasCompleted, CompletedCourses, CreditSum, SameTerm, WithinCap, TimeConflict.Conflict;
  }

  lemma InvOnRows(cat: Catalog, st: State, x: StudentId)
    requires ElInv(cat, st)
    ensures StudentOk(cat, st.db.sections, x) && InGoodOrder(cat, st.db.sections, x)
  {
    EligibleOnRows(cat, st.db.sections, x);
    hide Eligible;
  }

  // Eligibility is an invariant of interleaved runs, not just a gate: distinct
  // courses, no time conflict within a term, credits within the cap and
  // prerequisites completed, for every student in every committed state.
  lemma EveryoneStaysEligible(cat: Catalog, st: State, actions: seq<Action>, st': State, x: StudentId)
    requires Initial(st) && Run(cat, st, actions, st') && OwnRequestsSerial(cat, st, actions)
    requires forall y: StudentId :: StudentOk(cat, st.db.sections, y)
    ensures StudentOk(cat, st'.db.sections, x) && InGoodOrder(cat, st'.db.sections, x)
  {
    InitialInv(st);
    RunKeepsEl(cat, st, actions, st');
    hide *;
    InvOnRows(cat, st', x);
  }

  // Under the same hypothesis no swap is refused by the unique index, so the
  // checks skipped on a same-course swap are not missed.
  lemma SwapNeverRefused(cat: Catalog, st: State, actions: seq<Action>, st': State, t: TxnId)
    requires Initial(st) && Run(cat, st, actions, st') && OwnRequestsSerial(cat, st, actions)
    requires forall y: StudentId :: StudentOk(cat, st.db.sections, y)
    requires t in st'.txns
    ensures st'.txns[t].pc != Failed(UNIQUE_VIOLATION)
  {
    InitialInv(st);
    RunKeepsEl(cat, st, actions, st');
    RunRefines(cat, st, actions, st');
    TxnNeverTrips(st'.db.sections, st'.txns[t]);
    assert TxnChecked(cat, st'.db.sections, st'.txns[t]);
    hide StudentOk, Run, OwnRequestsSerial, GoodTxn, DbInvariant, Checked, Serial;
  }
}
