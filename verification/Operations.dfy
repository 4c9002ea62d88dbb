// The operations of the registration service as one-step functions on the
// database: what each transaction does when nothing else runs beside it.
module Operations {
  import opened Registry
  import opened Waitlist
  import TimeConflict

  datatype Standing = FRESHMAN | SOPHOMORE | JUNIOR | SENIOR

  // Course, term and user data, which no registration transaction writes.
  // Foreign keys always resolve, so each column is a total function.
  datatype Catalog = Catalog(
    course: SectionId -> CourseId,
    term: SectionId -> TermId,
    pattern: SectionId -> TimeConflict.Pattern,
    credits: CourseId -> nat,
    prereqs: CourseId -> set<CourseId>,
    opens: TermId -> nat,
    closes: TermId -> nat,
    maxCredits: TermId -> nat,
    windows: map<(TermId, Standing), nat>,
    overloads: map<(StudentId, TermId), nat>,
    students: map<StudentId, Option<Standing>>)
  {
    // The advisor-approved overload, else the term's own limit.
    function CreditCap(student: StudentId, term: TermId): nat {
      if (student, term) in overloads then overloads[(student, term)] else maxCredits(term)
    }

    // The student's standing window, else the term's opening time.
    function EffectiveOpens(student: StudentId, term: TermId): nat
      requires student in students
    {
      var standing := students[student];
      if standing.Some? && (term, standing.value) in windows
      then windows[(term, standing.value)] else opens(term)
    }
  }

  datatype Code =
    | SECTION_NOT_FOUND | REGISTRATION_CLOSED | STUDENT_NOT_FOUND | REGISTRATION_NOT_OPEN | ADVISOR_HOLD
    | DUPLICATE_COURSE | PREREQUISITE_NOT_MET | TIME_CONFLICT | CREDIT_LIMIT_EXCEEDED | SECTION_FULL
    | NOT_FOUND | FORBIDDEN | ALREADY_DROPPED | SWAP_TARGET_FULL | WAITLIST_CHANGED
    | NO_FIELDS | CAPACITY_BELOW_ENROLLED | UNIQUE_VIOLATION | CHECK_VIOLATION

  datatype Outcome =
    | Error(code: Code)
    | Already(id: RowId, status: Status, shownRank: Option<nat>)
    | EnrolledAs(id: RowId, seatsTaken: int)
    | WaitlistedAs(id: RowId, rank: nat)
    | DroppedRow(id: RowId, freedSeat: bool)
    | SwappedTo(id: RowId, freedSeat: bool)
    | SameSection(id: RowId)
    | PromotedRows(count: nat)
    | ReorderedRows
    | ExpiredRows(count: nat)
    | EditedSection(increased: bool)
    | RegistrationOver
    | NoSection

  // What a transaction leaves behind in one section.
  datatype Effect = Effect(sec: Section, events: seq<Event>, notes: seq<Note>, out: Outcome)

  function Nothing(sec: Section, out: Outcome): Effect { Effect(sec, [], [], out) }

  function Put(db: Db, s: SectionId, fx: Effect): Db {
    Db(db.sections[s := fx.sec], db.outbox + fx.events, db.notes + fx.notes)
  }

  // ------------------------------------------------- gates and eligibility

  type RowKey = (SectionId, RowId)

  // The student's ENROLLED and WAITLISTED rows, over all sections.
  function ActiveSeats(sections: map<SectionId, Section>, student: StudentId): set<RowKey> {
    set s, id | s in sections && id in sections[s].rows
                && sections[s].rows[id].student == student && sections[s].rows[id].Active() :: (s, id)
  }

  function CompletedCourses(cat: Catalog, sections: map<SectionId, Section>, student: StudentId): set<CourseId> {
    set s, id | s in sections && id in sections[s].rows
                && sections[s].rows[id].student == student && sections[s].rows[id].status.COMPLETED? :: cat.course(s)
  }

  // Registration window, student and advisor hold, in the order checked.
  function Gate(cat: Catalog, student: StudentId, s: SectionId, now: nat, hold: bool): Option<Code> {
    if now > cat.closes(cat.term(s)) then Some(REGISTRATION_CLOSED)
    else if student !in cat.students then Some(STUDENT_NOT_FOUND)
    else if now < cat.EffectiveOpens(student, cat.term(s)) then Some(REGISTRATION_NOT_OPEN)
    else if hold then Some(ADVISOR_HOLD)
    else None
  }

  predicate DuplicateCourse(cat: Catalog, others: set<RowKey>, target: SectionId) {
    exists p <- others :: cat.course(p.0) == cat.course(target)
  }

  predicate PrerequisitesMet(cat: Catalog, sections: map<SectionId, Section>, student: StudentId, target: SectionId) {
    cat.prereqs(cat.course(target)) <= CompletedCourses(cat, sections, student)
  }

  function SameTerm(cat: Catalog, seats: set<RowKey>, term: TermId): set<RowKey> {
    set p | p in seats && cat.term(p.0) == term
  }

  predicate ClashesWith(cat: Catalog, seats: set<RowKey>, target: SectionId) {
    exists p <- seats :: TimeConflict.Conflict(cat.pattern(target), cat.pattern(p.0))
  }

  // Row keys are totally ordered, which makes "the sum over a set" a function.
  predicate SeatLeq(p: RowKey, q: RowKey) { p.0 < q.0 || (p.0 == q.0 && p.1 <= q.1) }

  predicate IsLeastSeat(seats: set<RowKey>, p: RowKey) { p in seats && forall q | q in seats :: SeatLeq(p, q) }

  lemma LeastSeatExists(seats: set<RowKey>)
    requires seats != {}
    ensures exists p :: IsLeastSeat(seats, p)
    decreases seats
  {
    var x :| x in seats;
    if seats == {x} {
      assert IsLeastSeat(seats, x);
    } else {
      var rest := seats - {x};
      LeastSeatExists(rest);
      var y :| IsLeastSeat(rest, y);
      var best := if SeatLeq(x, y) then x else y;
      forall q | q in seats
        ensures SeatLeq(best, q)
      {
        assert q == x || q in rest;
      }
      assert IsLeastSeat(seats, best);
    }
  }

  function LeastSeat(seats: set<RowKey>): (p: RowKey)
    requires seats != {}
    ensures IsLeastSeat(seats, p)
  {
    LeastSeatExists(seats);
    var p :| p in seats && forall q | q in seats :: SeatLeq(p, q);
    p
  }

  function CreditSum(cat: Catalog, seats: set<RowKey>): nat
    decreases seats
  {
    if seats == {} then 0 else
      var p := LeastSeat(seats);
      cat.credits(cat.course(p.0)) + CreditSum(cat, seats - {p})
  }

  lemma {:induction false} CreditSumRemove(cat: Catalog, seats: set<RowKey>, p: RowKey)
    requires p in seats
    ensures CreditSum(cat, seats) == cat.credits(cat.course(p.0)) + CreditSum(cat, seats - {p})
    decreases seats
  {
    var q := LeastSeat(seats);
    if p != q {
      CreditSumRemove(cat, seats - {q}, p);
      CreditSumRemove(cat, seats - {p}, q);
      assert seats - {q} - {p} == seats - {p} - {q};
    }
  }

  lemma {:induction false} CreditSumMonotone(cat: Catalog, small: set<RowKey>, big: set<RowKey>)
    requires small <= big
    ensures CreditSum(cat, small) <= CreditSum(cat, big)
    decreases big
  {
    if small != big {
      var p :| p in big && p !in small;
      CreditSumRemove(cat, big, p);
      CreditSumMonotone(cat, small, big - {p});
    }
  }

  predicate CreditsFit(cat: Catalog, student: StudentId, seats: set<RowKey>, target: SectionId) {
    CreditSum(cat, seats) + cat.credits(cat.course(target)) <= cat.CreditCap(student, cat.term(target))
  }

  // The eligibility chain against the student's other active rows; the first
  // two checks are skipped on a swap within one course.
  function Verdict(cat: Catalog, sections: map<SectionId, Section>, student: StudentId, target: SectionId,
                   others: set<RowKey>, sameCourse: bool): Option<Code> {
    var mine := SameTerm(cat, others, cat.term(target));
    if !sameCourse && DuplicateCourse(cat, others, target) then Some(DUPLICATE_COURSE)
    else if !sameCourse && !PrerequisitesMet(cat, sections, student, target) then Some(PREREQUISITE_NOT_MET)
    else if ClashesWith(cat, mine, target) then Some(TIME_CONFLICT)
    else if !CreditsFit(cat, student, mine, target) then Some(CREDIT_LIMIT_EXCEEDED)
    else None
  }

  function SeatsOutside(seats: set<RowKey>, s: SectionId): set<RowKey> { set p | p in seats && p.0 != s }

  function SeatsExcept(seats: set<RowKey>, id: RowId): set<RowKey> { set p | p in seats && p.1 != id }

  // --------------------------------------------------- one-section effects

  // The student's active row in this section, if any (at most one exists).
  function HolderRow(rows: map<RowId, Row>, student: StudentId): (r: Option<RowId>)
    ensures r.Some? ==> r.value in ActiveOf(rows, student)
    ensures r.None? ==> ActiveOf(rows, student) == {}
  {
    var mine := ActiveOf(rows, student);
    if mine == {} then None else Some(First(rows, mine))
  }

  function AlreadyOutcome(sec: Section, id: RowId): Outcome
    requires id in sec.rows
  {
    var row := sec.rows[id];
    Already(id, row.status,
            if row.status.WAITLISTED? && row.position.Some? then Some(Rank(sec.rows, row.position.value)) else None)
  }

  // A seat if one is free, else the waitlist unless it is capped and full.
  function Join(sec: Section, s: SectionId, student: StudentId, id: RowId): Effect {
    if sec.cols.enrolledCount < sec.cols.capacity then
      var cols := sec.cols.(enrolledCount := sec.cols.enrolledCount + 1);
      Effect(Section(cols, sec.rows[id := Row(student, ENROLLED, None)]),
             [Created(id, student, s)], [], EnrolledAs(id, cols.enrolledCount))
    else if sec.cols.waitlistCap.Some? && |Waiting(sec.rows)| >= sec.cols.waitlistCap.value then
      Nothing(sec, Error(SECTION_FULL))
    else
      var p := NextPosition(sec.rows);
      var rows := sec.rows[id := Row(student, WAITLISTED, Some(p))];
      Effect(Section(sec.cols, rows), [Waitlisted(id, student, s, p)], [], WaitlistedAs(id, Rank(rows, p)))
  }

  // Under the section lock, with the eligibility chain already passed.
  function EnrollFx(sec: Section, s: SectionId, student: StudentId, id: RowId): Effect {
    var held := HolderRow(sec.rows, student);
    if held.Some? then Nothing(sec, AlreadyOutcome(sec, held.value)) else Join(sec, s, student, id)
  }

  function DropFx(sec: Section, s: SectionId, id: RowId): Effect
    requires id in sec.rows
  {
    var row := sec.rows[id];
    var rows := sec.rows[id := Release(row)];
    if row.status.ENROLLED? then
      Effect(Section(sec.cols.(enrolledCount := sec.cols.enrolledCount - 1), rows),
             [Dropped(id, s)], [], DroppedRow(id, true))
    else if row.status.WAITLISTED? then
      Effect(Section(sec.cols, rows), [WaitlistLeft(id, row.position)], [], DroppedRow(id, false))
    else
      Nothing(sec, Error(ALREADY_DROPPED))
  }

  function SwapOut(sec: Section, id: RowId): Section
    requires id in sec.rows
  {
    var row := sec.rows[id];
    Section(if row.status.ENROLLED? then sec.cols.(enrolledCount := sec.cols.enrolledCount - 1) else sec.cols,
            sec.rows[id := Release(row)])
  }

  function SwapIn(sec: Section, student: StudentId, id: RowId): Section {
    Section(sec.cols.(enrolledCount := sec.cols.enrolledCount + 1), sec.rows[id := Row(student, ENROLLED, None)])
  }

  function PromotionEvents(rows: map<RowId, Row>, s: SectionId, ids: seq<RowId>): seq<Event>
    requires forall id <- ids :: id in rows
  {
    seq(|ids|, k requires 0 <= k < |ids| => Promoted(ids[k], s, rows[ids[k]].position))
  }

  function PromotionNotes(rows: map<RowId, Row>, s: SectionId, ids: seq<RowId>): seq<Note>
    requires forall id <- ids :: id in rows
  {
    seq(|ids|, k requires 0 <= k < |ids| => PromotedNote(rows[ids[k]].student, ids[k], s))
  }

  // The first min(free seats, waiters) rows, in position order.
  function PromoteFx(sec: Section, s: SectionId): Effect {
    OrderedInRows(sec.rows);
    var ids := Promotable(sec);
    Effect(Section(sec.cols.(enrolledCount := sec.cols.enrolledCount + |ids|), Seated(sec.rows, ids)),
           PromotionEvents(sec.rows, s, ids), PromotionNotes(sec.rows, s, ids), PromotedRows(|ids|))
  }

  function ReorderFx(sec: Section, s: SectionId, order: seq<RowId>): Effect {
    if (set id <- order) == Waiting(sec.rows) then
      Effect(Section(sec.cols, Renumbered(sec.rows, order)),
             [Reordered(s, Ordered(sec.rows), order)], [], ReorderedRows)
    else
      Nothing(sec, Error(WAITLIST_CHANGED))
  }

  function ExpiryEvents(rows: map<RowId, Row>, ids: seq<RowId>): seq<Event>
    requires forall id <- ids :: id in rows
  {
    seq(|ids|, k requires 0 <= k < |ids| => Expired(ids[k], rows[ids[k]].position))
  }

  function ExpiryNotes(rows: map<RowId, Row>, s: SectionId, ids: seq<RowId>): seq<Note>
    requires forall id <- ids :: id in rows
  {
    seq(|ids|, k requires 0 <= k < |ids| => ExpiredNote(rows[ids[k]].student, ids[k], s))
  }

  // Every waiting row dropped. SQL leaves the row order open; position order
  // is taken here.
  function ExpireFx(sec: Section, s: SectionId): Effect {
    OrderedInRows(sec.rows);
    var ids := Ordered(sec.rows);
    Effect(Section(sec.cols, Released(sec.rows, ids)),
           ExpiryEvents(sec.rows, ids), ExpiryNotes(sec.rows, s, ids), ExpiredRows(|ids|))
  }

  // capacity/waitlistCap: None leaves the column alone.
  function EditFx(sec: Section, s: SectionId, capacity: Option<int>, waitlistCap: Option<Option<nat>>): Effect {
    var newCapacity := if capacity.Some? then capacity.value else sec.cols.capacity;
    var newCap := if waitlistCap.Some? then waitlistCap.value else sec.cols.waitlistCap;
    if newCapacity < sec.cols.enrolledCount then
      Nothing(sec, Error(CAPACITY_BELOW_ENROLLED))
    else
      Effect(Section(Columns(newCapacity, sec.cols.enrolledCount, newCap), sec.rows),
             [SectionUpdated(s, sec.cols, newCapacity, newCap)], [], EditedSection(newCapacity > sec.cols.capacity))
  }

  // ------------------------------------------------------ whole operations

  datatype Request =
    | Enroll(student: StudentId, section: SectionId, newId: RowId)
    | Drop(id: RowId)
    | Swap(student: StudentId, id: RowId, target: SectionId, newId: RowId)
    | Promote(section: SectionId)
    | Reorder(section: SectionId, order: seq<RowId>)
    | Expire(section: SectionId)
    | Edit(section: SectionId, capacity: Option<int>, waitlistCap: Option<Option<nat>>)

  // The section an enrollment row belongs to.
  function HomeOf(sections: map<SectionId, Section>, id: RowId): (r: Option<SectionId>)
    ensures r.Some? ==> r.value in sections && id in sections[r.value].rows
    ensures r.None? ==> forall s <- sections :: id !in sections[s].rows
  {
    var homes := set s | s in sections && id in sections[s].rows;
    assert forall s <- sections | id in sections[s].rows :: s in homes;
    if homes == {} then None else Some(LeastOf(homes))
  }

  // The swap's effect once every check has passed.
  function SwapDb(db: Db, source: SectionId, req: Request): Db
    requires req.Swap? && source in db.sections && req.target in db.sections && source != req.target
    requires req.id in db.sections[source].rows
  {
    var row := db.sections[source].rows[req.id];
    Db(db.sections[source := SwapOut(db.sections[source], req.id)]
                  [req.target := SwapIn(db.sections[req.target], req.student, req.newId)],
       db.outbox + [Swapped(req.id, source, row.status, req.newId, req.student, req.target)],
       db.notes)
  }

  function EnrollOp(cat: Catalog, db: Db, req: Request, now: nat, hold: bool): (Db, Outcome)
    requires req.Enroll?
  {
    if req.section !in db.sections then (db, Error(SECTION_NOT_FOUND)) else
      var gate := Gate(cat, req.student, req.section, now, hold);
      if gate.Some? then (db, Error(gate.value)) else
        var sec := db.sections[req.section];
        var others := SeatsOutside(ActiveSeats(db.sections, req.student), req.section);
        var verdict := Verdict(cat, db.sections, req.student, req.section, others, false);
        if HolderRow(sec.rows, req.student).None? && verdict.Some? then (db, Error(verdict.value)) else
          var fx := EnrollFx(sec, req.section, req.student, req.newId);
          (Put(db, req.section, fx), fx.out)
  }

  function DropOp(db: Db, id: RowId): (Db, Outcome) {
    var home := HomeOf(db.sections, id);
    if home.None? then (db, Error(NOT_FOUND)) else
      var fx := DropFx(db.sections[home.value], home.value, id);
      (Put(db, home.value, fx), fx.out)
  }

  function SwapOp(cat: Catalog, db: Db, req: Request, now: nat, hold: bool): (Db, Outcome)
    requires req.Swap?
  {
    var home := HomeOf(db.sections, req.id);
    if home.None? then (db, Error(NOT_FOUND)) else
      var row := db.sections[home.value].rows[req.id];
      if row.student != req.student then (db, Error(FORBIDDEN))
      else if !row.Active() then (db, Error(ALREADY_DROPPED))
      else if home.value == req.target then (db, SameSection(req.id))
      else if req.target !in db.sections then (db, Error(SECTION_NOT_FOUND))
      else
        var gate := Gate(cat, req.student, req.target, now, hold);
        if gate.Some? then (db, Error(gate.value)) else
          var tgt := db.sections[req.target];
          if tgt.cols.enrolledCount >= tgt.cols.capacity then (db, Error(SWAP_TARGET_FULL)) else
            var others := SeatsExcept(ActiveSeats(db.sections, req.student), req.id);
            var sameCourse := cat.course(home.value) == cat.course(req.target);
            var verdict := Verdict(cat, db.sections, req.student, req.target, others, sameCourse);
            if verdict.Some? then (db, Error(verdict.value))
            else if ActiveOf(tgt.rows, req.student) != {} then (db, Error(UNIQUE_VIOLATION))
            else (SwapDb(db, home.value, req), SwappedTo(req.newId, row.status.ENROLLED?))
  }

  function PromoteOp(cat: Catalog, db: Db, s: SectionId, now: nat): (Db, Outcome) {
    if s !in db.sections then (db, NoSection)
    else if cat.closes(cat.term(s)) < now then (db, RegistrationOver) else
      var fx := PromoteFx(db.sections[s], s);
      (Put(db, s, fx), fx.out)
  }

  function ReorderOp(db: Db, s: SectionId, order: seq<RowId>): (Db, Outcome) {
    if s !in db.sections then (db, Error(SECTION_NOT_FOUND)) else
      var fx := ReorderFx(db.sections[s], s, order);
      (Put(db, s, fx), fx.out)
  }

  function ExpireOp(db: Db, s: SectionId): (Db, Outcome) {
    if s !in db.sections then (db, NoSection) else
      var fx := ExpireFx(db.sections[s], s);
      (Put(db, s, fx), fx.out)
  }

  function EditOp(db: Db, s: SectionId, capacity: Option<int>, waitlistCap: Option<Option<nat>>): (Db, Outcome) {
    if capacity.None? && waitlistCap.None? then (db, Error(NO_FIELDS))
    else if s !in db.sections then (db, Error(SECTION_NOT_FOUND)) else
      var fx := EditFx(db.sections[s], s, capacity, waitlistCap);
      (Put(db, s, fx), fx.out)
  }

  function Apply(cat: Catalog, db: Db, req: Request, now: nat, hold: bool): (Db, Outcome) {
    match req
    case Enroll(_, _, _) => EnrollOp(cat, db, req, now, hold)
    case Drop(id) => DropOp(db, id)
    case Swap(_, _, _, _) => SwapOp(cat, db, req, now, hold)
    case Promote(s) => PromoteOp(cat, db, s, now)
    case Reorder(s, order) => ReorderOp(db, s, order)
    case Expire(s) => ExpireOp(db, s)
    case Edit(s, capacity, waitlistCap) => EditOp(db, s, capacity, waitlistCap)
  }
}
