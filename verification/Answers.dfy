// When each operation gives each answer and what it leaves behind, told of rows,
// columns and the catalog alone: an account of the service to read beside
// Operations, and proved to be what Operations does.
module Answers {
  import opened Registry
  import opened Waitlist
  import opened Operations
  import opened Seats
  import opened Promotion
  import opened ClosedTerm
  import TimeConflict

  type Sections = map<SectionId, Section>

  // Row id of section s is x's, and ENROLLED or WAITLISTED.
  ghost predicate HoldsRow(sections: Sections, x: StudentId, s: SectionId, id: RowId) {
    && s in sections && id in sections[s].rows && sections[s].rows[id].student == x
    && (sections[s].rows[id].status == ENROLLED || sections[s].rows[id].status == WAITLISTED)
  }

  ghost predicate HoldsPlace(sections: Sections, x: StudentId, s: SectionId) {
    exists id :: HoldsRow(sections, x, s, id)
  }

  // x has a COMPLETED row in some section of course c.
  ghost predicate HasCompleted(cat: Catalog, sections: Sections, x: StudentId, c: CourseId) {
    exists s, id :: s in sections && id in sections[s].rows && cat.course(s) == c
                    && sections[s].rows[id].student == x && sections[s].rows[id].status == COMPLETED
  }

  // --------------------------------------------------------------- the gate

  // Some window of the student's standing has opened, or there is none and the
  // term has.
  ghost predicate OpenTo(cat: Catalog, x: StudentId, term: TermId, now: nat) {
    && x in cat.students
    && if exists standing :: cat.students[x] == Some(standing) && (term, standing) in cat.windows
       then exists standing :: cat.students[x] == Some(standing) && (term, standing) in cat.windows
                               && cat.windows[(term, standing)] <= now
       else cat.opens(term) <= now
  }

  ghost predicate GateClear(cat: Catalog, x: StudentId, s: SectionId, now: nat, hold: bool) {
    !hold && OpenTo(cat, x, cat.term(s), now) && now <= cat.closes(cat.term(s))
  }

  // The close outranks an unknown student, that the opening, and a hold is named
  // only if it alone is to blame.
  ghost predicate GateRefused(cat: Catalog, x: StudentId, s: SectionId, now: nat, hold: bool, code: Code) {
    var term := cat.term(s);
    match code
    case REGISTRATION_CLOSED => now > cat.closes(term)
    case STUDENT_NOT_FOUND => now <= cat.closes(term) && x !in cat.students
    case REGISTRATION_NOT_OPEN => now <= cat.closes(term) && x in cat.students && !OpenTo(cat, x, term, now)
    case ADVISOR_HOLD => hold && OpenTo(cat, x, term, now) && now <= cat.closes(term)
    case _ => false
  }

  lemma GateIs(cat: Catalog, x: StudentId, s: SectionId, now: nat, hold: bool)
    ensures Gate(cat, x, s, now, hold).None? <==> GateClear(cat, x, s, now, hold)
    ensures forall code :: Gate(cat, x, s, now, hold) == Some(code) <==> GateRefused(cat, x, s, now, hold, code)
  {
    if x in cat.students && cat.students[x].Some? {
      assert cat.students[x] == Some(cat.students[x].value);
    }
  }

  // -------------------------------------------------------------- the chain

  predicate Adding(req: Request) { req.Enroll? || req.Swap? }

  function TargetOf(req: Request): SectionId
    requires Adding(req)
  {
    if req.Enroll? then req.section else req.target
  }

  // An active row of the student that counts against the request: for an enroll
  // one in another section, for a swap any but the one given up.
  ghost predicate Rival(sections: Sections, req: Request, p: RowKey)
    requires Adding(req)
  {
    HoldsRow(sections, req.student, p.0, p.1) && if req.Enroll? then p.0 != req.section else p.1 != req.id
  }

  ghost predicate CourseHeld(cat: Catalog, sections: Sections, req: Request)
    requires Adding(req)
  {
    exists p :: Rival(sections, req, p) && cat.course(p.0) == cat.course(TargetOf(req))
  }

  // Some prerequisite of the target's course is not among the student's own completions.
  ghost predicate Unprepared(cat: Catalog, sections: Sections, req: Request)
    requires Adding(req)
  {
    exists c :: c in cat.prereqs(cat.course(TargetOf(req))) && !HasCompleted(cat, sections, req.student, c)
  }

  ghost predicate TermRival(cat: Catalog, sections: Sections, req: Request, p: RowKey)
    requires Adding(req)
  {
    Rival(sections, req, p) && cat.term(p.0) == cat.term(TargetOf(req))
  }

  ghost predicate Clashing(cat: Catalog, sections: Sections, req: Request)
    requires Adding(req)
  {
    exists p :: TermRival(cat, sections, req, p)
                && TimeConflict.Conflict(cat.pattern(TargetOf(req)), cat.pattern(p.0))
  }

  // The credits of a list of rows, one after the other.
  function Total(cat: Catalog, list: seq<RowKey>): nat {
    if list == [] then 0 else cat.credits(cat.course(list[0].0)) + Total(cat, list[1..])
  }

  // Each row that counts, once.
  ghost predicate ListsRivals(cat: Catalog, sections: Sections, req: Request, list: seq<RowKey>)
    requires Adding(req)
  {
    Distinct(list) && forall p :: p in list <==> TermRival(cat, sections, req, p)
  }

  // With the target's credits they exceed the approved overload, or the term's
  // limit where there is none.
  ghost predicate TooMany(cat: Catalog, sections: Sections, req: Request)
    requires Adding(req)
  {
    var term, target := cat.term(TargetOf(req)), TargetOf(req);
    exists list :: ListsRivals(cat, sections, req, list)
                   && Total(cat, list) + cat.credits(cat.course(target))
                      > (if (req.student, term) in cat.overloads then cat.overloads[(req.student, term)]
                         else cat.maxCredits(term))
  }

  // same: a swap within one course, which skips the first two checks.
  ghost predicate ChainRefused(cat: Catalog, sections: Sections, req: Request, same: bool, code: Code)
    requires Adding(req)
  {
    var held := CourseHeld(cat, sections, req);
    var entitled := same || (!held && !Unprepared(cat, sections, req));
    match code
    case DUPLICATE_COURSE => !same && held
    case PREREQUISITE_NOT_MET => !same && !held && Unprepared(cat, sections, req)
    case TIME_CONFLICT => entitled && Clashing(cat, sections, req)
    case CREDIT_LIMIT_EXCEEDED => entitled && !Clashing(cat, sections, req) && TooMany(cat, sections, req)
    case _ => false
  }

  ghost predicate ChainClear(cat: Catalog, sections: Sections, req: Request, same: bool)
    requires Adding(req)
  {
    && (same || (!CourseHeld(cat, sections, req) && !Unprepared(cat, sections, req)))
    && !Clashing(cat, sections, req) && !TooMany(cat, sections, req)
  }

  // The rows the chain is asked about.
  function OtherSeats(sections: Sections, req: Request): set<RowKey>
    requires Adding(req)
  {
    var mine := ActiveSeats(sections, req.student);
    if req.Enroll? then SeatsOutside(mine, req.section) else SeatsExcept(mine, req.id)
  }

  lemma RivalsAre(sections: Sections, req: Request)
    requires Adding(req)
    ensures forall p: RowKey :: p in OtherSeats(sections, req) <==> Rival(sections, req, p)
  {
  }

  lemma CompletedAre(cat: Catalog, sections: Sections, x: StudentId)
    ensures forall c :: c in CompletedCourses(cat, sections, x) <==> HasCompleted(cat, sections, x, c)
  {
  }

  lemma {:induction false} TotalIs(cat: Catalog, list: seq<RowKey>)
    requires Distinct(list)
    ensures CreditSum(cat, Elems(list)) == Total(cat, list)
    decreases |list|
  {
    if list == [] {
      assert Elems(list) == {};
    } else {
      var p, rest := list[0], list[1..];
      assert list == [p] + rest;
      assert forall q :: q in list <==> q == p || q in rest;
      assert p !in rest;
      TotalIs(cat, rest);
      CreditSumRemove(cat, Elems(list), p);
      assert Elems(list) - {p} == Elems(rest);
    }
  }

  lemma {:induction false} ListOf(seats: set<RowKey>) returns (list: seq<RowKey>)
    ensures Distinct(list) && Elems(list) == seats
    decreases seats
  {
    list := [];
    if seats != {} {
      var p :| p in seats;
      var rest := ListOf(seats - {p});
      assert forall q :: q in rest <==> q in Elems(rest);
      list := [p] + rest;
      assert forall q :: q in list <==> q == p || q in rest;
    }
  }

  lemma CourseIs(cat: Catalog, sections: Sections, req: Request)
    requires Adding(req)
    ensures DuplicateCourse(cat, OtherSeats(sections, req), TargetOf(req)) <==> CourseHeld(cat, sections, req)
  {
    RivalsAre(sections, req);
    hide OtherSeats, Rival;
  }

  lemma PreparedIs(cat: Catalog, sections: Sections, req: Request)
    requires Adding(req)
    ensures PrerequisitesMet(cat, sections, req.student, TargetOf(req)) <==> !Unprepared(cat, sections, req)
  {
    CompletedAre(cat, sections, req.student);
    hide HasCompleted, CompletedCourses;
  }

  lemma TermRivalsAre(cat: Catalog, sections: Sections, req: Request)
    requires Adding(req)
    ensures forall p: RowKey :: p in SameTerm(cat, OtherSeats(sections, req), cat.term(TargetOf(req)))
                                <==> TermRival(cat, sections, req, p)
  {
    RivalsAre(sections, req);
    hide OtherSeats, Rival;
  }

  lemma CreditsAre(cat: Catalog, sections: Sections, req: Request)
    requires Adding(req)
    ensures CreditsFit(cat, req.student, SameTerm(cat, OtherSeats(sections, req), cat.term(TargetOf(req))),
                       TargetOf(req))
            <==> !TooMany(cat, sections, req)
  {
    TermRivalsAre(cat, sections, req);
    hide OtherSeats, SameTerm, TermRival, CreditSum;
    var mine := SameTerm(cat, OtherSeats(sections, req), cat.term(TargetOf(req)));
    forall list | ListsRivals(cat, sections, req, list)
      ensures CreditSum(cat, mine) == Total(cat, list)
    {
      assert Elems(list) == mine;
      TotalIs(cat, list);
    }
    var list := ListOf(mine);
    assert forall p :: p in list <==> p in Elems(list);
    assert ListsRivals(cat, sections, req, list);
  }

  lemma ClashIs(cat: Catalog, sections: Sections, req: Request)
    requires Adding(req)
    ensures ClashesWith(cat, SameTerm(cat, OtherSeats(sections, req), cat.term(TargetOf(req))), TargetOf(req))
            <==> Clashing(cat, sections, req)
  {
    TermRivalsAre(cat, sections, req);
    hide OtherSeats, TermRival, SameTerm, TimeConflict.Conflict;
  }

  // The chain refuses for the first reason there is, told of the rows.
  lemma ChainIs(cat: Catalog, sections: Sections, req: Request, same: bool)
    requires Adding(req)
    ensures var verdict := Verdict(cat, sections, req.student, TargetOf(req), OtherSeats(sections, req), same);
            && (verdict.None? <==> ChainClear(cat, sections, req, same))
            && forall code :: verdict == Some(code) <==> ChainRefused(cat, sections, req, same, code)
  {
    hide *;
    CourseIs(cat, sections, req);
    PreparedIs(cat, sections, req);
    ClashIs(cat, sections, req);
    CreditsAre(cat, sections, req);
    ChainOrder(cat, sections, req, same);
  }

  lemma ChainOrder(cat: Catalog, sections: Sections, req: Request, same: bool)
    requires Adding(req)
    requires DuplicateCourse(cat, OtherSeats(sections, req), TargetOf(req)) <==> CourseHeld(cat, sections, req)
    requires PrerequisitesMet(cat, sections, req.student, TargetOf(req)) <==> !Unprepared(cat, sections, req)
    requires ClashesWith(cat, SameTerm(cat, OtherSeats(sections, req), cat.term(TargetOf(req))), TargetOf(req))
             <==> Clashing(cat, sections, req)
    requires CreditsFit(cat, req.student, SameTerm(cat, OtherSeats(sections, req), cat.term(TargetOf(req))),
                        TargetOf(req))
             <==> !TooMany(cat, sections, req)
    ensures var verdict := Verdict(cat, sections, req.student, TargetOf(req), OtherSeats(sections, req), same);
            && (verdict.None? <==> ChainClear(cat, sections, req, same))
            && forall code :: verdict == Some(code) <==> ChainRefused(cat, sections, req, same, code)
  {
    hide OtherSeats, SameTerm, DuplicateCourse, PrerequisitesMet, ClashesWith, CreditsFit, CourseHeld, Unprepared;
    hide Clashing, TooMany, TargetOf;
  }

  // ------------------------------------------------------------- the tables

  function WaitingRows(rows: map<RowId, Row>): set<RowId> { set id | id in rows && rows[id].status == WAITLISTED }

  // No seat free, and the waitlist capped and full.
  ghost predicate NoPlace(sec: Section) {
    && sec.cols.enrolledCount == sec.cols.capacity
    && sec.cols.waitlistCap.Some? && |WaitingRows(sec.rows)| >= sec.cols.waitlistCap.value
  }

  ghost predicate EnrollRefused(cat: Catalog, sections: Sections, req: Request, now: nat, hold: bool, code: Code)
    requires req.Enroll?
  {
    var s, x := req.section, req.student;
    if s !in sections then code == SECTION_NOT_FOUND
    else if !GateClear(cat, x, s, now, hold) then GateRefused(cat, x, s, now, hold, code)
    else !HoldsPlace(sections, x, s)
         && if !ChainClear(cat, sections, req, false) then ChainRefused(cat, sections, req, false, code)
            else code == SECTION_FULL && NoPlace(sections[s])
  }

  ghost predicate DropRefused(sections: Sections, id: RowId, code: Code) {
    if forall s <- sections :: id !in sections[s].rows then code == NOT_FOUND
    else code == ALREADY_DROPPED && forall s, x :: !HoldsRow(sections, x, s, id)
  }

  // home: the section of the row to be given up.
  ghost predicate SwapRefusedFrom(cat: Catalog, sections: Sections, req: Request, home: SectionId, now: nat,
                                  hold: bool, code: Code)
    requires req.Swap? && home in sections && req.id in sections[home].rows
  {
    var row, x, target, same :=
        sections[home].rows[req.id], req.student, req.target, cat.course(home) == cat.course(req.target);
    if row.student != x then code == FORBIDDEN
    else if row.status != ENROLLED && row.status != WAITLISTED then code == ALREADY_DROPPED
    else if home == target then false
    else if target !in sections then code == SECTION_NOT_FOUND
    else if !GateClear(cat, x, target, now, hold) then GateRefused(cat, x, target, now, hold, code)
    else if sections[target].cols.enrolledCount == sections[target].cols.capacity then code == SWAP_TARGET_FULL
    else if !ChainClear(cat, sections, req, same) then ChainRefused(cat, sections, req, same, code)
    else code == UNIQUE_VIOLATION && HoldsPlace(sections, x, target)
  }

  ghost predicate SwapRefused(cat: Catalog, sections: Sections, req: Request, now: nat, hold: bool, code: Code)
    requires req.Swap?
  {
    if forall s <- sections :: req.id !in sections[s].rows then code == NOT_FOUND
    else exists home | home in sections && req.id in sections[home].rows ::
           SwapRefusedFrom(cat, sections, req, home, now, hold, code)
  }

  ghost predicate ReorderRefused(sections: Sections, s: SectionId, order: seq<RowId>, code: Code) {
    if s !in sections then code == SECTION_NOT_FOUND
    else code == WAITLIST_CHANGED && exists id :: id in order <==> id !in WaitingRows(sections[s].rows)
  }

  ghost predicate EditRefused(sections: Sections, req: Request, code: Code)
    requires req.Edit?
  {
    if req.capacity.None? && req.waitlistCap.None? then code == NO_FIELDS
    else if req.section !in sections then code == SECTION_NOT_FOUND
    else code == CAPACITY_BELOW_ENROLLED
         && exists n :: req.capacity == Some(n) && n < sections[req.section].cols.enrolledCount
  }

  // The operation is answered with this error. Promotion and expiry have none.
  ghost predicate Refused(cat: Catalog, sections: Sections, req: Request, now: nat, hold: bool, code: Code) {
    match req
    case Enroll(_, _, _) => EnrollRefused(cat, sections, req, now, hold, code)
    case Drop(id) => DropRefused(sections, id, code)
    case Swap(_, _, _, _) => SwapRefused(cat, sections, req, now, hold, code)
    case Reorder(s, order) => ReorderRefused(sections, s, order, code)
    case Edit(_, _, _) => EditRefused(sections, req, code)
    case Promote(_) => false
    case Expire(_) => false
  }

  // The waiting rows, each once, by rising position.
  ghost predicate Queue(rows: map<RowId, Row>, list: seq<RowId>) {
    && (forall id :: id in list <==> id in WaitingRows(rows))
    && (forall i, j | 0 <= i < j < |list| ::
          list[i] in rows && list[j] in rows && rows[list[i]].position.Some? && rows[list[j]].position.Some?
          && rows[list[i]].position.value < rows[list[j]].position.value)
  }

  // One above the last position waiting; 1 if nobody waits.
  ghost predicate NextFree(rows: map<RowId, Row>, p: nat) {
    && (forall id <- WaitingRows(rows) :: rows[id].position.Some? && rows[id].position.value < p)
    && (p == 1 || exists id <- WaitingRows(rows) :: rows[id].position == Some(p - 1))
    && (WaitingRows(rows) == {} ==> p == 1)
  }

  ghost predicate EnrollLeaves(db: Db, req: Request, out: Outcome, db': Db)
    requires req.Enroll?
  {
    var s, x := req.section, req.student;
    match out
    case Error(_) => db' == db
    case Already(id, status, shown) =>
      && db' == db && HoldsRow(db.sections, x, s, id) && status == db.sections[s].rows[id].status
      && if status == ENROLLED then shown == None
         else exists list, k: nat ::
             Queue(db.sections[s].rows, list) && k < |list| && list[k] == id && shown == Some(k + 1)
    case EnrolledAs(id, taken) =>
      && s in db.sections && !HoldsPlace(db.sections, x, s) && id == req.newId
      && var Section(cols, rows) := db.sections[s];
         && cols.enrolledCount < cols.capacity && taken == cols.enrolledCount + 1
         && db' == Db(db.sections[s := Section(Columns(cols.capacity, cols.enrolledCount + 1, cols.waitlistCap),
                                               rows[id := Row(x, ENROLLED, None)])],
                      db.outbox + [Created(id, x, s)], db.notes)
    case WaitlistedAs(id, rank) =>
      && s in db.sections && !HoldsPlace(db.sections, x, s) && id == req.newId
      && var Section(cols, rows) := db.sections[s];
         && cols.enrolledCount == cols.capacity && rank == |WaitingRows(rows)| + 1
         && exists p :: NextFree(rows, p)
                        && db' == Db(db.sections[s := Section(cols, rows[id := Row(x, WAITLISTED, Some(p))])],
                                     db.outbox + [Waitlisted(id, x, s, p)], db.notes)
    case _ => false
  }

  ghost predicate DropLeaves(db: Db, id: RowId, out: Outcome, db': Db) {
    match out
    case Error(_) => db' == db
    case DroppedRow(i, freed) =>
      i == id
      && exists s | s in db.sections && id in db.sections[s].rows ::
           var Section(cols, rows) := db.sections[s];
           var gone := rows[id := Row(rows[id].student, DROPPED, None)];
           if freed
           then rows[id].status == ENROLLED
                && db' == Db(db.sections[s := Section(Columns(cols.capacity, cols.enrolledCount - 1, cols.waitlistCap),
                                                      gone)],
                             db.outbox + [Dropped(id, s)], db.notes)
           else rows[id].status == WAITLISTED
                && db' == Db(db.sections[s := Section(cols, gone)], db.outbox + [WaitlistLeft(id, rows[id].position)],
                             db.notes)
    case _ => false
  }

  // Row id of home given up for a seat in the target.
  ghost predicate Exchanged(db: Db, req: Request, home: SectionId, freed: bool, db': Db)
    requires req.Swap? && home in db.sections && req.id in db.sections[home].rows && req.target in db.sections
  {
    var Section(cols, rows) := db.sections[home];
    var Section(tcols, trows) := db.sections[req.target];
    var row := rows[req.id];
    && HoldsRow(db.sections, req.student, home, req.id) && home != req.target && tcols.enrolledCount < tcols.capacity
    && (freed <==> row.status == ENROLLED)
    && db' == Db(db.sections[home := Section(Columns(cols.capacity,
                                                     if freed then cols.enrolledCount - 1 else cols.enrolledCount,
                                                     cols.waitlistCap),
                                             rows[req.id := Row(req.student, DROPPED, None)])]
                            [req.target := Section(Columns(tcols.capacity, tcols.enrolledCount + 1, tcols.waitlistCap),
                                                   trows[req.newId := Row(req.student, ENROLLED, None)])],
                 db.outbox + [Swapped(req.id, home, row.status, req.newId, req.student, req.target)], db.notes)
  }

  ghost predicate SwapLeaves(db: Db, req: Request, out: Outcome, db': Db)
    requires req.Swap?
  {
    match out
    case Error(_) => db' == db
    case SameSection(id) => db' == db && id == req.id && HoldsRow(db.sections, req.student, req.target, id)
    case SwappedTo(id, freed) =>
      && id == req.newId && req.target in db.sections && !HoldsPlace(db.sections, req.student, req.target)
      && exists home | home in db.sections && req.id in db.sections[home].rows :: Exchanged(db, req, home, freed, db')
    case _ => false
  }

  function TakenUp(rows: map<RowId, Row>, ids: seq<RowId>, status: Status): map<RowId, Row> {
    map id | id in rows :: if id in ids then Row(rows[id].student, status, None) else rows[id]
  }

  // The first rows of the queue seated, as many as there are free seats.
  ghost predicate FirstSeated(db: Db, s: SectionId, queue: seq<RowId>, count: nat, db': Db)
    requires s in db.sections
  {
    var Section(cols, rows) := db.sections[s];
    && Queue(rows, queue) && (forall id <- queue :: id in rows) && count <= |queue|
    && cols.enrolledCount + count <= cols.capacity && (count == |queue| || cols.enrolledCount + count == cols.capacity)
    && db' == Db(db.sections[s := Section(Columns(cols.capacity, cols.enrolledCount + count, cols.waitlistCap),
                                          TakenUp(rows, queue[..count], ENROLLED))],
                 db.outbox + seq(count, k requires 0 <= k < count => Promoted(queue[k], s, rows[queue[k]].position)),
                 db.notes + seq(count, k requires 0 <= k < count => PromotedNote(rows[queue[k]].student, queue[k], s)))
  }

  ghost predicate PromoteLeaves(cat: Catalog, db: Db, s: SectionId, now: nat, out: Outcome, db': Db) {
    match out
    case NoSection => s !in db.sections && db' == db
    case RegistrationOver => s in db.sections && now > cat.closes(cat.term(s)) && db' == db
    case PromotedRows(count) =>
      s in db.sections && now <= cat.closes(cat.term(s)) && exists queue :: FirstSeated(db, s, queue, count, db')
    case _ => false
  }

  // Row k of the submitted order has position k + 1 and is otherwise as it was,
  // as are all other rows.
  ghost predicate PlacedAs(rows: map<RowId, Row>, order: seq<RowId>, rows': map<RowId, Row>) {
    && rows'.Keys == rows.Keys && (forall id <- rows | id !in order :: rows'[id] == rows[id])
    && forall k | 0 <= k < |order| ::
         order[k] in rows && rows'[order[k]] == Row(rows[order[k]].student, rows[order[k]].status, Some(k + 1))
  }

  ghost predicate ReorderLeaves(db: Db, s: SectionId, order: seq<RowId>, out: Outcome, db': Db) {
    match out
    case Error(_) => db' == db
    case ReorderedRows =>
      s in db.sections
      && exists before, rows' :: Queue(db.sections[s].rows, before) && PlacedAs(db.sections[s].rows, order, rows')
                                 && db' == Db(db.sections[s := Section(db.sections[s].cols, rows')],
                                              db.outbox + [Reordered(s, before, order)], db.notes)
    case _ => false
  }

  // Everyone waiting dropped, told in the order of the queue.
  ghost predicate AllExpired(db: Db, s: SectionId, queue: seq<RowId>, db': Db)
    requires s in db.sections
  {
    var Section(cols, rows) := db.sections[s];
    var n := |queue|;
    && Queue(rows, queue) && (forall id <- queue :: id in rows)
    && db' == Db(db.sections[s := Section(cols, TakenUp(rows, queue, DROPPED))],
                 db.outbox + seq(n, k requires 0 <= k < n => Expired(queue[k], rows[queue[k]].position)),
                 db.notes + seq(n, k requires 0 <= k < n => ExpiredNote(rows[queue[k]].student, queue[k], s)))
  }

  ghost predicate ExpireLeaves(db: Db, s: SectionId, out: Outcome, db': Db) {
    match out
    case NoSection => s !in db.sections && db' == db
    case ExpiredRows(count) => s in db.sections && exists queue :: |queue| == count && AllExpired(db, s, queue, db')
    case _ => false
  }

  // A field given is the section's new value, null for the cap included; a field
  // left out stays; counter and rows stay.
  ghost predicate Edited(cols: Columns, req: Request, cols': Columns)
    requires req.Edit?
  {
    && (forall n :: req.capacity == Some(n) ==> cols'.capacity == n)
    && (req.capacity == None ==> cols'.capacity == cols.capacity)
    && (forall c :: req.waitlistCap == Some(c) ==> cols'.waitlistCap == c)
    && (req.waitlistCap == None ==> cols'.waitlistCap == cols.waitlistCap)
    && cols'.enrolledCount == cols.enrolledCount
  }

  ghost predicate EditLeaves(db: Db, req: Request, out: Outcome, db': Db)
    requires req.Edit?
  {
    var s := req.section;
    match out
    case Error(_) => db' == db
    case EditedSection(increased) =>
      s in db.sections
      && exists cols | Edited(db.sections[s].cols, req, cols) ::
           && (increased <==> cols.capacity > db.sections[s].cols.capacity)
           && db' == Db(db.sections[s := Section(cols, db.sections[s].rows)],
                        db.outbox + [SectionUpdated(s, db.sections[s].cols, cols.capacity, cols.waitlistCap)], db.notes)
    case _ => false
  }

  // What the operation leaves behind with this answer.
  ghost predicate Leaves(cat: Catalog, db: Db, req: Request, now: nat, out: Outcome, db': Db) {
    match req
    case Enroll(_, _, _) => EnrollLeaves(db, req, out, db')
    case Drop(id) => DropLeaves(db, id, out, db')
    case Swap(_, _, _, _) => SwapLeaves(db, req, out, db')
    case Promote(s) => PromoteLeaves(cat, db, s, now, out, db')
    case Reorder(s, order) => ReorderLeaves(db, s, order, out, db')
    case Expire(s) => ExpireLeaves(db, s, out, db')
    case Edit(_, _, _) => EditLeaves(db, req, out, db')
  }

  // ------------------------------------------------- the tables are right

  lemma SectionOk(db: Db, s: SectionId)
    requires DbInvariant(db) && s in db.sections
    ensures var sec := db.sections[s];
            && PositionsOk(sec.rows) && CheckHolds(sec.cols) && SeatInvariant(sec) && Queue(sec.rows, Ordered(sec.rows))
  {
    assert SeatInvariant(db.sections[s]);
    QueueIs(db.sections[s].rows);
    hide PositionsOk, Queue;
  }

  lemma QueueIs(rows: map<RowId, Row>)
    requires PositionsOk(rows)
    ensures Queue(rows, Ordered(rows))
  {
    OrderedFacts(rows);
    assert forall id :: id in Ordered(rows) <==> id in Elems(Ordered(rows));
    hide Ordered;
  }

  lemma HolderIs(sections: Sections, x: StudentId, s: SectionId)
    requires s in sections
    ensures var held := HolderRow(sections[s].rows, x);
            if held.Some? then HoldsRow(sections, x, s, held.value) else !HoldsPlace(sections, x, s)
  {
    assert forall id :: id in ActiveOf(sections[s].rows, x) <==> HoldsRow(sections, x, s, id);
    hide First;
  }

  lemma NextFreeIs(rows: map<RowId, Row>)
    requires PositionsOk(rows)
    ensures NextFree(rows, NextPosition(rows))
  {
    var p := NextPosition(rows);
    assert WaitingRows(rows) == Waiting(rows);
  }

  lemma SeatTaken(db: Db, req: Request)
    requires req.Enroll? && req.section in db.sections && !HoldsPlace(db.sections, req.student, req.section)
    requires Join(db.sections[req.section], req.section, req.student, req.newId).out.EnrolledAs?
    ensures var fx := Join(db.sections[req.section], req.section, req.student, req.newId);
            EnrollLeaves(db, req, fx.out, Put(db, req.section, fx))
  {
    hide HoldsPlace, NextPosition, Rank, Waiting;
    assert db.notes + [] == db.notes;
  }

  lemma PlaceTaken(db: Db, req: Request)
    requires DbInvariant(db) && req.Enroll? && req.section in db.sections && FreshId(db.sections, req.newId)
    requires HolderRow(db.sections[req.section].rows, req.student).None?
             && !HoldsPlace(db.sections, req.student, req.section)
    requires Join(db.sections[req.section], req.section, req.student, req.newId).out.WaitlistedAs?
    ensures var fx := Join(db.sections[req.section], req.section, req.student, req.newId);
            EnrollLeaves(db, req, fx.out, Put(db, req.section, fx))
  {
    hide HoldsPlace, NextPosition, Rank, Waiting, SeatInvariant, Queue, HolderRow, NextFree, DbInvariant, PositionsOk;
    hide ActiveOf, Ordered, WaitingRows;
    var s, sec := req.section, db.sections[req.section];
    SectionOk(db, s);
    NextFreeIs(sec.rows);
    QueueLength(sec, s, req.student, req.newId);
    assert db.notes + [] == db.notes;
  }

  lemma QueueLength(sec: Section, s: SectionId, x: StudentId, id: RowId)
    requires SeatInvariant(sec) && id !in sec.rows && HolderRow(sec.rows, x).None?
             && Join(sec, s, x, id).out.WaitlistedAs?
    ensures Join(sec, s, x, id).out.rank == |WaitingRows(sec.rows)| + 1
    ensures sec.cols.enrolledCount == sec.cols.capacity
  {
    assert WaitingRows(sec.rows) == Waiting(sec.rows);
    NewWaiterRank(sec, s, x, id);
    hide NextPosition, Rank, Waiting, PositionsOk, OneActive, Enrolled;
  }

  lemma StandsAlready(db: Db, req: Request, id: RowId)
    requires DbInvariant(db) && req.Enroll? && HoldsRow(db.sections, req.student, req.section, id)
    ensures var out := AlreadyOutcome(db.sections[req.section], id); out.Already? && EnrollLeaves(db, req, out, db)
  {
    SectionOk(db, req.section);
    RepeatShowsPlace(db.sections[req.section], id);
    hide AlreadyOutcome, Queue, SeatInvariant, Ordered, DbInvariant;
    var out, sec := AlreadyOutcome(db.sections[req.section], id), db.sections[req.section];
    if out.status == WAITLISTED {
      assert Queue(sec.rows, Ordered(sec.rows)) && Ordered(sec.rows)[out.shownRank.value - 1] == id;
      var k: nat := out.shownRank.value - 1;
      assert out.shownRank == Some(k + 1);
    }
  }

  lemma NoPlaceIs(sec: Section, s: SectionId, x: StudentId, id: RowId)
    requires CheckHolds(sec.cols)
    ensures var out := Join(sec, s, x, id).out;
            && (out.Error? <==> NoPlace(sec)) && (out.Error? ==> out.code == SECTION_FULL)
            && (out.Error? || out.EnrolledAs? || out.WaitlistedAs?)
  {
    assert WaitingRows(sec.rows) == Waiting(sec.rows);
    hide NextPosition, Rank, Waiting;
  }

  lemma JoinLeaves(db: Db, req: Request)
    requires DbInvariant(db) && req.Enroll? && req.section in db.sections && FreshId(db.sections, req.newId)
    ensures var s := req.section;
            var fx := EnrollFx(db.sections[s], s, req.student, req.newId);
            && EnrollLeaves(db, req, fx.out, Put(db, s, fx))
            && (fx.out.Error? <==> !HoldsPlace(db.sections, req.student, s) && NoPlace(db.sections[s]))
            && (fx.out.Error? ==> fx.out.code == SECTION_FULL)
            && (HolderRow(db.sections[s].rows, req.student).Some? <==> HoldsPlace(db.sections, req.student, s))
  {
    var s, x := req.section, req.student;
    HolderIs(db.sections, x, s);
    SectionOk(db, s);
    NoPlaceIs(db.sections[s], s, x, req.newId);
    var held, fx := HolderRow(db.sections[s].rows, x), EnrollFx(db.sections[s], s, x, req.newId);
    PutNothing(db, s, fx.out);
    if held.Some? { StandsAlready(db, req, held.value); }
    else if fx.out.EnrolledAs? { SeatTaken(db, req); }
    else if fx.out.WaitlistedAs? { PlaceTaken(db, req); }
    else { FullIsNothing(db.sections[s], s, x, req.newId); }
    hide DbInvariant, FreshId, Queue, SeatInvariant, Join, HolderRow, AlreadyOutcome, NoPlace, EnrollLeaves, Put;
    hide HoldsPlace, PositionsOk, Ordered;
    if !held.Some? && fx.out.Error? { assert EnrollLeaves(db, req, fx.out, db) by { ErrorLeaves(db, req, fx.out); } }
  }

  lemma FullIsNothing(sec: Section, s: SectionId, x: StudentId, id: RowId)
    ensures Join(sec, s, x, id).out.Error? ==> Join(sec, s, x, id) == Nothing(sec, Join(sec, s, x, id).out)
  {
    hide NextPosition, Rank, Waiting;
  }

  lemma ErrorLeaves(db: Db, req: Request, out: Outcome)
    requires req.Enroll? && out.Error?
    ensures EnrollLeaves(db, req, out, db)
  {
  }

  // Enroll: each error exactly when the table says so, and what it leaves.
  lemma EnrollAnswers(cat: Catalog, db: Db, req: Request, now: nat, hold: bool)
    requires DbInvariant(db) && req.Enroll? && FreshId(db.sections, req.newId)
    ensures var (db', out) := EnrollOp(cat, db, req, now, hold);
            && (forall code :: out == Error(code) <==> EnrollRefused(cat, db.sections, req, now, hold, code))
            && EnrollLeaves(db, req, out, db')
  {
    hide DbInvariant, FreshId, EnrollFx, Gate, Verdict, HolderRow, ChainClear, ChainRefused, GateClear, GateRefused;
    hide HoldsPlace, NoPlace, EnrollLeaves, Put, SeatsOutside, ActiveSeats;
    forall out: Outcome | out.Error? ensures EnrollLeaves(db, req, out, db) { ErrorLeaves(db, req, out); }
    if req.section in db.sections {
      GateIs(cat, req.student, req.section, now, hold);
      ChainIs(cat, db.sections, req, false);
      JoinLeaves(db, req);
    }
  }

  lemma OnlyHome(db: Db, id: RowId, home: SectionId)
    requires DbInvariant(db) && home in db.sections && id in db.sections[home].rows
    ensures HomeOf(db.sections, id) == Some(home)
    ensures forall s <- db.sections | id in db.sections[s].rows :: s == home
  {
    hide SeatInvariant;
  }

  lemma DropAnswers(db: Db, id: RowId)
    requires DbInvariant(db)
    ensures var (db', out) := DropOp(db, id);
            (forall code :: out == Error(code) <==> DropRefused(db.sections, id, code)) && DropLeaves(db, id, out, db')
  {
    hide DbInvariant, DropFx, DropLeaves, HoldsRow, Put;
    var home := HomeOf(db.sections, id);
    if home.Some? {
      OnlyHome(db, id, home.value);
      DroppedIs(db, id, home.value);
    } else {
      assert DropLeaves(db, id, Error(NOT_FOUND), db) by { assert Error(NOT_FOUND).Error?; NotDropped(db, id); }
    }
  }

  lemma NotDropped(db: Db, id: RowId)
    ensures forall code :: DropLeaves(db, id, Error(code), db)
  {
  }

  lemma DroppedIs(db: Db, id: RowId, s: SectionId)
    requires s in db.sections && id in db.sections[s].rows
    requires forall t <- db.sections | id in db.sections[t].rows :: t == s
    ensures var fx := DropFx(db.sections[s], s, id);
            && DropLeaves(db, id, fx.out, Put(db, s, fx))
            && (forall code :: fx.out == Error(code) <==>
                  code == ALREADY_DROPPED && forall t, x :: !HoldsRow(db.sections, x, t, id))
  {
    var row, fx := db.sections[s].rows[id], DropFx(db.sections[s], s, id);
    PutNothing(db, s, Error(ALREADY_DROPPED));
    assert row.Active() <==> HoldsRow(db.sections, row.student, s, id);
    assert forall t, x | t != s :: !HoldsRow(db.sections, x, t, id);
    assert db.notes + [] == db.notes;
  }

  lemma SwapDone(db: Db, req: Request, home: SectionId)
    requires req.Swap? && home in db.sections && req.id in db.sections[home].rows && req.target in db.sections
    requires home != req.target && HoldsRow(db.sections, req.student, home, req.id)
    requires db.sections[req.target].cols.enrolledCount < db.sections[req.target].cols.capacity
    ensures var freed := db.sections[home].rows[req.id].status.ENROLLED?;
            Exchanged(db, req, home, freed, SwapDb(db, home, req))
  {
  }

  lemma SwapAnswers(cat: Catalog, db: Db, req: Request, now: nat, hold: bool)
    requires DbInvariant(db) && req.Swap?
    ensures var (db', out) := SwapOp(cat, db, req, now, hold);
            && (forall code :: out == Error(code) <==> SwapRefused(cat, db.sections, req, now, hold, code))
            && SwapLeaves(db, req, out, db')
  {
    hide SwapRefusedFrom, DbInvariant, SwapLeaves, Gate, Verdict, SwapDb, ActiveSeats, ActiveOf;
    var home := HomeOf(db.sections, req.id);
    NotSwapped(db, req);
    if home.Some? {
      OnlyHome(db, req.id, home.value);
      SwapFromAnswers(cat, db, req, home.value, now, hold);
      hide SwapOp;
    }
  }

  lemma NotSwapped(db: Db, req: Request)
    requires req.Swap?
    ensures forall code :: SwapLeaves(db, req, Error(code), db)
  {
  }

  lemma SwapFromAnswers(cat: Catalog, db: Db, req: Request, home: SectionId, now: nat, hold: bool)
    requires DbInvariant(db) && req.Swap? && HomeOf(db.sections, req.id) == Some(home)
    ensures var (db', out) := SwapOp(cat, db, req, now, hold);
            && (forall code :: out == Error(code) <==> SwapRefusedFrom(cat, db.sections, req, home, now, hold, code))
            && SwapLeaves(db, req, out, db')
  {
    hide *;
    HomeOwns(db, req.id, home);
    if req.target in db.sections {
      SwapFactsHold(cat, db, req, home, now, hold);
      PlaceIs(db.sections, req.student, req.target);
    }
    SwapOrder(cat, db, req, home, now, hold);
    SwapOutcome(cat, db, req, home, now, hold);
  }

  lemma HomeOwns(db: Db, id: RowId, home: SectionId)
    requires HomeOf(db.sections, id) == Some(home)
    ensures home in db.sections && id in db.sections[home].rows
  {
  }

  // Gate, chain, seat and index of the target, told of the rows.
  ghost predicate SwapFacts(cat: Catalog, db: Db, req: Request, home: SectionId, now: nat, hold: bool)
    requires req.Swap? && req.target in db.sections
  {
    var x, target, same := req.student, req.target, cat.course(home) == cat.course(req.target);
    var gate := Gate(cat, x, target, now, hold);
    var verdict := Verdict(cat, db.sections, x, target, OtherSeats(db.sections, req), same);
    var cols := db.sections[target].cols;
    && (gate.None? <==> GateClear(cat, x, target, now, hold))
    && (forall code :: gate == Some(code) <==> GateRefused(cat, x, target, now, hold, code))
    && (verdict.None? <==> ChainClear(cat, db.sections, req, same))
    && (forall code :: verdict == Some(code) <==> ChainRefused(cat, db.sections, req, same, code))
    && (ActiveOf(db.sections[target].rows, x) != {} <==> HoldsPlace(db.sections, x, target))
    && (cols.enrolledCount >= cols.capacity <==> cols.enrolledCount == cols.capacity)
  }

  lemma SwapFactsHold(cat: Catalog, db: Db, req: Request, home: SectionId, now: nat, hold: bool)
    requires DbInvariant(db) && req.Swap? && req.target in db.sections
    ensures SwapFacts(cat, db, req, home, now, hold)
  {
    hide Gate, Verdict, ActiveOf, ChainClear, ChainRefused, GateClear, GateRefused, HoldsPlace, OtherSeats;
    hide DbInvariant, SeatInvariant, Queue, PositionsOk, Ordered;
    SectionOk(db, req.target);
    GateIs(cat, req.student, req.target, now, hold);
    ChainIs(cat, db.sections, req, cat.course(home) == cat.course(req.target));
    PlaceIs(db.sections, req.student, req.target);
  }

  lemma SwapOrder(cat: Catalog, db: Db, req: Request, home: SectionId, now: nat, hold: bool)
    requires req.Swap? && HomeOf(db.sections, req.id) == Some(home)
    requires req.target in db.sections ==> SwapFacts(cat, db, req, home, now, hold)
    ensures var out := SwapOp(cat, db, req, now, hold).1;
            forall code :: out == Error(code) <==> SwapRefusedFrom(cat, db.sections, req, home, now, hold, code)
  {
    hide Gate, Verdict, ActiveOf, ChainClear, ChainRefused, GateClear, GateRefused, HoldsPlace, SwapDb;
    hide ActiveSeats, SeatsExcept, HomeOf;
  }

  lemma SwapOutcome(cat: Catalog, db: Db, req: Request, home: SectionId, now: nat, hold: bool)
    requires req.Swap? && HomeOf(db.sections, req.id) == Some(home)
    requires req.target in db.sections ==>
               (ActiveOf(db.sections[req.target].rows, req.student) != {}
                <==> HoldsPlace(db.sections, req.student, req.target))
    ensures var (db', out) := SwapOp(cat, db, req, now, hold); SwapLeaves(db, req, out, db')
  {
    hide Gate, Verdict, ActiveOf, HoldsPlace, SwapDb, Exchanged, HomeOf, ActiveSeats, SeatsExcept;
    HomeOwns(db, req.id, home);
    if SwapOp(cat, db, req, now, hold).1.SwappedTo? { SwapDone(db, req, home); }
  }

  lemma PlaceIs(sections: Sections, x: StudentId, s: SectionId)
    requires s in sections
    ensures ActiveOf(sections[s].rows, x) != {} <==> HoldsPlace(sections, x, s)
  {
    HolderIs(sections, x, s);
    if ActiveOf(sections[s].rows, x) != {} {
      var id :| id in ActiveOf(sections[s].rows, x);
      assert HoldsRow(sections, x, s, id);
    }
    hide First;
  }

  // A swap of one's own active row to another section, the gate clear, a seat
  // free, the chain clear and no place held there, is done.
  lemma SwapGoesThrough(cat: Catalog, db: Db, req: Request, home: SectionId, now: nat, hold: bool)
    requires DbInvariant(db) && req.Swap? && HoldsRow(db.sections, req.student, home, req.id)
    requires home != req.target && req.target in db.sections && GateClear(cat, req.student, req.target, now, hold)
    requires db.sections[req.target].cols.enrolledCount < db.sections[req.target].cols.capacity
    requires ChainClear(cat, db.sections, req, cat.course(home) == cat.course(req.target))
             && !HoldsPlace(db.sections, req.student, req.target)
    ensures SwapOp(cat, db, req, now, hold).1
            == SwappedTo(req.newId, db.sections[home].rows[req.id].status == ENROLLED)
  {
    hide SwapOp, DbInvariant, GateClear, GateRefused, ChainClear, ChainRefused, HoldsPlace, HomeOf;
    OnlyHome(db, req.id, home);
    SwapFromAnswers(cat, db, req, home, now, hold);
    NoErrorLeft(SwapOp(cat, db, req, now, hold).1);
  }

  lemma NoErrorLeft(out: Outcome)
    requires forall code :: out != Error(code)
    ensures !out.Error?
  {
    match out
    case Error(code) => assert false;
    case _ =>
  }

  lemma PromoteAnswers(cat: Catalog, db: Db, s: SectionId, now: nat)
    requires DbInvariant(db)
    ensures var (db', out) := PromoteOp(cat, db, s, now); PromoteLeaves(cat, db, s, now, out, db')
  {
    hide DbInvariant, PromoteFx, FirstSeated, SeatInvariant, Queue, PositionsOk, Ordered, Put;
    if s in db.sections {
      SectionOk(db, s);
      SeatedFirst(db, s);
    }
  }

  lemma SeatedFirst(db: Db, s: SectionId)
    requires s in db.sections && SeatInvariant(db.sections[s])
             && Queue(db.sections[s].rows, Ordered(db.sections[s].rows))
    ensures var fx := PromoteFx(db.sections[s], s);
            fx.out.PromotedRows? && FirstSeated(db, s, Ordered(db.sections[s].rows), fx.out.count, Put(db, s, fx))
  {
    var sec := db.sections[s];
    PromotableIs(sec);
    OrderedFacts(sec.rows);
    OrderedInRows(sec.rows);
    hide Ordered, Queue, SeatInvariant, Promotable, Waiting, PositionsOk, OneActive, Enrolled, Elems, Distinct;
    PromotionTold(sec.rows, s, Ordered(sec.rows), |Promotable(sec)|);
    hide Seated, TakenUp, PromotionEvents, PromotionNotes;
  }

  // The first k of a list seated, as events, notes and rows.
  lemma PromotionTold(rows: map<RowId, Row>, s: SectionId, o: seq<RowId>, k: nat)
    requires k <= |o| && forall id <- o :: id in rows
    ensures PromotionEvents(rows, s, o[..k]) == seq(k, i requires 0 <= i < k => Promoted(o[i], s, rows[o[i]].position))
    ensures PromotionNotes(rows, s, o[..k])
            == seq(k, i requires 0 <= i < k => PromotedNote(rows[o[i]].student, o[i], s))
    ensures Seated(rows, o[..k]) == TakenUp(rows, o[..k], ENROLLED)
  {
  }

  lemma ReorderAnswers(db: Db, s: SectionId, order: seq<RowId>)
    requires DbInvariant(db) && Distinct(order)
    ensures var (db', out) := ReorderOp(db, s, order);
            && (forall code :: out == Error(code) <==> ReorderRefused(db.sections, s, order, code))
            && ReorderLeaves(db, s, order, out, db')
  {
    hide DbInvariant, SeatInvariant, Queue, PositionsOk, Ordered, Put, ReorderFx, Distinct;
    if s in db.sections {
      SectionOk(db, s);
      ReorderedIs(db, s, order);
    }
  }

  lemma ReorderedIs(db: Db, s: SectionId, order: seq<RowId>)
    requires s in db.sections && Distinct(order) && Queue(db.sections[s].rows, Ordered(db.sections[s].rows))
    ensures var fx := ReorderFx(db.sections[s], s, order);
            && (forall code :: fx.out == Error(code) <==> ReorderRefused(db.sections, s, order, code))
            && ReorderLeaves(db, s, order, fx.out, Put(db, s, fx))
  {
    hide Queue, Ordered, Renumbered, PlacedAs, Distinct;
    var rows := db.sections[s].rows;
    PutNothing(db, s, Error(WAITLIST_CHANGED));
    SameAs(rows, order);
    if (set id <- order) == Waiting(rows) { RenumberedAs(rows, order); }
    hide WaitingRows, Waiting;
    assert db.notes + [] == db.notes;
  }

  lemma SameAs(rows: map<RowId, Row>, order: seq<RowId>)
    ensures (set id <- order) == Waiting(rows) <==> !exists id :: id in order <==> id !in WaitingRows(rows)
    ensures (set id <- order) == Waiting(rows) ==> forall id <- order :: id in rows
  {
    assert forall id :: id in order <==> id in (set i <- order);
    assert WaitingRows(rows) == Waiting(rows);
  }

  lemma RenumberedAs(rows: map<RowId, Row>, order: seq<RowId>)
    requires Distinct(order) && forall id <- order :: id in rows
    ensures PlacedAs(rows, order, Renumbered(rows, order))
  {
    forall k | 0 <= k < |order|
      ensures order[k] in rows && IndexOf(order, order[k]) == k
    {
      assert order[k] in order;
    }
  }

  lemma ExpireAnswers(db: Db, s: SectionId)
    requires DbInvariant(db)
    ensures var (db', out) := ExpireOp(db, s); ExpireLeaves(db, s, out, db')
  {
    if s in db.sections {
      SectionOk(db, s);
      ExpiredAll(db, s);
    }
    hide DbInvariant, ExpireFx, AllExpired, SeatInvariant, Queue;
  }

  lemma ExpiredAll(db: Db, s: SectionId)
    requires s in db.sections && SeatInvariant(db.sections[s])
             && Queue(db.sections[s].rows, Ordered(db.sections[s].rows))
    ensures var fx, queue := ExpireFx(db.sections[s], s), Ordered(db.sections[s].rows);
            fx.out == ExpiredRows(|queue|) && AllExpired(db, s, queue, Put(db, s, fx))
  {
    var rows, o, n := db.sections[s].rows, Ordered(db.sections[s].rows), |Ordered(db.sections[s].rows)|;
    OrderedInRows(rows);
    hide Ordered, Queue, SeatInvariant, Waiting;
    assert ExpiryEvents(rows, o) == seq(n, i requires 0 <= i < n => Expired(o[i], rows[o[i]].position));
    assert ExpiryNotes(rows, s, o) == seq(n, i requires 0 <= i < n => ExpiredNote(rows[o[i]].student, o[i], s));
    assert Released(rows, o) == TakenUp(rows, o, DROPPED);
  }

  lemma EditAnswers(db: Db, req: Request)
    requires DbInvariant(db) && req.Edit?
    ensures var (db', out) := EditOp(db, req.section, req.capacity, req.waitlistCap);
            && (forall code :: out == Error(code) <==> EditRefused(db.sections, req, code))
            && EditLeaves(db, req, out, db')
  {
    hide EditFx, EditLeaves, Put, DbInvariant, SeatInvariant, Queue, PositionsOk, Ordered;
    NotEdited(db, req);
    if req.section in db.sections && (req.capacity.Some? || req.waitlistCap.Some?) {
      SectionOk(db, req.section);
      EditedIs(db, req);
    }
  }

  lemma NotEdited(db: Db, req: Request)
    requires req.Edit?
    ensures forall code :: EditLeaves(db, req, Error(code), db)
  {
  }

  lemma EditedIs(db: Db, req: Request)
    requires req.Edit? && req.section in db.sections && (req.capacity.Some? || req.waitlistCap.Some?)
             && CheckHolds(db.sections[req.section].cols)
    ensures var fx := EditFx(db.sections[req.section], req.section, req.capacity, req.waitlistCap);
            && EditLeaves(db, req, fx.out, Put(db, req.section, fx))
            && forall code :: fx.out == Error(code) <==> EditRefused(db.sections, req, code)
  {
    var s, fx := req.section, EditFx(db.sections[req.section], req.section, req.capacity, req.waitlistCap);
    PutNothing(db, s, Error(CAPACITY_BELOW_ENROLLED));
    assert fx.out.Error? || Edited(db.sections[s].cols, req, fx.sec.cols);
    assert db.notes + [] == db.notes;
  }

  // Every operation, on every database in order: each error exactly when the
  // table says so, and what it leaves.
  lemma AnswersExact(cat: Catalog, db: Db, req: Request, now: nat, hold: bool)
    requires DbInvariant(db) && WellFormed(db, req)
    ensures var (db', out) := Apply(cat, db, req, now, hold);
            && (forall code :: out == Error(code) <==> Refused(cat, db.sections, req, now, hold, code))
            && Leaves(cat, db, req, now, out, db')
  {
    hide DbInvariant, EnrollOp, DropOp, SwapOp, PromoteOp, ReorderOp, ExpireOp, EditOp;
    hide EnrollRefused, DropRefused, SwapRefused, ReorderRefused, EditRefused;
    match req
    case Enroll(_, _, _) => EnrollAnswers(cat, db, req, now, hold);
    case Drop(id) => DropAnswers(db, id);
    case Swap(_, _, _, _) => SwapAnswers(cat, db, req, now, hold);
    case Promote(s) => PromoteAnswers(cat, db, s, now);
    case Reorder(s, order) => ReorderAnswers(db, s, order);
    case Expire(s) => ExpireAnswers(db, s);
    case Edit(_, _, _) => EditAnswers(db, req);
  }

  // ------------------------------------------- the tables leave nothing open

  lemma QueueOnly(rows: map<RowId, Row>, queue: seq<RowId>)
    requires Queue(rows, queue)
    ensures queue == Ordered(rows)
  {
    assert forall id :: id in queue <==> id in Elems(queue);
    assert WaitingRows(rows) == Waiting(rows) && Elems(queue) == Waiting(rows);
    forall i | 0 <= i < |queue|
      ensures queue[i] in rows
    {
      assert queue[i] in WaitingRows(rows);
    }
    hide Waiting, OrderOf;
    SortedUnique(rows, Waiting(rows), queue);
  }

  lemma NextFreeOnly(rows: map<RowId, Row>, p: nat, q: nat)
    requires NextFree(rows, p) && NextFree(rows, q)
    ensures p == q
  {
  }

  lemma HolderOnly(db: Db, x: StudentId, s: SectionId, i: RowId, j: RowId)
    requires DbInvariant(db) && HoldsRow(db.sections, x, s, i) && HoldsRow(db.sections, x, s, j)
    ensures i == j
  {
    assert SeatInvariant(db.sections[s]);
  }

  // Place k of a queue without repeats.
  lemma PlaceOnly(rows: map<RowId, Row>, a: seq<RowId>, k: nat, b: seq<RowId>, l: nat)
    requires Queue(rows, a) && Queue(rows, b) && k < |a| && l < |b| && a[k] == b[l]
    ensures k == l
  {
    QueueOnly(rows, a);
    QueueOnly(rows, b);
    hide Ordered;
  }

  lemma AlreadyOnly(db: Db, req: Request, out: Outcome, out': Outcome, a: Db, b: Db)
    requires DbInvariant(db) && req.Enroll? && out.Already? && out'.Already?
    requires EnrollLeaves(db, req, out, a) && EnrollLeaves(db, req, out', b)
    ensures out == out' && a == b
  {
    HolderOnly(db, req.student, req.section, out.id, out'.id);
    hide DbInvariant, Queue, WaitingRows;
    if out.status == WAITLISTED {
      var rows := db.sections[req.section].rows;
      var list, k: nat :| Queue(rows, list) && k < |list| && list[k] == out.id && out.shownRank == Some(k + 1);
      var list', k': nat :| Queue(rows, list') && k' < |list'| && list'[k'] == out'.id
      && out'.shownRank == Some(k' + 1);
      PlaceOnly(rows, list, k, list', k');
    }
  }

  lemma WaitlistedOnly(db: Db, req: Request, out: Outcome, out': Outcome, a: Db, b: Db)
    requires req.Enroll? && out.WaitlistedAs? && out'.WaitlistedAs?
    requires EnrollLeaves(db, req, out, a) && EnrollLeaves(db, req, out', b)
    ensures out == out' && a == b
  {
    hide HoldsPlace, WaitingRows;
    var Section(cols, rows) := db.sections[req.section];
    var p :| NextFree(rows, p)
    && a == Db(db.sections[req.section := Section(cols, rows[out.id := Row(req.student, WAITLISTED, Some(p))])],
                                          db.outbox + [Waitlisted(out.id, req.student, req.section, p)], db.notes);
    var q :| NextFree(rows, q)
    && b == Db(db.sections[req.section := Section(cols, rows[out'.id := Row(req.student, WAITLISTED, Some(q))])],
                                          db.outbox + [Waitlisted(out'.id, req.student, req.section, q)], db.notes);
    NextFreeOnly(rows, p, q);
  }

  lemma EnrollOnly(db: Db, req: Request, out: Outcome, out': Outcome, a: Db, b: Db)
    requires DbInvariant(db) && req.Enroll? && !out.Error? && !out'.Error?
    requires EnrollLeaves(db, req, out, a) && EnrollLeaves(db, req, out', b)
    ensures out == out' && a == b
  {
    if out.Already? && out'.Already? { AlreadyOnly(db, req, out, out', a, b); }
    else if out.WaitlistedAs? && out'.WaitlistedAs? { WaitlistedOnly(db, req, out, out', a, b); }
    hide DbInvariant, HoldsRow, Queue, NextFree, WaitingRows;
  }

  lemma DropOnly(db: Db, id: RowId, out: Outcome, out': Outcome, a: Db, b: Db)
    requires DbInvariant(db) && !out.Error? && !out'.Error?
    requires DropLeaves(db, id, out, a) && DropLeaves(db, id, out', b)
    ensures out == out' && a == b
  {
    var s :| s in db.sections && id in db.sections[s].rows;
    OnlyHome(db, id, s);
    hide DbInvariant, HomeOf;
  }

  lemma SwapOnly(db: Db, req: Request, out: Outcome, out': Outcome, a: Db, b: Db)
    requires DbInvariant(db) && req.Swap? && !out.Error? && !out'.Error?
    requires SwapLeaves(db, req, out, a) && SwapLeaves(db, req, out', b)
    ensures out == out' && a == b
  {
    hide DbInvariant, HomeOf, HoldsPlace, HoldsRow;
    SwapShape(db, req, out, a);
    SwapShape(db, req, out', b);
    hide SwapLeaves, Exchanged;
  }

  // The section of the row decides which it is, and what is left.
  ghost function SwapLeft(db: Db, req: Request, home: SectionId): (Db, Outcome)
    requires req.Swap? && home in db.sections && req.id in db.sections[home].rows && req.target in db.sections
  {
    if home == req.target then (db, SameSection(req.id))
    else (SwapDb(db, home, req), SwappedTo(req.newId, db.sections[home].rows[req.id].status == ENROLLED))
  }

  lemma SwapShape(db: Db, req: Request, out: Outcome, a: Db)
    requires DbInvariant(db) && req.Swap? && !out.Error? && SwapLeaves(db, req, out, a)
    ensures var home := HomeOf(db.sections, req.id);
            home.Some? && req.target in db.sections && (a, out) == SwapLeft(db, req, home.value)
  {
    hide DbInvariant, HoldsPlace;
    if out.SameSection? {
      OnlyHome(db, req.id, req.target);
    } else {
      var home :| home in db.sections && req.id in db.sections[home].rows && Exchanged(db, req, home, out.freedSeat, a);
      OnlyHome(db, req.id, home);
    }
    hide HomeOf;
  }

  lemma SeatedOnly(db: Db, s: SectionId, p: seq<RowId>, m: nat, q: seq<RowId>, n: nat, a: Db, b: Db)
    requires s in db.sections && FirstSeated(db, s, p, m, a) && FirstSeated(db, s, q, n, b)
    ensures m == n && a == b
  {
    QueueOnly(db.sections[s].rows, p);
    QueueOnly(db.sections[s].rows, q);
    hide Queue, Ordered, TakenUp;
  }

  lemma PromoteOnly(cat: Catalog, db: Db, s: SectionId, now: nat, out: Outcome, out': Outcome, a: Db, b: Db)
    requires PromoteLeaves(cat, db, s, now, out, a) && PromoteLeaves(cat, db, s, now, out', b)
    ensures out == out' && a == b
  {
    hide FirstSeated;
    if out.PromotedRows? && out'.PromotedRows? {
      var p :| FirstSeated(db, s, p, out.count, a);
      var q :| FirstSeated(db, s, q, out'.count, b);
      SeatedOnly(db, s, p, out.count, q, out'.count, a, b);
    }
  }

  lemma PlacedOnly(rows: map<RowId, Row>, order: seq<RowId>, a: map<RowId, Row>, b: map<RowId, Row>)
    requires PlacedAs(rows, order, a) && PlacedAs(rows, order, b)
    ensures a == b
  {
    forall id <- rows
      ensures a[id] == b[id]
    {
      if id in order { var k :| 0 <= k < |order| && order[k] == id; }
    }
  }

  lemma ReorderOnly(db: Db, s: SectionId, order: seq<RowId>, out: Outcome, out': Outcome, a: Db, b: Db)
    requires !out.Error? && !out'.Error? && ReorderLeaves(db, s, order, out, a) && ReorderLeaves(db, s, order, out', b)
    ensures out == out' && a == b
  {
    hide Queue, PlacedAs;
    var p, rows :| Queue(db.sections[s].rows, p) && PlacedAs(db.sections[s].rows, order, rows)
                   && a == Db(db.sections[s := Section(db.sections[s].cols, rows)],
                              db.outbox + [Reordered(s, p, order)], db.notes);
    var q, rows' :| Queue(db.sections[s].rows, q) && PlacedAs(db.sections[s].rows, order, rows')
                    && b == Db(db.sections[s := Section(db.sections[s].cols, rows')],
                               db.outbox + [Reordered(s, q, order)], db.notes);
    QueueOnly(db.sections[s].rows, p);
    QueueOnly(db.sections[s].rows, q);
    PlacedOnly(db.sections[s].rows, order, rows, rows');
    hide Ordered;
  }

  lemma ExpireOnly(db: Db, s: SectionId, out: Outcome, out': Outcome, a: Db, b: Db)
    requires ExpireLeaves(db, s, out, a) && ExpireLeaves(db, s, out', b)
    ensures out == out' && a == b
  {
    if out.ExpiredRows? && out'.ExpiredRows? {
      var p :| |p| == out.count && AllExpired(db, s, p, a);
      var q :| |q| == out'.count && AllExpired(db, s, q, b);
      QueueOnly(db.sections[s].rows, p);
      QueueOnly(db.sections[s].rows, q);
    }
    hide Queue, Ordered, TakenUp;
  }

  lemma EditOnly(db: Db, req: Request, out: Outcome, out': Outcome, a: Db, b: Db)
    requires req.Edit? && !out.Error? && !out'.Error?
    requires EditLeaves(db, req, out, a) && EditLeaves(db, req, out', b)
    ensures out == out' && a == b
  {
    forall cols, cols' | Edited(db.sections[req.section].cols, req, cols)
                         && Edited(db.sections[req.section].cols, req, cols')
      ensures cols == cols'
    {
      EditedOnly(db.sections[req.section].cols, req, cols, cols');
    }
    hide Edited;
  }

  lemma EditedOnly(cols: Columns, req: Request, a: Columns, b: Columns)
    requires req.Edit? && Edited(cols, req, a) && Edited(cols, req, b)
    ensures a == b
  {
    match req.capacity {
      case Some(n) => assert req.capacity == Some(n) && a.capacity == n && b.capacity == n;
      case None => assert req.capacity == None;
    }
    match req.waitlistCap {
      case Some(c) => assert req.waitlistCap == Some(c) && a.waitlistCap == c && b.waitlistCap == c;
      case None => assert req.waitlistCap == None;
    }
  }

  // An answer and a database that fit the tables are the operation's: the tables
  // admit no other service.
  lemma TablesDetermine(cat: Catalog, db: Db, req: Request, now: nat, hold: bool, out: Outcome, db': Db)
    requires DbInvariant(db) && WellFormed(db, req)
    requires forall code :: out == Error(code) <==> Refused(cat, db.sections, req, now, hold, code)
    requires Leaves(cat, db, req, now, out, db')
    ensures (db', out) == Apply(cat, db, req, now, hold)
  {
    hide Apply, DbInvariant, WellFormed, Refused, EnrollLeaves, DropLeaves, SwapLeaves, PromoteLeaves, ReorderLeaves;
    hide ExpireLeaves, EditLeaves;
    AnswersExact(cat, db, req, now, hold);
    var (db2, out2) := Apply(cat, db, req, now, hold);
    if out.Error? || out2.Error? {
      SameError(out, out2);
      ErrorOnly(cat, db, req, now, out, db');
      ErrorOnly(cat, db, req, now, out2, db2);
    } else {
      match req
      case Enroll(_, _, _) => EnrollOnly(db, req, out, out2, db', db2);
      case Drop(id) => DropOnly(db, id, out, out2, db', db2);
      case Swap(_, _, _, _) => SwapOnly(db, req, out, out2, db', db2);
      case Promote(s) => PromoteOnly(cat, db, s, now, out, out2, db', db2);
      case Reorder(s, order) => ReorderOnly(db, s, order, out, out2, db', db2);
      case Expire(s) => ExpireOnly(db, s, out, out2, db', db2);
      case Edit(_, _, _) => EditOnly(db, req, out, out2, db', db2);
    }
  }

  lemma SameError(out: Outcome, out': Outcome)
    requires (out.Error? || out'.Error?) && forall code :: out == Error(code) <==> out' == Error(code)
    ensures out == out'
  {
    match out' {
      case Error(code) => assert out == Error(code);
      case _ => match out { case Error(code) => assert false; case _ => }
    }
  }

  lemma ErrorOnly(cat: Catalog, db: Db, req: Request, now: nat, out: Outcome, db': Db)
    requires out.Error? && Leaves(cat, db, req, now, out, db')
    ensures db' == db
  {
  }

  // --------------------------------------------------------- a cap removed

  ghost predicate SetsCap(req: Request, s: SectionId) {
    req.Edit? && req.section == s && exists c :: req.waitlistCap == Some(Some(c))
  }

  ghost predicate Uncapped(sections: Sections, s: SectionId) { s in sections && sections[s].cols.waitlistCap == None }

  lemma UncappedStep(cat: Catalog, db: Db, req: Request, now: nat, hold: bool, s: SectionId)
    requires DbInvariant(db) && WellFormed(db, req) && Uncapped(db.sections, s) && !SetsCap(req, s)
    ensures Uncapped(Apply(cat, db, req, now, hold).0.sections, s)
  {
    AnswersExact(cat, db, req, now, hold);
    var (db', out) := Apply(cat, db, req, now, hold);
    hide Apply, DbInvariant, Refused, WellFormed, EnrollLeaves, DropLeaves, SwapLeaves, PromoteLeaves, ReorderLeaves;
    hide ExpireLeaves, EditLeaves, Uncapped, SetsCap;
    match req
    case Enroll(_, _, _) => EnrollUncapped(db, req, out, db', s);
    case Drop(id) => DropUncapped(db, id, out, db', s);
    case Swap(_, _, _, _) => SwapUncapped(db, req, out, db', s);
    case Edit(_, _, _) => EditUncapped(db, req, out, db', s);
    case _ => QueueUncapped(cat, db, req, now, out, db', s);
  }

  lemma EnrollUncapped(db: Db, req: Request, out: Outcome, db': Db, s: SectionId)
    requires req.Enroll? && EnrollLeaves(db, req, out, db') && Uncapped(db.sections, s)
    ensures Uncapped(db'.sections, s)
  {
    hide HoldsRow, HoldsPlace, Queue, NextFree, WaitingRows;
  }

  lemma DropUncapped(db: Db, id: RowId, out: Outcome, db': Db, s: SectionId)
    requires DropLeaves(db, id, out, db') && Uncapped(db.sections, s)
    ensures Uncapped(db'.sections, s)
  {
  }

  lemma SwapUncapped(db: Db, req: Request, out: Outcome, db': Db, s: SectionId)
    requires req.Swap? && SwapLeaves(db, req, out, db') && Uncapped(db.sections, s)
    ensures Uncapped(db'.sections, s)
  {
    hide HoldsRow, HoldsPlace;
  }

  lemma EditUncapped(db: Db, req: Request, out: Outcome, db': Db, s: SectionId)
    requires req.Edit? && EditLeaves(db, req, out, db') && Uncapped(db.sections, s) && !SetsCap(req, s)
    ensures Uncapped(db'.sections, s)
  {
    if req.waitlistCap.Some? && req.waitlistCap.value.Some? {
      assert req.waitlistCap == Some(Some(req.waitlistCap.value.value));
    }
  }

  lemma QueueUncapped(cat: Catalog, db: Db, req: Request, now: nat, out: Outcome, db': Db, s: SectionId)
    requires (req.Promote? || req.Reorder? || req.Expire?) && Leaves(cat, db, req, now, out, db')
    requires Uncapped(db.sections, s)
    ensures Uncapped(db'.sections, s)
  {
    hide Queue, PlacedAs, TakenUp;
  }

  lemma {:induction false} UncappedOn(cat: Catalog, db: Db, calls: seq<Call>, db': Db, s: SectionId)
    requires DbInvariant(db) && Calls(cat, db, calls, db') && Uncapped(db.sections, s)
    requires forall c <- calls :: !SetsCap(c.req, s)
    ensures DbInvariant(db') && Uncapped(db'.sections, s)
    decreases |calls|
  {
    if calls != [] {
      var c := calls[0];
      assert c in calls && forall d <- calls[1..] :: d in calls;
      UncappedStep(cat, db, c.req, c.now, c.hold, s);
      ApplyKeeps(cat, db, c.req, c.now, c.hold);
      hide Apply, DbInvariant, WellFormed, SetsCap, Uncapped;
      UncappedOn(cat, Apply(cat, db, c.req, c.now, c.hold).0, calls[1..], db', s);
    }
  }

  // Once an edit has taken a section's cap away, no enroll into it is told
  // SECTION_FULL until an edit sets one again, whatever else is called meanwhile.
  lemma NeverFullUncapped(cat: Catalog, db: Db, s: SectionId, capacity: Option<int>, calls: seq<Call>, db': Db,
                          req: Request, now: nat, hold: bool)
    requires DbInvariant(db) && EditOp(db, s, capacity, Some(None)).1.EditedSection?
    requires Calls(cat, EditOp(db, s, capacity, Some(None)).0, calls, db') && forall c <- calls :: !SetsCap(c.req, s)
    requires req.Enroll? && req.section == s && WellFormed(db', req)
    ensures EnrollOp(cat, db', req, now, hold).1 != Error(SECTION_FULL)
  {
    hide DbInvariant, EditOp, Calls, SetsCap, WellFormed, EnrollOp;
    CapGone(db, s, capacity);
    EditOpKeeps(db, s, capacity, Some(None));
    UncappedOn(cat, EditOp(db, s, capacity, Some(None)).0, calls, db', s);
    assert FreshId(db'.sections, req.newId) by { FreshOf(db', req); }
    EnrollAnswers(cat, db', req, now, hold);
    NotFull(cat, db'.sections, req, now, hold);
  }

  lemma FreshOf(db: Db, req: Request)
    requires req.Enroll? && WellFormed(db, req)
    ensures FreshId(db.sections, req.newId)
  {
  }

  lemma CapGone(db: Db, s: SectionId, capacity: Option<int>)
    requires DbInvariant(db) && EditOp(db, s, capacity, Some(None)).1.EditedSection?
    ensures Uncapped(EditOp(db, s, capacity, Some(None)).0.sections, s)
  {
    EditAnswers(db, Edit(s, capacity, Some(None)));
    hide EditOp, DbInvariant, EditRefused;
  }

  lemma NotFull(cat: Catalog, sections: Sections, req: Request, now: nat, hold: bool)
    requires req.Enroll? && Uncapped(sections, req.section)
    ensures !EnrollRefused(cat, sections, req, now, hold, SECTION_FULL)
  {
    hide ChainClear, GateClear, HoldsPlace, CourseHeld, Unprepared, Clashing, TooMany;
  }
}
