// The service itself, one transaction at a time: the registration tables as
// mutable state and each service method as the statements it issues. Every
// method is proved equal to its one-step function in Operations.
module RegistrationStore {
  import opened Registry
  import opened Waitlist
  import opened Operations
  import opened Seats
  import opened LocalSteps
  import opened Serializability
  import opened Promotion
  import opened ClosedTerm
  import opened Answers
  import TimeConflict

  // A row as computeRanks receives it.
  datatype RankQuery = RankQuery(id: RowId, section: SectionId, position: nat)

  datatype ListEntry = ListEntry(position: nat, id: RowId, student: StudentId)

  class Store {
    const cat: Catalog
    var sections: map<SectionId, Section>
    var outbox: seq<Event>
    var notes: seq<Note>

    ghost function Database(): Db
      reads this
    {
      Db(sections, outbox, notes)
    }

    ghost predicate Valid()
      reads this
    {
      DbInvariant(Database())
    }

    constructor (cat: Catalog, db: Db)
      requires DbInvariant(db)
      ensures Valid() && Database() == db && this.cat == cat
    {
      this.cat := cat;
      sections, outbox, notes := db.sections, db.outbox, db.notes;
    }

    // ---------------------------------------------------------- statements

    method PutRow(s: SectionId, id: RowId, row: Row)
      requires s in sections
      modifies this`sections
      ensures sections == old(sections)[s := old(sections)[s].(rows := old(sections)[s].rows[id := row])]
    {
      sections := sections[s := sections[s].(rows := sections[s].rows[id := row])];
    }

    // The caller must not lean on the CHECK constraint.
    method PutCols(s: SectionId, cols: Columns)
      requires s in sections && CheckHolds(cols)
      modifies this`sections
      ensures sections == old(sections)[s := old(sections)[s].(cols := cols)]
    {
      sections := sections[s := sections[s].(cols := cols)];
    }

    method RecordEvent(e: Event)
      modifies this`outbox
      ensures outbox == old(outbox) + [e]
    {
      outbox := outbox + [e];
    }

    method CreateNote(n: Note)
      modifies this`notes
      ensures notes == old(notes) + [n]
    {
      notes := notes + [n];
    }

    // -------------------------------------------------------- eligibility

    // Does any of the student's rows, `own` section aside, clash with the target?
    method ClashAmong(mine: set<RowKey>, own: Option<SectionId>, target: SectionId) returns (clash: bool)
      ensures clash <==> ClashesWith(cat, Apart(mine, own), target)
    {
      var todo := mine;
      while todo != {}
        invariant todo <= mine
        invariant forall p <- mine - todo ::
                  own == Some(p.0) || !TimeConflict.Conflict(cat.pattern(target), cat.pattern(p.0))
      {
        var p :| p in todo;
        todo := todo - {p};
        if own == Some(p.0) { continue; }
        var hit := TimeConflict.HasTimeConflict(cat.pattern(target), cat.pattern(p.0));
        if hit {
          assert p in Apart(mine, own);
          return true;
        }
      }
      return false;
    }

    method SumCredits(mine: set<RowKey>) returns (sum: nat)
      ensures sum == CreditSum(cat, mine)
    {
      sum := 0;
      var todo := mine;
      while todo != {}
        invariant todo <= mine
        invariant sum + CreditSum(cat, todo) == CreditSum(cat, mine)
      {
        var p :| p in todo;
        CreditSumRemove(cat, todo, p);
        sum := sum + cat.credits(cat.course(p.0));
        todo := todo - {p};
      }
    }

    // Passed exactly while registration is open to the student: they are known,
    // from their standing's window (or the term's opening, for want of one) to
    // the close, and no hold is on them. Otherwise the close outranks an unknown
    // student, that the opening, and a hold is named only if it alone is to blame.
    method CheckGate(student: StudentId, s: SectionId, now: nat, hold: bool) returns (code: Option<Code>)
      ensures code.None? <==> !hold && OpenTo(cat, student, cat.term(s), now) && now <= cat.closes(cat.term(s))
      ensures code == Some(REGISTRATION_CLOSED) <==> now > cat.closes(cat.term(s))
      ensures code == Some(STUDENT_NOT_FOUND) <==> now <= cat.closes(cat.term(s)) && student !in cat.students
      ensures code == Some(REGISTRATION_NOT_OPEN) <==>
                now <= cat.closes(cat.term(s)) && student in cat.students && !OpenTo(cat, student, cat.term(s), now)
      ensures code == Some(ADVISOR_HOLD)
              <==> hold && OpenTo(cat, student, cat.term(s), now) && now <= cat.closes(cat.term(s))
      ensures code == Gate(cat, student, s, now, hold)
    {
      if now > cat.closes(cat.term(s)) { return Some(REGISTRATION_CLOSED); }
      if student !in cat.students { return Some(STUDENT_NOT_FOUND); }
      var standing := cat.students[student];
      var effectiveOpens := cat.opens(cat.term(s));
      if standing.Some? && (cat.term(s), standing.value) in cat.windows {
        effectiveOpens := cat.windows[(cat.term(s), standing.value)];
      }
      if now < effectiveOpens { return Some(REGISTRATION_NOT_OPEN); }
      if hold { return Some(ADVISOR_HOLD); }
      return None;
    }

    // Course, prerequisites, clashes and credits, in the order checked; same: a
    // swap within one course. An enroll reads all the student's rows of the term
    // and skips its own section; a swap leaves its own row out of the query.
    method CheckChain(req: Request, same: bool) returns (code: Option<Code>)
      requires Adding(req)
      ensures code.None? <==> ChainClear(cat, sections, req, same)
      ensures forall c :: code == Some(c) <==> ChainRefused(cat, sections, req, same, c)
      ensures code == Some(PREREQUISITE_NOT_MET) <==>
                && !same && (forall p: RowKey | Rival(sections, req, p) :: cat.course(p.0) != cat.course(TargetOf(req)))
                && exists c <- cat.prereqs(cat.course(TargetOf(req))) :: !HasCompleted(cat, sections, req.student, c)
      ensures code == Verdict(cat, sections, req.student, TargetOf(req), OtherSeats(sections, req), same)
    {
      ChainIs(cat, sections, req, same);
      hide ChainClear, HasCompleted, Rival;
      var target, myActive := TargetOf(req), ActiveSeats(sections, req.student);
      var others := OtherSeats(sections, req);
      var own := if req.Enroll? then Some(req.section) else None;
      var mine := SameTerm(cat, if req.Enroll? then myActive else others, cat.term(target));
      OwnApart(cat, sections, req, mine);
      if !same {
        if DuplicateCourse(cat, others, target) { return Some(DUPLICATE_COURSE); }
        var completed := CompletedCourses(cat, sections, req.student);
        var missing := set c | c in cat.prereqs(cat.course(target)) && c !in completed;
        assert forall c <- cat.prereqs(cat.course(target)) :: c in completed || c in missing;
        if missing != {} { return Some(PREREQUISITE_NOT_MET); }
      }
      var clash := ClashAmong(mine, own, target);
      if clash { return Some(TIME_CONFLICT); }
      var credits := SumCredits(Apart(mine, own));
      var creditCap := cat.maxCredits(cat.term(target));
      if (req.student, cat.term(target)) in cat.overloads {
        creditCap := cat.overloads[(req.student, cat.term(target))];
      }
      if credits + cat.credits(cat.course(target)) > creditCap { return Some(CREDIT_LIMIT_EXCEEDED); }
      return None;
    }

    // -------------------------------------------------------------- enroll

    method Enroll(student: StudentId, s: SectionId, newId: RowId, now: nat, hold: bool) returns (out: Outcome)
      requires Valid() && FreshId(sections, newId)
      modifies this
      ensures Valid()
              && (Database(), out) == EnrollOp(cat, old(Database()), Request.Enroll(student, s, newId), now, hold)
      ensures EnrollLeaves(old(Database()), Request.Enroll(student, s, newId), out, Database())
      ensures forall code :: out == Error(code)
                <==> EnrollRefused(cat, old(sections), Request.Enroll(student, s, newId), now, hold, code)
    {
      var req := Request.Enroll(student, s, newId);
      ghost var db := Database();
      hide EnrollLeaves, EnrollRefused, ChainClear, ChainRefused, HasCompleted, GateClear;
      EnrollAnswers(cat, db, req, now, hold);
      EnrollOpKeeps(cat, db, req, now, hold);
      if s !in sections { return Error(SECTION_NOT_FOUND); }
      var gate := CheckGate(student, s, now, hold);
      if gate.Some? { return Error(gate.value); }
      var sec := sections[s];
      var active := HolderRow(sec.rows, student);
      if active.Some? {
        PutNothing(db, s, AlreadyOutcome(sec, active.value));
        return AlreadyOutcome(sec, active.value);
      }
      var verdict := CheckChain(req, false);
      if verdict.Some? { return Error(verdict.value); }
      out := SeatOrQueue(student, s, newId);
    }

    // Seat available means enroll; otherwise the waitlist, unless capped and full.
    method SeatOrQueue(student: StudentId, s: SectionId, newId: RowId) returns (out: Outcome)
      requires s in sections && CheckHolds(sections[s].cols)
      modifies this
      ensures var fx := Join(old(sections[s]), s, student, newId);
              Database() == Put(old(Database()), s, fx) && out == fx.out
    {
      ghost var db, fx := Database(), Join(sections[s], s, student, newId);
      var live := sections[s].cols;
      if live.enrolledCount < live.capacity {
        PutRow(s, newId, Row(student, ENROLLED, None));
        PutCols(s, live.(enrolledCount := live.enrolledCount + 1));
        RecordEvent(Created(newId, student, s));
        assert notes + [] == notes;
        return EnrolledAs(newId, live.enrolledCount + 1);
      }
      if live.waitlistCap.Some? && |Waiting(sections[s].rows)| >= live.waitlistCap.value {
        PutNothing(db, s, Error(SECTION_FULL));
        return Error(SECTION_FULL);
      }
      var position := NextPosition(sections[s].rows);
      PutRow(s, newId, Row(student, WAITLISTED, Some(position)));
      var rank := Rank(sections[s].rows, position);
      RecordEvent(Waitlisted(newId, student, s, position));
      assert notes + [] == notes;
      return WaitlistedAs(newId, rank);
    }

    // ---------------------------------------------------------------- drop

    method Drop(id: RowId) returns (out: Outcome)
      requires Valid()
      modifies this
      ensures Valid() && (Database(), out) == DropOp(old(Database()), id)
      ensures DropLeaves(old(Database()), id, out, Database())
      ensures forall code :: out == Error(code) <==> DropRefused(old(sections), id, code)
    {
      hide DropLeaves, DropRefused;
      ghost var db := Database();
      DropAnswers(db, id);
      DropOpKeeps(db, id);
      var home := HomeOf(sections, id);
      if home.None? { return Error(NOT_FOUND); }
      var s := home.value;
      var current := sections[s].rows[id];
      if !current.Active() {
        PutNothing(db, s, Error(ALREADY_DROPPED));
        return Error(ALREADY_DROPPED);
      }
      LeaveChecked(sections[s], id) by { DbSections(db); }
      ReleaseRow(s, id);
      return DroppedRow(id, current.status.ENROLLED?);
    }

    method ReleaseRow(s: SectionId, id: RowId)
      requires s in sections && id in sections[s].rows && sections[s].rows[id].Active()
      requires sections[s].rows[id].status.ENROLLED? ==>
                 CheckHolds(sections[s].cols.(enrolledCount := sections[s].cols.enrolledCount - 1))
      modifies this
      ensures Database() == Put(old(Database()), s, DropFx(old(sections[s]), s, id))
    {
      var current := sections[s].rows[id];
      PutRow(s, id, Release(current));
      if current.status.ENROLLED? {
        PutCols(s, sections[s].cols.(enrolledCount := sections[s].cols.enrolledCount - 1));
        RecordEvent(Dropped(id, s));
      } else {
        RecordEvent(WaitlistLeft(id, current.position));
      }
      assert notes + [] == notes;
    }

    // ---------------------------------------------------------------- swap

    method Swap(student: StudentId, id: RowId, target: SectionId, newId: RowId, now: nat, hold: bool)
      returns (out: Outcome)
      requires Valid() && FreshId(sections, newId)
      modifies this
      ensures Valid()
              && (Database(), out) == SwapOp(cat, old(Database()), Request.Swap(student, id, target, newId), now, hold)
      ensures SwapLeaves(old(Database()), Request.Swap(student, id, target, newId), out, Database())
      ensures forall code :: out == Error(code)
                <==> SwapRefused(cat, old(sections), Request.Swap(student, id, target, newId), now, hold, code)
      ensures out == Error(SWAP_TARGET_FULL) ==>
                target in old(sections)
                && old(sections)[target].cols.enrolledCount == old(sections)[target].cols.capacity
      ensures forall home | HoldsRow(old(sections), student, home, id) && home != target && target in old(sections) ::
                GateClear(cat, student, target, now, hold)
                && old(sections)[target].cols.enrolledCount < old(sections)[target].cols.capacity
                && ChainClear(cat, old(sections), Request.Swap(student, id, target, newId),
                              cat.course(home) == cat.course(target))
                && !HoldsPlace(old(sections), student, target) ==>
                  out == SwappedTo(newId, old(sections)[home].rows[id].status == ENROLLED)
    {
      var req := Request.Swap(student, id, target, newId);
      ghost var db := Database();
      hide SwapLeaves, SwapRefused, ChainClear, ChainRefused, HasCompleted, GateClear, HoldsPlace, Gate, Verdict;
      hide SwapDb;
      hide SwapOut, SwapIn, CheckHolds, ActiveOf, ActiveSeats, HoldsRow, HomeOf;
      SwapAnswers(cat, db, req, now, hold);
      SwapPromises(cat, db, req, now, hold);
      SwapOpKeeps(cat, db, req, now, hold);
      var home := HomeOf(sections, id);
      if home.None? { return Error(NOT_FOUND); }
      var source := home.value;
      var row := sections[source].rows[id];
      if row.student != student { return Error(FORBIDDEN); }
      if !row.Active() { return Error(ALREADY_DROPPED); }
      if source == target { return SameSection(id); }
      if target !in sections { return Error(SECTION_NOT_FOUND); }
      var gate := CheckGate(student, target, now, hold);
      if gate.Some? { return Error(gate.value); }
      if sections[target].cols.enrolledCount >= sections[target].cols.capacity { return Error(SWAP_TARGET_FULL); }
      var verdict := CheckChain(req, cat.course(source) == cat.course(target));
      if verdict.Some? { return Error(verdict.value); }
      if ActiveOf(sections[target].rows, student) != {} {
        // The unique index refuses the insert and the transaction rolls back.
        return Error(UNIQUE_VIOLATION);
      }
      SwapFits(db, source, target, id);
      MoveSeat(student, source, id, target, newId);
      return SwappedTo(newId, row.status.ENROLLED?);
    }

    method MoveSeat(student: StudentId, source: SectionId, id: RowId, target: SectionId, newId: RowId)
      requires source in sections && target in sections && source != target && id in sections[source].rows
      requires CheckHolds(SwapOut(sections[source], id).cols)
               && CheckHolds(SwapIn(sections[target], student, newId).cols)
      modifies this
      ensures Database() == SwapDb(old(Database()), source, Request.Swap(student, id, target, newId))
    {
      var row := sections[source].rows[id];
      PutRow(source, id, Release(row));
      if row.status.ENROLLED? {
        PutCols(source, sections[source].cols.(enrolledCount := sections[source].cols.enrolledCount - 1));
      }
      assert sections == old(sections)[source := SwapOut(old(sections)[source], id)];
      PutRow(target, newId, Row(student, ENROLLED, None));
      PutCols(target, sections[target].cols.(enrolledCount := sections[target].cols.enrolledCount + 1));
      RecordEvent(Swapped(id, source, row.status, newId, student, target));
    }

    // ----------------------------------------------------------- promotion

    // The pick-minimum loop: while a seat is free, seat the first waiter.
    method RunPromotion(s: SectionId, now: nat) returns (out: Outcome)
      requires Valid()
      modifies this
      ensures Valid() && (Database(), out) == PromoteOp(cat, old(Database()), s, now)
      ensures PromoteLeaves(cat, old(Database()), s, now, out, Database())
    {
      hide PromoteLeaves;
      ghost var db := Database();
      PromoteAnswers(cat, db, s, now);
      PromoteOpKeeps(cat, db, s, now);
      if s !in sections { return NoSection; }
      if cat.closes(cat.term(s)) < now { return RegistrationOver; }
      var promoted := PromoteWhileOpen(s);
      return PromotedRows(promoted);
    }

    method SeatRow(s: SectionId, next: RowId)
      requires s in sections && next in sections[s].rows
      modifies this
      ensures var row := old(sections)[s].rows[next];
              && sections == old(sections)[s := old(sections)[s].(rows := old(sections)[s].rows[next := Seat(row)])]
              && outbox == old(outbox) + [Promoted(next, s, row.position)]
              && notes == old(notes) + [PromotedNote(row.student, next, s)]
    {
      var row := sections[s].rows[next];
      PutRow(s, next, Seat(row));
      CreateNote(PromotedNote(row.student, next, s));
      RecordEvent(Promoted(next, s, row.position));
    }

    method PromoteWhileOpen(s: SectionId) returns (promoted: nat)
      requires s in sections && SeatInvariant(sections[s])
      modifies this
      ensures var fx := PromoteFx(old(sections[s]), s);
              Database() == Put(old(Database()), s, fx) && promoted == |fx.events|
    {
      hide SeatedUpTo, PromoteFx, Ordered, Put, PositionsOk, OneActive, Enrolled;
      ghost var db, sec := Database(), sections[s];
      ghost var o := Ordered(sec.rows);
      NoneSeated(db, s);
      var count := sections[s].cols.enrolledCount;
      promoted := 0;
      while count < sections[s].cols.capacity
        invariant promoted <= |o| && count == sec.cols.enrolledCount + promoted
        invariant sec.cols.enrolledCount <= sec.cols.capacity && count <= sec.cols.capacity
        invariant s in sections && sections[s].cols == sec.cols && SeatedUpTo(db, s, promoted, Database())
        decreases sec.cols.capacity - count
      {
        NextSeat(db, s, promoted, Database());
        var waiting := Waiting(sections[s].rows);
        if waiting == {} { break; }
        var next := First(sections[s].rows, waiting);
        SeatNext(db, s, promoted, Database());
        SeatRow(s, next);
        count, promoted := count + 1, promoted + 1;
      }
      SeatedAll(db, s, promoted, Database());
      if promoted > 0 {
        PutCols(s, sections[s].cols.(enrolledCount := count));
      } else {
        assert sections[s].cols.(enrolledCount := count) == sections[s].cols;
      }
    }

    // ------------------------------------------------- reorder and expiry

    method Reorder(s: SectionId, order: seq<RowId>) returns (out: Outcome)
      requires Valid() && Distinct(order)
      modifies this
      ensures Valid() && (Database(), out) == ReorderOp(old(Database()), s, order)
      ensures ReorderLeaves(old(Database()), s, order, out, Database())
      ensures forall code :: out == Error(code) <==> ReorderRefused(old(sections), s, order, code)
    {
      hide ReorderLeaves, ReorderRefused;
      ghost var db := Database();
      ReorderAnswers(db, s, order);
      ReorderOpKeeps(db, s, order);
      if s !in sections { return Error(SECTION_NOT_FOUND); }
      var current := Ordered(sections[s].rows);
      WaitersListed(db, s);
      var sameMembers := SameMembers(current, order);
      if !sameMembers {
        PutNothing(db, s, Error(WAITLIST_CHANGED));
        return Error(WAITLIST_CHANGED);
      }
      assert forall id <- order :: id in (set i <- order) && id in Waiting(sections[s].rows);
      Renumber(s, order);
      RecordEvent(Reordered(s, current, order));
      assert notes + [] == notes;
      return ReorderedRows;
    }

    method Renumber(s: SectionId, order: seq<RowId>)
      requires s in sections && Distinct(order) && forall id <- order :: id in sections[s].rows
      modifies this`sections
      ensures sections == old(sections)[s := Section(old(sections)[s].cols, Renumbered(old(sections)[s].rows, order))]
    {
      ghost var sec := sections[s];
      assert order[..0] == [] && Renumbered(sec.rows, []) == sec.rows && sections == sections[s := sec];
      for i := 0 to |order|
        invariant sections == old(sections)[s := Section(sec.cols, Renumbered(sec.rows, order[..i]))]
      {
        RenumberOne(sec.rows, order, i);
        PutRow(s, order[i], sections[s].rows[order[i]].(position := Some(i + 1)));
      }
      assert order[..|order|] == order;
    }

    // expireSectionWaitlist: each waiting row dropped, logged and notified.
    method ExpireSection(s: SectionId) returns (out: Outcome)
      requires Valid()
      modifies this
      ensures Valid() && (Database(), out) == ExpireOp(old(Database()), s)
      ensures ExpireLeaves(old(Database()), s, out, Database())
    {
      hide ExpireLeaves;
      ghost var db := Database();
      ExpireAnswers(db, s);
      ExpireOpKeeps(db, s);
      if s !in sections { return NoSection; }
      var rows := Ordered(sections[s].rows);
      ReleaseAll(s, rows);
      return ExpiredRows(|rows|);
    }

    method ReleaseAll(s: SectionId, list: seq<RowId>)
      requires s in sections && list == Ordered(sections[s].rows)
      modifies this
      ensures Database() == Put(old(Database()), s, ExpireFx(old(sections[s]), s))
    {
      ghost var db, sec := Database(), sections[s];
      OrderedInRows(sec.rows);
      ReleasedNone(sec.rows);
      assert list[..0] == [];
      for i := 0 to |list|
        invariant s in sections && ReleasedUpTo(db, s, i, Database())
      {
        ReleaseNext(db, s, i, Database());
        ExpireRow(s, list[i]);
      }
      assert list[..|list|] == list;
    }

    method ExpireRow(s: SectionId, id: RowId)
      requires s in sections && id in sections[s].rows
      modifies this
      ensures var row := old(sections)[s].rows[id];
              && sections == old(sections)[s := old(sections)[s].(rows := old(sections)[s].rows[id := Release(row)])]
              && outbox == old(outbox) + [Expired(id, row.position)]
              && notes == old(notes) + [ExpiredNote(row.student, id, s)]
    {
      var row := sections[s].rows[id];
      PutRow(s, id, Release(row));
      RecordEvent(Expired(id, row.position));
      CreateNote(ExpiredNote(row.student, id, s));
    }

    method ExpireNext(ghost db: Db, ghost done: seq<SectionId>, s: SectionId)
      requires Valid() && Database() == ExpirePass(db, done)
      modifies this
      ensures Valid() && Database() == ExpirePass(db, done + [s])
    {
      PassNext(db, done, s);
      var _ := ExpireSection(s);
    }

    // The hourly pass: every section of a term that is over and still has waiters.
    method ExpireClosed(now: nat) returns (ghost list: seq<SectionId>)
      requires Valid()
      modifies this
      ensures Valid() && Distinct(list) && forall s :: s in list <==> Affected(cat, old(sections), now, s)
      ensures forall s :: s in list <==>
                s in old(sections) && now > cat.closes(cat.term(s)) && WaitingRows(old(sections)[s].rows) != {}
      ensures Database() == ExpirePass(old(Database()), list)
    {
      AffectedAre(cat, sections, now);
      hide *;
      ghost var db := Database();
      var affected := FindAffected(now);
      var todo := affected;
      list := [];
      PassNone(db);
      assert affected - todo == {};
      while todo != {}
        invariant Valid() && todo <= affected && Lists(list, affected - todo)
        invariant Database() == ExpirePass(db, list)
      {
        var s :| s in todo;
        ListsSnoc(list, affected - todo, s);
        assert affected - (todo - {s}) == affected - todo + {s};
        ExpireNext(db, list, s);
        list, todo := list + [s], todo - {s};
      }
      ListsMembers(list, affected);
    }

    method FindAffected(now: nat) returns (affected: set<SectionId>)
      ensures forall s :: s in affected <==> Affected(cat, sections, now, s)
    {
      affected := set s | s in sections && Affected(cat, sections, now, s);
    }

    // ------------------------------------------------------- capacity edit

    method UpdateSection(s: SectionId, capacity: Option<int>, waitlistCap: Option<Option<nat>>) returns (out: Outcome)
      requires Valid()
      modifies this
      ensures Valid() && (Database(), out) == EditOp(old(Database()), s, capacity, waitlistCap)
      ensures EditLeaves(old(Database()), Edit(s, capacity, waitlistCap), out, Database())
      ensures forall code :: out == Error(code) <==> EditRefused(old(sections), Edit(s, capacity, waitlistCap), code)
      ensures out == Error(CAPACITY_BELOW_ENROLLED) <==>
                s in old(sections) && exists n :: capacity == Some(n) && n < old(sections)[s].cols.enrolledCount
      ensures out.EditedSection? ==>
                && s in old(sections) && s in sections && sections == old(sections)[s := sections[s]]
                && sections[s].rows == old(sections)[s].rows
                && sections[s].cols.enrolledCount == old(sections)[s].cols.enrolledCount
                && (forall n :: capacity == Some(n) ==> sections[s].cols.capacity == n)
                && (capacity == None ==> sections[s].cols.capacity == old(sections)[s].cols.capacity)
                && (forall c :: waitlistCap == Some(c) ==> sections[s].cols.waitlistCap == c)
                && (waitlistCap == None ==> sections[s].cols.waitlistCap == old(sections)[s].cols.waitlistCap)
    {
      hide EditLeaves, EditRefused;
      ghost var db := Database();
      EditAnswers(db, Edit(s, capacity, waitlistCap));
      EditPromises(db, Edit(s, capacity, waitlistCap));
      EditOpKeeps(db, s, capacity, waitlistCap);
      if capacity.None? && waitlistCap.None? { return Error(NO_FIELDS); }
      if s !in sections { return Error(SECTION_NOT_FOUND); }
      DbSections(db);
      assert CheckHolds(sections[s].cols) by { assert SeatInvariant(db.sections[s]); }
      out := ResizeSection(s, capacity, waitlistCap);
    }

    method ResizeSection(s: SectionId, capacity: Option<int>, waitlistCap: Option<Option<nat>>) returns (out: Outcome)
      requires s in sections && CheckHolds(sections[s].cols)
      modifies this
      ensures var fx := EditFx(old(sections[s]), s, capacity, waitlistCap);
              Database() == Put(old(Database()), s, fx) && out == fx.out
    {
      ghost var db := Database();
      var current := sections[s].cols;
      var newCapacity := if capacity.Some? then capacity.value else current.capacity;
      var newWaitlistCap := if waitlistCap.Some? then waitlistCap.value else current.waitlistCap;
      if newCapacity < current.enrolledCount {
        PutNothing(db, s, Error(CAPACITY_BELOW_ENROLLED));
        return Error(CAPACITY_BELOW_ENROLLED);
      }
      PutCols(s, Columns(newCapacity, current.enrolledCount, newWaitlistCap));
      RecordEvent(SectionUpdated(s, current, newCapacity, newWaitlistCap));
      assert notes + [] == notes;
      return EditedSection(newCapacity > current.capacity);
    }

    // --------------------------------------------------------------- ranks

    // listForSection numbers the ordered waitlist; each number is the row's
    // rank. A section that does not exist has no one waiting.
    method ListForSection(s: SectionId) returns (list: seq<ListEntry>)
      requires Valid()
      ensures if s !in sections then list == [] else
                && |list| == |Waiting(sections[s].rows)|
                && forall k | 0 <= k < |list| :: ListedAt(sections[s].rows, list[k], k)
    {
      if s !in sections { return []; }
      WaitersListed(Database(), s);
      list := NumberedList(sections[s].rows);
    }

    // The window query: row_number() over each section's waitlist.
    method RankedPositions(ids: set<SectionId>) returns (ranked: map<(SectionId, nat), nat>)
      requires Valid()
      ensures forall s, p :: (s, p) in ranked <==> s in ids && s in sections && p in Positions(sections[s].rows)
      ensures forall k <- ranked :: ranked[k] == Rank(sections[k.0].rows, k.1)
    {
      AllListed(Database());
      hide *;
      ranked := map[];
      var todo := ids;
      assert ids - todo == {};
      RankedNone(sections);
      while todo != {}
        invariant todo <= ids && RankedIn(sections, ranked, ids - todo)
      {
        var s :| s in todo;
        assert ids - (todo - {s}) == ids - todo + {s};
        var here: map<nat, nat> := map[];
        if s in sections { here := RowNumbers(sections[s].rows); }
        RankedMore(sections, ranked, ids - todo, s, here);
        ranked := ranked + Keyed(s, here);
        todo := todo - {s};
      }
      assert ids - todo == ids;
      RankedAll(sections, ranked, ids);
    }

    // Each id asked about at a waiting row's position gets that row's rank.
    method ComputeRanks(rows: seq<RankQuery>) returns (ranks: map<RowId, nat>)
      requires Valid()
      ensures forall q <- rows | Asked(sections, q) :: q.id in ranks
      ensures forall id <- ranks :: exists q <- rows ::
                q.id == id && Asked(sections, q) && ranks[id] == Rank(sections[q.section].rows, q.position)
    {
      hide *;
      var ranked := RankedPositions(set q <- rows :: q.section);
      RankedFrom(sections, ranked, set q <- rows :: q.section);
      ranks := map[];
      RanksNone(sections, rows);
      for i := 0 to |rows|
        invariant RanksUpTo(sections, rows, i, ranks)
      {
        var q := rows[i];
        RanksNext(sections, rows, i, ranks, ranked);
        if (q.section, q.position) in ranked {
          ranks := ranks[q.id := ranked[(q.section, q.position)]];
        }
      }
      RanksAll(sections, rows, ranks);
    }
  }

  predicate Asked(sections: map<SectionId, Section>, q: RankQuery) {
    q.section in sections && q.position in Positions(sections[q.section].rows)
  }

  // Some row among the first i asks for this id and has this rank.
  ghost predicate RankFound(sections: map<SectionId, Section>, rows: seq<RankQuery>, i: nat, id: RowId, rank: nat) {
    exists k :: 0 <= k < i <= |rows| && rows[k].id == id && Asked(sections, rows[k])
                && rank == Rank(sections[rows[k].section].rows, rows[k].position)
  }

  // The first i rows answered.
  ghost predicate RanksUpTo(sections: map<SectionId, Section>, rows: seq<RankQuery>, i: nat, ranks: map<RowId, nat>) {
    && i <= |rows| && (forall k | 0 <= k < i && Asked(sections, rows[k]) :: rows[k].id in ranks)
    && forall id <- ranks :: RankFound(sections, rows, i, id, ranks[id])
  }

  lemma RankedFrom(sections: map<SectionId, Section>, ranked: map<(SectionId, nat), nat>, ids: set<SectionId>)
    requires forall s, p :: (s, p) in ranked <==> s in ids && s in sections && p in Positions(sections[s].rows)
    requires forall k <- ranked :: ranked[k] == Rank(sections[k.0].rows, k.1)
    ensures RankedIn(sections, ranked, ids)
  {
  }

  lemma RanksNone(sections: map<SectionId, Section>, rows: seq<RankQuery>)
    ensures RanksUpTo(sections, rows, 0, map[])
  {
  }

  lemma RanksNext(sections: map<SectionId, Section>, rows: seq<RankQuery>, i: nat, ranks: map<RowId, nat>,
                  ranked: map<(SectionId, nat), nat>)
    requires i < |rows| && RanksUpTo(sections, rows, i, ranks)
    requires RankedIn(sections, ranked, set q <- rows :: q.section)
    ensures var key := (rows[i].section, rows[i].position);
            RanksUpTo(sections, rows, i + 1, if key in ranked then ranks[rows[i].id := ranked[key]] else ranks)
  {
    hide Rank, Positions;
    var key, found := (rows[i].section, rows[i].position), set q <- rows :: q.section;
    assert rows[i] in rows && rows[i].section in found;
    assert key in ranked <==> Asked(sections, rows[i]);
    var ranks' := if key in ranked then ranks[rows[i].id := ranked[key]] else ranks;
    forall id <- ranks'
      ensures RankFound(sections, rows, i + 1, id, ranks'[id])
    {
      if id in ranks && ranks'[id] == ranks[id] {
        var k :| 0 <= k < i && rows[k].id == id && Asked(sections, rows[k])
                 && ranks[id] == Rank(sections[rows[k].section].rows, rows[k].position);
      } else {
        assert ranks'[id] == ranked[key] && Asked(sections, rows[i]) && rows[i].id == id;
      }
    }
  }

  lemma RanksAll(sections: map<SectionId, Section>, rows: seq<RankQuery>, ranks: map<RowId, nat>)
    requires RanksUpTo(sections, rows, |rows|, ranks)
    ensures forall q <- rows | Asked(sections, q) :: q.id in ranks
    ensures forall id <- ranks :: exists q <- rows ::
              q.id == id && Asked(sections, q) && ranks[id] == Rank(sections[q.section].rows, q.position)
  {
    hide Rank, Positions;
    forall id <- ranks
      ensures exists q <- rows ::
                q.id == id && Asked(sections, q) && ranks[id] == Rank(sections[q.section].rows, q.position)
    {
      assert RankFound(sections, rows, |rows|, id, ranks[id]);
      var k :| 0 <= k < |rows| && rows[k].id == id && Asked(sections, rows[k])
               && ranks[id] == Rank(sections[rows[k].section].rows, rows[k].position);
      assert rows[k] in rows;
    }
  }

  // The first k waiters seated, with their events and notes.
  ghost predicate SeatedUpTo(db: Db, s: SectionId, k: nat, now: Db)
    requires s in db.sections && k <= |Ordered(db.sections[s].rows)|
  {
    var sec := db.sections[s];
    OrderedInRows(sec.rows);
    var ids := Ordered(sec.rows)[..k];
    now == Db(db.sections[s := Section(sec.cols, Seated(sec.rows, ids))],
              db.outbox + PromotionEvents(sec.rows, s, ids), db.notes + PromotionNotes(sec.rows, s, ids))
  }

  lemma NoneSeated(db: Db, s: SectionId)
    requires s in db.sections && SeatInvariant(db.sections[s])
    ensures SeatedUpTo(db, s, 0, db) && CheckHolds(db.sections[s].cols)
  {
    hide Ordered;
    var sec := db.sections[s];
    OrderedInRows(sec.rows);
    SeatedNone(sec.rows);
    assert Ordered(sec.rows)[..0] == [] && db.sections[s := sec] == db.sections;
  }

  // With the first k seated, the first waiter is the (k+1)st, if there is one.
  lemma NextSeat(db: Db, s: SectionId, k: nat, now: Db)
    requires s in db.sections && k <= |Ordered(db.sections[s].rows)| && SeatedUpTo(db, s, k, now)
    ensures s in now.sections && now.sections[s].cols == db.sections[s].cols
    ensures var rows, o := now.sections[s].rows, Ordered(db.sections[s].rows);
            if k < |o| then Waiting(rows) != {} && First(rows, Waiting(rows)) == o[k] else Waiting(rows) == {}
  {
    hide Ordered, Waiting, Seated;
    NextPick(db.sections[s].rows, k);
  }

  lemma SeatNext(db: Db, s: SectionId, k: nat, now: Db)
    requires s in db.sections && k < |Ordered(db.sections[s].rows)| && SeatedUpTo(db, s, k, now)
    ensures var next := Ordered(db.sections[s].rows)[k];
            next in now.sections[s].rows
            && var row := now.sections[s].rows[next];
               SeatedUpTo(db, s, k + 1,
                          Db(now.sections[s := now.sections[s].(rows := now.sections[s].rows[next := Seat(row)])],
                             now.outbox + [Promoted(next, s, row.position)],
                                 now.notes + [PromotedNote(row.student, next, s)]))
  {
    var rows := db.sections[s].rows;
    var o := Ordered(rows);
    OrderedInRows(rows);
    SeatedElsewhere(rows, k);
    assert o[..k + 1] == o[..k] + [o[k]];
    SeatedSnoc(rows, o[..k], o[k]);
    PromotionSnoc(rows, s, o[..k], o[k]);
    hide Ordered, Seated, PromotionEvents, PromotionNotes;
  }

  lemma ReleasedNone(rows: map<RowId, Row>)
    ensures Released(rows, []) == rows
  {
  }

  // The first k waiters released, with their events and notes.
  ghost predicate ReleasedUpTo(db: Db, s: SectionId, k: nat, now: Db)
    requires s in db.sections && k <= |Ordered(db.sections[s].rows)|
  {
    var sec := db.sections[s];
    OrderedInRows(sec.rows);
    var ids := Ordered(sec.rows)[..k];
    now == Db(db.sections[s := Section(sec.cols, Released(sec.rows, ids))],
              db.outbox + ExpiryEvents(sec.rows, ids), db.notes + ExpiryNotes(sec.rows, s, ids))
  }

  lemma ReleaseNext(db: Db, s: SectionId, k: nat, now: Db)
    requires s in db.sections && k < |Ordered(db.sections[s].rows)| && ReleasedUpTo(db, s, k, now)
    ensures var id := Ordered(db.sections[s].rows)[k];
            id in now.sections[s].rows
            && var row := now.sections[s].rows[id];
               ReleasedUpTo(db, s, k + 1,
                            Db(now.sections[s := now.sections[s].(rows := now.sections[s].rows[id := Release(row)])],
                               now.outbox + [Expired(id, row.position)], now.notes + [ExpiredNote(row.student, id, s)]))
  {
    var rows := db.sections[s].rows;
    var o := Ordered(rows);
    OrderedInRows(rows);
    ReleasedElsewhere(rows, k);
    assert o[..k + 1] == o[..k] + [o[k]];
    ReleasedSnoc(rows, o[..k], o[k]);
    ExpirySnoc(rows, s, o[..k], o[k]);
    hide Ordered, Released, ExpiryEvents, ExpiryNotes;
  }

  ghost predicate Lists(list: seq<SectionId>, members: set<SectionId>) {
    Distinct(list) && forall s :: s in list <==> s in members
  }

  lemma ListsMembers(list: seq<SectionId>, members: set<SectionId>)
    requires Lists(list, members - {})
    ensures Distinct(list) && forall s :: s in list <==> s in members
  {
  }

  lemma PassNone(db: Db)
    ensures ExpirePass(db, []) == db && Lists([], {})
  {
  }

  lemma ListsSnoc(list: seq<SectionId>, members: set<SectionId>, s: SectionId)
    requires Lists(list, members) && s !in members
    ensures Lists(list + [s], members + {s})
  {
  }

  lemma WaitersListed(db: Db, s: SectionId)
    requires DbInvariant(db) && s in db.sections
    ensures PositionsOk(db.sections[s].rows)
    ensures (set id <- Ordered(db.sections[s].rows)) == Waiting(db.sections[s].rows)
  {
    assert SeatInvariant(db.sections[s]);
    OrderedFacts(db.sections[s].rows);
    assert (set id <- Ordered(db.sections[s].rows)) == Elems(Ordered(db.sections[s].rows));
  }

  // The set comparison of reorder: equal sizes and one inclusion.
  method SameMembers(current: seq<RowId>, submitted: seq<RowId>) returns (same: bool)
    ensures same <==> (set id <- submitted) == (set id <- current)
  {
    var currentSet, submittedSet := (set id <- current), (set id <- submitted);
    assert forall id <- current :: id in currentSet;
    same := |currentSet| == |submittedSet| && forall id <- current :: id in submittedSet;
    if same {
      assert currentSet <= submittedSet;
      SubsetOfEqualSize(currentSet, submittedSet);
    }
  }

  // Entry k of a waitlist shown to an admin.
  ghost predicate ListedAt(rows: map<RowId, Row>, e: ListEntry, k: nat) {
    e.id in Waiting(rows) && e.student == rows[e.id].student && e.position == k + 1 == Rank(rows, rows[e.id].Pos())
  }

  method NumberedList(rows: map<RowId, Row>) returns (list: seq<ListEntry>)
    requires PositionsOk(rows)
    ensures |list| == |Waiting(rows)| && forall k | 0 <= k < |list| :: ListedAt(rows, list[k], k)
  {
    OrderedFacts(rows);
    OrderedInRows(rows);
    var o := Ordered(rows);
    list := [];
    hide Ordered, PositionsOk, Waiting, Rank;
    for i := 0 to |o|
      invariant |list| == i && forall k | 0 <= k < i :: ListedAt(rows, list[k], k)
    {
      RankIsIndex(rows, i);
      list := list + [ListEntry(i + 1, o[i], rows[o[i]].student)];
    }
  }

  function PositionsOf(rows: map<RowId, Row>, ids: seq<RowId>): set<nat> {
    set id | id in ids && id in rows :: rows[id].Pos()
  }

  lemma AllPositions(rows: map<RowId, Row>)
    requires PositionsOk(rows)
    ensures PositionsOf(rows, Ordered(rows)) == Positions(rows)
  {
    OrderedFacts(rows);
    assert forall id :: id in Ordered(rows) <==> id in Elems(Ordered(rows));
  }

  lemma PositionsSnoc(rows: map<RowId, Row>, ids: seq<RowId>, id: RowId)
    requires id in rows
    ensures PositionsOf(rows, ids + [id]) == PositionsOf(rows, ids) + {rows[id].Pos()}
  {
    assert forall i :: i in ids + [id] <==> i in ids || i == id;
  }

  function Keyed(s: SectionId, here: map<nat, nat>): map<(SectionId,
                                                          nat), nat> { map p | p in here :: (s, p) := here[p] }

  ghost predicate RankedIn(sections: map<SectionId, Section>,
                           ranked: map<(SectionId, nat), nat>, done: set<SectionId>) {
    && (forall s, p :: (s, p) in ranked <==> s in done && s in sections && p in Positions(sections[s].rows))
    && (forall k <- ranked :: ranked[k] == Rank(sections[k.0].rows, k.1))
  }

  lemma RankedNone(sections: map<SectionId, Section>)
    ensures RankedIn(sections, map[], {})
  {
  }

  lemma AllListed(db: Db)
    requires DbInvariant(db)
    ensures forall s <- db.sections :: PositionsOk(db.sections[s].rows)
  {
    hide DbInvariant, PositionsOk, Ordered, Waiting;
    forall s <- db.sections ensures PositionsOk(db.sections[s].rows) { WaitersListed(db, s); }
  }

  lemma RankedMore(sections: map<SectionId, Section>, ranked: map<(SectionId, nat), nat>, done: set<SectionId>,
                   s: SectionId, here: map<nat, nat>)
    requires RankedIn(sections, ranked, done) && (s !in sections ==> here == map[])
    requires s in sections ==>
               here.Keys == Positions(sections[s].rows) && forall p <- here :: here[p] == Rank(sections[s].rows, p)
    ensures RankedIn(sections, ranked + Keyed(s, here), done + {s})
  {
    hide Positions, Rank;
  }

  lemma RankedAll(sections: map<SectionId, Section>, ranked: map<(SectionId, nat), nat>, done: set<SectionId>)
    requires RankedIn(sections, ranked, done)
    ensures forall s, p :: (s, p) in ranked <==> s in done && s in sections && p in Positions(sections[s].rows)
    ensures forall k <- ranked :: ranked[k] == Rank(sections[k.0].rows, k.1)
  {
    hide Positions, Rank;
  }

  // The first i listed rows' positions are numbered by rank.
  ghost predicate NumbersUpTo(rows: map<RowId, Row>, o: seq<RowId>, i: nat, numbers: map<nat, nat>) {
    i <= |o| && numbers.Keys == PositionsOf(rows, o[..i]) && forall p <- numbers :: numbers[p] == Rank(rows, p)
  }

  lemma NumberNext(rows: map<RowId, Row>, i: nat, numbers: map<nat, nat>)
    requires PositionsOk(rows) && i < |Ordered(rows)| && NumbersUpTo(rows, Ordered(rows), i, numbers)
    ensures Ordered(rows)[i] in rows
    ensures NumbersUpTo(rows, Ordered(rows), i + 1, numbers[rows[Ordered(rows)[i]].Pos() := i + 1])
  {
    hide Ordered, PositionsOk, Rank, Waiting, PositionsOf;
    OrderedInRows(rows);
    var o := Ordered(rows);
    RankIsIndex(rows, i);
    assert o[..i + 1] == o[..i] + [o[i]];
    PositionsSnoc(rows, o[..i], o[i]);
  }

  lemma NumbersAll(rows: map<RowId, Row>, numbers: map<nat, nat>)
    requires PositionsOk(rows) && NumbersUpTo(rows, Ordered(rows), |Ordered(rows)|, numbers)
    ensures numbers.Keys == Positions(rows) && forall p <- numbers :: numbers[p] == Rank(rows, p)
  {
    AllPositions(rows);
    assert Ordered(rows)[..|Ordered(rows)|] == Ordered(rows);
    hide Ordered, PositionsOk, Rank;
  }

  // row_number() over one section's waitlist, keyed by position.
  method RowNumbers(rows: map<RowId, Row>) returns (numbers: map<nat, nat>)
    requires PositionsOk(rows)
    ensures numbers.Keys == Positions(rows) && forall p <- numbers :: numbers[p] == Rank(rows, p)
  {
    OrderedInRows(rows);
    var o := Ordered(rows);
    numbers := map[];
    assert NumbersUpTo(rows, o, 0, numbers);
    hide Ordered, PositionsOk, Rank, Positions, Waiting, NumbersUpTo;
    for i := 0 to |o|
      invariant NumbersUpTo(rows, o, i, numbers)
    {
      NumberNext(rows, i, numbers);
      numbers := numbers[rows[o[i]].Pos() := i + 1];
    }
    NumbersAll(rows, numbers);
  }

  // Where the loop stops.
  lemma SeatedAll(db: Db, s: SectionId, k: nat, now: Db)
    requires s in db.sections && SeatInvariant(db.sections[s]) && k <= |Ordered(db.sections[s].rows)|
             && SeatedUpTo(db, s, k, now)
    requires db.sections[s].cols.enrolledCount + k <= db.sections[s].cols.capacity
    requires db.sections[s].cols.enrolledCount + k == db.sections[s].cols.capacity
             || k == |Ordered(db.sections[s].rows)|
    ensures s in now.sections && now.sections[s].cols == db.sections[s].cols && 0 <= db.sections[s].cols.enrolledCount
    ensures var fx := PromoteFx(db.sections[s], s);
            |fx.events| == k
            && Put(db, s, fx) == now.(sections := now.sections[s := now.sections[s].(cols :=
                                   now.sections[s].cols.(enrolledCount := db.sections[s].cols.enrolledCount + k))])
  {
    var sec := db.sections[s];
    PromotableIs(sec);
    OrderedFacts(sec.rows);
    OrderedInRows(sec.rows);
    hide Ordered, Seated, Promotable, PositionsOk, OneActive;
  }

  // Releasing the source and seating the target both leave counters the CHECK accepts.
  lemma SwapFits(db: Db, source: SectionId, target: SectionId, id: RowId)
    requires DbInvariant(db) && source in db.sections && target in db.sections && id in db.sections[source].rows
    requires db.sections[target].cols.enrolledCount < db.sections[target].cols.capacity
    ensures CheckHolds(SwapOut(db.sections[source], id).cols)
    ensures forall x: StudentId, newId: RowId :: CheckHolds(SwapIn(db.sections[target], x, newId).cols)
  {
    DbSections(db);
    LeaveChecked(db.sections[source], id);
    assert SeatInvariant(db.sections[source]) && SeatInvariant(db.sections[target]);
    hide PositionsOk, OneActive, IdsUnique, Enrolled;
  }

  // The swap's answers about seats, in the words of its contract.
  lemma SwapPromises(cat: Catalog, db: Db, req: Request, now: nat, hold: bool)
    requires DbInvariant(db) && req.Swap?
    ensures var out := SwapOp(cat, db, req, now, hold).1;
            && (out == Error(SWAP_TARGET_FULL) ==>
                  req.target in db.sections
                  && db.sections[req.target].cols.enrolledCount == db.sections[req.target].cols.capacity)
            && forall home | HoldsRow(db.sections, req.student, home, req.id) && home != req.target
                             && req.target in db.sections ::
                 GateClear(cat, req.student, req.target, now, hold)
                 && db.sections[req.target].cols.enrolledCount < db.sections[req.target].cols.capacity
                 && ChainClear(cat, db.sections, req, cat.course(home) == cat.course(req.target))
                 && !HoldsPlace(db.sections, req.student, req.target) ==>
                   out == SwappedTo(req.newId, db.sections[home].rows[req.id].status == ENROLLED)
  {
    hide SwapOp, DbInvariant, GateClear, ChainClear, HoldsPlace;
    FullWhenFull(cat, db, req, now, hold);
    forall home | HoldsRow(db.sections, req.student, home, req.id) && home != req.target && req.target in db.sections
                  && GateClear(cat, req.student, req.target, now, hold)
                  && db.sections[req.target].cols.enrolledCount < db.sections[req.target].cols.capacity
                  && ChainClear(cat, db.sections, req, cat.course(home) == cat.course(req.target))
                  && !HoldsPlace(db.sections, req.student, req.target)
      ensures SwapOp(cat, db, req, now, hold).1
              == SwappedTo(req.newId, db.sections[home].rows[req.id].status == ENROLLED)
    {
      SwapGoesThrough(cat, db, req, home, now, hold);
    }
  }

  lemma FullWhenFull(cat: Catalog, db: Db, req: Request, now: nat, hold: bool)
    requires DbInvariant(db) && req.Swap?
    ensures SwapOp(cat, db, req, now, hold).1 == Error(SWAP_TARGET_FULL) ==>
              req.target in db.sections
              && db.sections[req.target].cols.enrolledCount == db.sections[req.target].cols.capacity
  {
    hide SwapLeaves, DbInvariant, GateClear, GateRefused, ChainClear, ChainRefused, HoldsPlace, SwapDb, Gate, Verdict;
    hide ActiveOf, ActiveSeats;
    var home := HomeOf(db.sections, req.id);
    if home.Some? {
      SwapFromAnswers(cat, db, req, home.value, now, hold);
      NotGate(cat, req.student, req.target, now, hold);
      NotChain(cat, db.sections, req);
      hide SwapOp;
    }
  }

  lemma NotGate(cat: Catalog, x: StudentId, s: SectionId, now: nat, hold: bool)
    ensures !GateRefused(cat, x, s, now, hold, SWAP_TARGET_FULL)
  {
  }

  lemma NotChain(cat: Catalog, sections: map<SectionId, Section>, req: Request)
    requires Adding(req)
    ensures forall same :: !ChainRefused(cat, sections, req, same, SWAP_TARGET_FULL)
  {
  }

  // The edit's, likewise.
  lemma EditPromises(db: Db, req: Request)
    requires DbInvariant(db) && req.Edit?
    ensures var (db', out) := EditOp(db, req.section, req.capacity, req.waitlistCap);
            && (out == Error(CAPACITY_BELOW_ENROLLED) <==>
                  req.section in db.sections
                  && exists n :: req.capacity == Some(n) && n < db.sections[req.section].cols.enrolledCount)
            && (out.EditedSection? ==> EditStored(db.sections, req, db'.sections))
  {
    EditAnswers(db, req);
    hide EditOp, DbInvariant;
  }

  ghost predicate EditStored(sections: map<SectionId, Section>, req: Request, sections': map<SectionId, Section>)
    requires req.Edit?
  {
    var s := req.section;
    && s in sections && s in sections' && sections' == sections[s := sections'[s]]
    && sections'[s].rows == sections[s].rows && Edited(sections[s].cols, req, sections'[s].cols)
  }

  lemma AffectedAre(cat: Catalog, sections: map<SectionId, Section>, now: nat)
    ensures forall s :: Affected(cat, sections, now, s) <==>
              s in sections && now > cat.closes(cat.term(s)) && WaitingRows(sections[s].rows) != {}
  {
    assert forall s <- sections :: WaitingRows(sections[s].rows) == Waiting(sections[s].rows);
    hide Waiting, WaitingRows;
  }

  lemma OwnApart(cat: Catalog, sections: map<SectionId, Section>, req: Request, mine: set<RowKey>)
    requires Adding(req)
    requires mine
             == SameTerm(cat, if req.Enroll? then ActiveSeats(sections, req.student) else OtherSeats(sections, req),
                              cat.term(TargetOf(req)))
    ensures Apart(mine, if req.Enroll? then Some(req.section) else None)
         == SameTerm(cat, OtherSeats(sections, req), cat.term(TargetOf(req)))
  {
    hide ActiveSeats;
  }

  function Apart(seats: set<RowKey>, own: Option<SectionId>): set<RowKey> {
    set p | p in seats && own != Some(p.0)
  }
}
