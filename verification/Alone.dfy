// A transaction of the machine with no other beside it: its statements, one
// after the other, give the answer of the one-step operation and leave what it
// leaves, whatever the request, refusals included.
module Alone {
  import opened Registry
  import opened Waitlist
  import opened Operations
  import opened Seats
  import opened Machine
  import opened LocalSteps
  import opened Interleaving
  import opened Serializability
  import opened Runs
  import opened Liveness
  import opened ClosedTerm
  import opened Answers

  // ------------------------------------------------- what the checks settled

  // The chain's first n checks passed against the other rows: course,
  // prerequisites, clashes, credits. same: the first two are skipped.
  ghost predicate ChainPassed(cat: Catalog, sections: map<SectionId, Section>, req: Request, same: bool, n: nat)
    requires Adding(req)
  {
    var others, target := OtherSeats(sections, req), TargetOf(req);
    var mine := SameTerm(cat, others, cat.term(target));
    && (n >= 1 && !same ==> !DuplicateCourse(cat, others, target))
    && (n >= 2 && !same ==> PrerequisitesMet(cat, sections, req.student, target))
    && (n >= 3 ==> !ClashesWith(cat, mine, target))
    && (n >= 4 ==> CreditsFit(cat, req.student, mine, target))
  }

  ghost predicate Summed(cat: Catalog, sections: map<SectionId, Section>, req: Request, credits: nat)
    requires Adding(req)
  {
    credits == CreditSum(cat, SameTerm(cat, OtherSeats(sections, req), cat.term(TargetOf(req))))
  }

  // A swap between these two skips the first two checks.
  predicate SameCourse(cat: Catalog, home: SectionId, target: SectionId) { cat.course(home) == cat.course(target) }

  // Checks of the chain behind a statement.
  ghost function EnrollStage(e: EnrollPc): nat {
    if e.EnrollGate? || e.EnrollLock? || e.EnrollActive? || e.EnrollDup? then 0 else if e.EnrollPrereq? then 1
    else if e.EnrollMine? then 2 else if e.EnrollOverload? then 3 else 4
  }

  ghost function SwapStage(w: SwapPc): nat {
    if w.SwapPrereq? then 1 else if w.SwapMine? then 2 else if w.SwapOverload? then 3 else if SwapWriting(w) then 4
        else 0
  }

  // The gate and the chain's first n checks passed.
  ghost predicate EnrollPast(cat: Catalog, sections: map<SectionId, Section>, req: Request, now: nat, hold: bool,
                             n: nat)
    requires req.Enroll?
  {
    && req.section in sections && Gate(cat, req.student, req.section, now, hold) == None
    && ChainPassed(cat, sections, req, false, n)
  }

  ghost predicate EnrollSettled(cat: Catalog, sections: map<SectionId, Section>, req: Request, e: EnrollPc, now: nat,
                                hold: bool)
    requires req.Enroll?
  {
    e.EnrollGate? ||
    (EnrollPast(cat, sections, req, now, hold, EnrollStage(e))
     && (e.EnrollOverload? ==> Summed(cat, sections, req, e.credits)))
  }

  // One's own active row, to be given up for another section.
  ghost predicate GivesUp(sections: map<SectionId, Section>, req: Request, home: SectionId)
    requires req.Swap?
  {
    && HomeOf(sections, req.id) == Some(home) && home != req.target
    && sections[home].rows[req.id].Active() && sections[home].rows[req.id].student == req.student
  }

  ghost predicate SwapPast(cat: Catalog, sections: map<SectionId, Section>, req: Request, home: SectionId, now: nat,
                           hold: bool, n: nat)
    requires req.Swap?
  {
    && GivesUp(sections, req, home) && req.target in sections
    && Gate(cat, req.student, req.target, now, hold) == None
    && ChainPassed(cat, sections, req, SameCourse(cat, home, req.target), n)
  }

  ghost predicate SwapSettled(cat: Catalog, sections: map<SectionId, Section>, req: Request, home: SectionId, w: SwapPc,
                              now: nat, hold: bool)
    requires req.Swap?
  {
    w.SwapRead? || (w.SwapGate? && GivesUp(sections, req, home)) ||
    (!w.SwapGate? && SwapPast(cat, sections, req, home, now, hold, SwapStage(w))
     && (w.SwapOverload? ==> Summed(cat, sections, req, w.credits)))
  }

  // What the statements before pc have settled, all of them made at `now` on the
  // database as it is: the answer itself once there is one.
  ghost predicate SettledPc(cat: Catalog, db: Db, req: Request, home: SectionId, pc: Pc, now: nat, hold: bool) {
    match pc
    case Ready(out) => Apply(cat, db, req, now, hold).1 == out && !out.Error?
    case Failed(code) => Apply(cat, db, req, now, hold).1 == Error(code)
    case Enrolling(e) => req.Enroll? && EnrollSettled(cat, db.sections, req, e, now, hold)
    case Swapping(w) => req.Swap? && SwapSettled(cat, db.sections, req, home, w, now, hold)
    case Dropping(d) => req.Drop? && (d.DropRead? || HomeOf(db.sections, req.id) == Some(home))
    case Promoting(p) =>
      req.Promote? && (p.PromoteLock? || p.PromoteGate? || !(cat.closes(cat.term(req.section)) < now))
    case Reordering(_) => req.Reorder?
    case Expiring(_) => req.Expire?
    case Editing(_) => req.Edit? && (req.capacity.Some? || req.waitlistCap.Some?)
    case _ => false
  }

  ghost predicate Settled(cat: Catalog, db: Db, t: Txn, now: nat, hold: bool) {
    SettledPc(cat, db, t.req, t.home, t.pc, now, hold)
  }

  // ------------------------------------------------------------------ enroll

  // One check more; and the chain's answer, for the first that fails.
  lemma ChainGoes(cat: Catalog, sections: map<SectionId, Section>, req: Request, same: bool)
    requires Adding(req)
    ensures var others, target := OtherSeats(sections, req), TargetOf(req);
            var mine := SameTerm(cat, others, cat.term(target));
            && ChainPassed(cat, sections, req, same, 0)
            && (ChainPassed(cat, sections, req, same, 1) <==> same || !DuplicateCourse(cat, others, target))
            && (ChainPassed(cat, sections, req, same, 2)
                <==> ChainPassed(cat, sections, req, same, 1)
                     && (same || PrerequisitesMet(cat, sections, req.student, target)))
            && (ChainPassed(cat, sections, req, same, 3)
                <==> ChainPassed(cat, sections, req, same, 2) && !ClashesWith(cat, mine, target))
            && (ChainPassed(cat, sections, req, same, 4)
                <==> ChainPassed(cat, sections, req, same, 3)
                     && !OverLimit(cat, req.student, CreditSum(cat, mine), target))
  {
    hide OtherSeats, SameTerm, DuplicateCourse, PrerequisitesMet, ClashesWith, CreditSum;
  }

  lemma ChainVerdict(cat: Catalog, sections: map<SectionId, Section>, req: Request, same: bool)
    requires Adding(req)
    ensures var verdict := Verdict(cat, sections, req.student, TargetOf(req), OtherSeats(sections, req), same);
            verdict == if !ChainPassed(cat, sections, req, same, 1) then Some(DUPLICATE_COURSE)
                       else if !ChainPassed(cat, sections, req, same, 2) then Some(PREREQUISITE_NOT_MET)
                       else if !ChainPassed(cat, sections, req, same, 3) then Some(TIME_CONFLICT)
                       else if !ChainPassed(cat, sections, req, same, 4) then Some(CREDIT_LIMIT_EXCEEDED)
                       else None
  {
    hide OtherSeats, SameTerm, DuplicateCourse, PrerequisitesMet, ClashesWith, CreditSum;
  }

  // Where an enroll goes on from each check, and its answer where it stops.
  lemma EnrollGoes(cat: Catalog, db: Db, req: Request, now: nat, hold: bool)
    requires req.Enroll? && EnrollPast(cat, db.sections, req, now, hold, 0)
    ensures req.section in db.sections
    ensures var answer, sections, s, x := Apply(cat, db, req, now, hold).1, db.sections, req.section, req.student;
            var others, fx := OtherSeats(sections, req), EnrollFx(sections[s], s, x, req.newId);
            var mine := SameTerm(cat, others, cat.term(s));
            if HolderRow(sections[s].rows, x).Some? then answer == fx.out else
              && (if DuplicateCourse(cat, others, s) then answer == Error(DUPLICATE_COURSE)
                  else EnrollPast(cat, sections, req, now, hold, 1))
              && (EnrollPast(cat, sections, req, now, hold, 1) ==>
                    if !PrerequisitesMet(cat, sections, x, s) then answer == Error(PREREQUISITE_NOT_MET)
                    else EnrollPast(cat, sections, req, now, hold, 2))
              && (EnrollPast(cat, sections, req, now, hold, 2) ==>
                    if ClashesWith(cat, mine, s) then answer == Error(TIME_CONFLICT)
                    else EnrollPast(cat, sections, req, now, hold, 3))
              && (EnrollPast(cat, sections, req, now, hold, 3) ==>
                    if OverLimit(cat, x, CreditSum(cat, mine), s) then answer == Error(CREDIT_LIMIT_EXCEEDED)
                    else EnrollPast(cat, sections, req, now, hold, 4))
              && (EnrollPast(cat, sections, req, now, hold, 4) ==> answer == fx.out)
  {
    ChainGoes(cat, db.sections, req, false);
    ChainVerdict(cat, db.sections, req, false);
    hide Gate, Verdict, HolderRow, EnrollFx, ActiveSeats, ChainPassed, OverLimit, SameTerm, SeatsOutside;
    hide DuplicateCourse, PrerequisitesMet, ClashesWith, CreditSum;
  }

  lemma EnrollStops(cat: Catalog, db: Db, req: Request, now: nat, hold: bool)
    requires req.Enroll?
    ensures var answer, gate := Apply(cat, db, req, now, hold).1, Gate(cat, req.student, req.section, now, hold);
            if req.section !in db.sections then answer == Error(SECTION_NOT_FOUND)
            else if gate.Some? then answer == Error(gate.value)
            else EnrollPast(cat, db.sections, req, now, hold, 0)
  {
    hide Gate, Verdict, HolderRow, EnrollFx, ActiveSeats;
  }

  lemma EnrollBegan(cat: Catalog, sections: map<SectionId, Section>, req: Request, now: nat, hold: bool, n: nat)
    requires req.Enroll? && EnrollPast(cat, sections, req, now, hold, n)
    ensures EnrollPast(cat, sections, req, now, hold, 0)
  {
    hide Gate;
  }

  // With nothing of its own written a transaction reads the committed rows.
  lemma SeesCommitted(cat: Catalog, sections: map<SectionId, Section>, t: Txn)
    requires Adding(t.req) && t.writes == []
    ensures ViewAll(sections, t.writes) == sections && Others(sections, t) == OtherSeats(sections, t.req)
    ensures forall s <- sections :: Seen(sections, t, s) == sections[s]
    ensures forall target ::
              OthersInTerm(cat, sections, t, target) == SameTerm(cat, OtherSeats(sections, t.req), cat.term(target))
  {
    NothingWritten(sections);
    hide ActiveSeats, SameTerm;
  }

  // Where an enroll stands while it is checking.
  ghost predicate Checking(sections: map<SectionId, Section>, t: Txn, e: EnrollPc)
    requires t.req.Enroll?
  {
    && t.pc == Enrolling(e) && EnrollChecking(e) && t.writes == []
    && (!e.EnrollGate? ==> t.req.section in sections)
    && (!e.EnrollGate? && !e.EnrollActive? ==> HolderRow(sections[t.req.section].rows, t.req.student).None?)
  }

  // The next statement of a checking enroll, told of the committed rows.
  ghost function EnrollNext(cat: Catalog, sections: map<SectionId, Section>, req: Request, e: EnrollPc, now: nat,
                            hold: bool): Pc
    requires req.Enroll? && req.section in sections && EnrollChecking(e)
  {
    var s, x, others := req.section, req.student, OtherSeats(sections, req);
    var mine, held := SameTerm(cat, others, cat.term(s)), HolderRow(sections[s].rows, req.student);
    match e
    case EnrollGate =>
      var gate := Gate(cat, x, s, now, hold);
      if gate.Some? then Failed(gate.value) else Enrolling(EnrollLock)
    case EnrollActive(live) =>
      if held.Some? then Ready(AlreadyOutcome(sections[s], held.value)) else Enrolling(EnrollDup(live))
    case EnrollDup(live) =>
      if DuplicateCourse(cat, others, s) then Failed(DUPLICATE_COURSE) else Enrolling(EnrollPrereq(live))
    case EnrollPrereq(live) =>
      if PrerequisitesMet(cat, sections, x, s) then Enrolling(EnrollMine(live)) else Failed(PREREQUISITE_NOT_MET)
    case EnrollMine(live) =>
      if ClashesWith(cat, mine, s) then Failed(TIME_CONFLICT)
      else Enrolling(EnrollOverload(live, CreditSum(cat, mine)))
    case EnrollOverload(live, credits) =>
      if OverLimit(cat, x, credits, s) then Failed(CREDIT_LIMIT_EXCEEDED)
      else if live.enrolledCount < live.capacity then Enrolling(EnrollInsert(live))
      else if live.waitlistCap.Some? then Enrolling(QueueCount(live)) else Enrolling(QueuePosition)
  }

  lemma EnrollNextIs(cat: Catalog, sections: map<SectionId, Section>, t: Txn, e: EnrollPc, now: nat, hold: bool)
    requires t.req.Enroll? && t.req.section in sections && Checking(sections, t, e)
    ensures ExecEnroll(cat, sections, t, e, now, hold) == Go(t, EnrollNext(cat, sections, t.req, e, now, hold))
  {
    SeesCommitted(cat, sections, t);
    hide Verdict, Gate, HolderRow, AlreadyOutcome, OtherSeats, Seen, ViewAll, Others, OthersInTerm, SameTerm, OverLimit;
    hide DuplicateCourse, PrerequisitesMet, ClashesWith, CreditSum;
  }

  // A checking enroll's next statement settles one check more, or the answer.
  lemma EnrollNextSettles(cat: Catalog, db: Db, req: Request, home: SectionId, e: EnrollPc, now: nat, hold: bool)
    requires req.Enroll? && req.section in db.sections && EnrollChecking(e)
    requires !e.EnrollGate? && !e.EnrollActive? ==> HolderRow(db.sections[req.section].rows, req.student).None?
    requires EnrollSettled(cat, db.sections, req, e, now, hold)
    ensures SettledPc(cat, db, req, home, EnrollNext(cat, db.sections, req, e, now, hold), now, hold)
  {
    hide Apply, Gate, HolderRow, OtherSeats, SameTerm, EnrollPast, OverLimit, Join;
    hide DuplicateCourse, PrerequisitesMet, ClashesWith, CreditSum;
    if e.EnrollGate? {
      EnrollStops(cat, db, req, now, hold);
    } else {
      EnrollBegan(cat, db.sections, req, now, hold, EnrollStage(e));
      EnrollGoes(cat, db, req, now, hold);
    }
  }

  lemma EnrollChecksSettle(cat: Catalog, db: Db, t: Txn, e: EnrollPc, now: nat, hold: bool)
    requires t.req.Enroll? && Checking(db.sections, t, e) && EnrollSettled(cat, db.sections, t.req, e, now, hold)
    ensures Settled(cat, db, ExecEnroll(cat, db.sections, t, e, now, hold), now, hold)
  {
    hide EnrollSettled, EnrollNext, Apply, HolderRow, ExecEnrollChecks;
    if t.req.section in db.sections {
      hide SettledPc, ExecEnroll;
      EnrollNextIs(cat, db.sections, t, e, now, hold);
      EnrollNextSettles(cat, db, t.req, t.home, e, now, hold);
    } else {
      EnrollStops(cat, db, t.req, now, hold);
    }
  }

  // Past its checks an enroll gets what the section has to offer.
  lemma EnrollCleared(cat: Catalog, db: Db, req: Request, e: EnrollPc, now: nat, hold: bool)
    requires req.Enroll? && !EnrollChecking(e) && !e.EnrollLock? && EnrollSettled(cat, db.sections, req, e, now, hold)
    ensures req.section in db.sections
    ensures Apply(cat, db, req, now, hold).1
            == EnrollFx(db.sections[req.section], req.section, req.student, req.newId).out
    ensures forall v | !EnrollChecking(v) && !v.EnrollLock? :: EnrollSettled(cat, db.sections, req, v, now, hold)
  {
    hide Apply, Gate, HolderRow, OtherSeats, SameTerm, EnrollPast, OverLimit, EnrollFx;
    EnrollBegan(cat, db.sections, req, now, hold, 4);
    EnrollGoes(cat, db, req, now, hold);
  }

  // What the next statement of an enroll that writes can come to.
  lemma EnrollWrites(sections: map<SectionId, Section>, t: Txn, e: EnrollPc)
    requires t.req.Enroll? && t.pc == Enrolling(e) && !EnrollChecking(e) && !e.EnrollLock? && t.req.section in sections
    requires GoodEnrollPc(sections[t.req.section], t.req, t.pc, t.writes)
    requires var t' := ExecEnrollWrites(sections, t, e);
             GoodEnrollPc(sections[t.req.section], t.req, t'.pc, t'.writes)
    ensures var t', s := ExecEnrollWrites(sections, t, e), t.req.section;
            var out := EnrollFx(sections[s], s, t.req.student, t.req.newId).out;
            && t'.req == t.req && t'.home == t.home
            && match t'.pc
               case Enrolling(v) => !EnrollChecking(v) && !v.EnrollLock?
               case Ready(o) => o == out && !o.Error?
               case Failed(code) => out == Error(code)
               case _ => false
  {
    assert View(sections[t.req.section], t.req.section, []) == sections[t.req.section];
    hide HolderRow, Wrote, NextPosition, Rank, View, ActiveOf, Waiting;
  }

  lemma EnrollWritesSettle(cat: Catalog, db: Db, t: Txn, e: EnrollPc, now: nat, hold: bool)
    requires t.req.Enroll? && t.pc == Enrolling(e) && !EnrollChecking(e) && !e.EnrollLock?
             && t.req.section in db.sections
    requires EnrollSettled(cat, db.sections, t.req, e, now, hold)
    requires GoodEnrollPc(db.sections[t.req.section], t.req, t.pc, t.writes)
    requires var t' := ExecEnrollWrites(db.sections, t, e);
             GoodEnrollPc(db.sections[t.req.section], t.req, t'.pc, t'.writes)
    ensures Settled(cat, db, ExecEnrollWrites(db.sections, t, e), now, hold)
  {
    hide Apply, EnrollSettled, EnrollFx, GoodEnrollPc, ExecEnrollWrites;
    EnrollWrites(db.sections, t, e);
    EnrollCleared(cat, db, t.req, e, now, hold);
  }

  lemma EnrollSettles(cat: Catalog, db: Db, t: Txn, e: EnrollPc, now: nat, hold: bool)
    requires t.req.Enroll? && t.pc == Enrolling(e) && Stepping(t) && GoodTxn(db.sections, t)
    requires Settled(cat, db, t, now, hold) && GoodTxn(db.sections, ExecEnroll(cat, db.sections, t, e, now, hold))
    ensures Settled(cat, db, ExecEnroll(cat, db.sections, t, e, now, hold), now, hold)
  {
    hide WritesIn, EnrollSettled, Matches, HolderRow, ExecEnrollChecks, Wrote, NextPosition, Rank, Join;
    if EnrollChecking(e) {
      hide ExecEnroll;
      assert Checking(db.sections, t, e);
      EnrollChecksSettle(cat, db, t, e, now, hold);
    } else {
      hide Settled, ExecEnrollWrites, GoodEnroll;
      EnrollWritesSettle(cat, db, t, e, now, hold);
    }
  }

  // -------------------------------------------------------------------- swap

  // Where a swap goes on from each check, and its answer where it stops.
  lemma SwapGoes(cat: Catalog, db: Db, req: Request, home: SectionId, now: nat, hold: bool)
    requires req.Swap? && SwapPast(cat, db.sections, req, home, now, hold, 0)
    ensures home in db.sections && req.target in db.sections && req.id in db.sections[home].rows
            && db.sections[home].rows[req.id].Active()
    ensures var answer, sections, x, target := Apply(cat, db, req, now, hold).1, db.sections, req.student, req.target;
            var others, same := OtherSeats(sections, req), SameCourse(cat, home, target);
            var mine := SameTerm(cat, others, cat.term(target));
            if Full(sections[target].cols) then answer == Error(SWAP_TARGET_FULL) else
              && (if !same && DuplicateCourse(cat, others, target) then answer == Error(DUPLICATE_COURSE)
                  else SwapPast(cat, sections, req, home, now, hold, 1))
              && (SwapPast(cat, sections, req, home, now, hold, 1) ==>
                    if !same && !PrerequisitesMet(cat, sections, x, target) then answer == Error(PREREQUISITE_NOT_MET)
                    else SwapPast(cat, sections, req, home, now, hold, 2))
              && (SwapPast(cat, sections, req, home, now, hold, 2) ==>
                    if ClashesWith(cat, mine, target) then answer == Error(TIME_CONFLICT)
                    else SwapPast(cat, sections, req, home, now, hold, 3))
              && (SwapPast(cat, sections, req, home, now, hold, 3) ==>
                    if OverLimit(cat, x, CreditSum(cat, mine), target) then answer == Error(CREDIT_LIMIT_EXCEEDED)
                    else SwapPast(cat, sections, req, home, now, hold, 4))
              && (SwapPast(cat, sections, req, home, now, hold, 4) ==>
                    answer == if ActiveOf(sections[target].rows, x) != {} then Error(UNIQUE_VIOLATION)
                              else SwappedTo(req.newId, sections[home].rows[req.id].status.ENROLLED?))
  {
    ChainGoes(cat, db.sections, req, SameCourse(cat, home, req.target));
    ChainVerdict(cat, db.sections, req, SameCourse(cat, home, req.target));
    hide Gate, Verdict, HomeOf, ActiveSeats, ActiveOf, ChainPassed, OverLimit, SameTerm, SeatsExcept;
    hide DuplicateCourse, PrerequisitesMet, ClashesWith, CreditSum;
  }

  lemma SwapStops(cat: Catalog, db: Db, req: Request, home: SectionId, now: nat, hold: bool)
    requires req.Swap? && GivesUp(db.sections, req, home)
    ensures var answer, gate := Apply(cat, db, req, now, hold).1, Gate(cat, req.student, req.target, now, hold);
            if req.target !in db.sections then answer == Error(SECTION_NOT_FOUND)
            else if gate.Some? then answer == Error(gate.value)
            else SwapPast(cat, db.sections, req, home, now, hold, 0)
  {
    hide Gate, Verdict, HomeOf, ActiveSeats, ActiveOf;
  }

  lemma SwapReadSettles(cat: Catalog, db: Db, t: Txn, now: nat, hold: bool)
    requires t.req.Swap? && t.pc == Swapping(SwapRead)
    ensures Settled(cat, db, ExecSwap(cat, db.sections, t, SwapRead, now, hold), now, hold)
  {
    hide EnrollOp, DropOp, PromoteOp, ReorderOp, ExpireOp, EditOp, Verdict, Gate, HomeOf, ActiveOf, ActiveSeats;
  }

  // Where a swap stands while it is checking.
  ghost predicate SwapChecking(sections: map<SectionId, Section>, t: Txn, w: SwapPc)
    requires t.req.Swap?
  {
    && t.pc == Swapping(w) && !w.SwapRead? && !w.SwapLock1? && !w.SwapLock2? && !SwapWriting(w) && t.writes == []
    && t.home in sections && t.req.target in sections
    && (!w.SwapGate? && !w.SwapReread? && !w.SwapTarget? ==> !Full(sections[t.req.target].cols))
  }

  // The next statement of a checking swap, told of the committed rows.
  ghost function SwapNext(cat: Catalog, sections: map<SectionId, Section>, req: Request, home: SectionId, w: SwapPc,
                          now: nat, hold: bool): Pc
    requires req.Swap? && home in sections && req.target in sections
  {
    var others, target := OtherSeats(sections, req), req.target;
    var mine, same := SameTerm(cat, others, cat.term(target)), SameCourse(cat, home, target);
    match w
    case SwapGate =>
      var gate := Gate(cat, req.student, target, now, hold);
      if gate.Some? then Failed(gate.value) else Swapping(SwapLock1)
    case SwapTarget(row) => if Full(sections[target].cols) then Failed(SWAP_TARGET_FULL) else Swapping(SwapDup(row))
    case SwapDup(row) =>
      if !same && DuplicateCourse(cat, others, target) then Failed(DUPLICATE_COURSE) else Swapping(SwapPrereq(row))
    case SwapPrereq(row) =>
      if !same && !PrerequisitesMet(cat, sections, req.student, target) then Failed(PREREQUISITE_NOT_MET)
      else Swapping(SwapMine(row))
    case SwapMine(row) =>
      if ClashesWith(cat, mine, target) then Failed(TIME_CONFLICT)
          else Swapping(SwapOverload(row, CreditSum(cat, mine)))
    case SwapOverload(row, credits) =>
      if OverLimit(cat, req.student, credits, target) then Failed(CREDIT_LIMIT_EXCEEDED) else Swapping(SwapMark(row))
    case _ =>
      var rows := sections[home].rows;
      if req.id !in rows || !rows[req.id].Active() then Failed(ALREADY_DROPPED) else Swapping(SwapTarget(rows[req.id]))
  }

  lemma SwapNextIs(cat: Catalog, sections: map<SectionId, Section>, t: Txn, w: SwapPc, now: nat, hold: bool)
    requires t.req.Swap? && SwapChecking(sections, t, w)
    ensures ExecSwapChecks(cat, sections, t, w, now, hold)
            == Go(t, SwapNext(cat, sections, t.req, t.home, w, now, hold))
  {
    SeesCommitted(cat, sections, t);
    hide Verdict, Gate, HomeOf, ActiveOf, OtherSeats, Seen, ViewAll, Others, OthersInTerm, SameTerm, OverLimit;
    hide DuplicateCourse, PrerequisitesMet, ClashesWith, CreditSum;
  }

  // A checking swap's next statement settles one check more, or the answer.
  lemma SwapNextSettles(cat: Catalog, db: Db, req: Request, home: SectionId, w: SwapPc, now: nat, hold: bool)
    requires req.Swap? && home in db.sections && req.target in db.sections
    requires !w.SwapRead? && !w.SwapLock1? && !w.SwapLock2? && !SwapWriting(w)
    requires !w.SwapGate? && !w.SwapReread? && !w.SwapTarget? ==> !Full(db.sections[req.target].cols)
    requires SwapSettled(cat, db.sections, req, home, w, now, hold)
    ensures SettledPc(cat, db, req, home, SwapNext(cat, db.sections, req, home, w, now, hold), now, hold)
  {
    hide SameCourse, Apply, Gate, ActiveOf, OtherSeats, SameTerm, Full, GivesUp, SwapPast, OverLimit;
    hide DuplicateCourse, PrerequisitesMet, ClashesWith, CreditSum;
    if w.SwapGate? {
      SwapStops(cat, db, req, home, now, hold);
    } else {
      SwapBegan(cat, db.sections, req, home, now, hold, SwapStage(w));
      SwapGoes(cat, db, req, home, now, hold);
    }
  }

  lemma SwapBegan(cat: Catalog, sections: map<SectionId, Section>, req: Request, home: SectionId, now: nat, hold: bool,
                  n: nat)
    requires req.Swap? && SwapPast(cat, sections, req, home, now, hold, n)
    ensures SwapPast(cat, sections, req, home, now, hold, 0)
  {
    hide Gate, HomeOf;
  }

  lemma SwapChecksSettle(cat: Catalog, db: Db, t: Txn, w: SwapPc, now: nat, hold: bool)
    requires t.req.Swap? && SwapChecking(db.sections, t, w)
    requires SwapSettled(cat, db.sections, t.req, t.home, w, now, hold)
    ensures Settled(cat, db, ExecSwapChecks(cat, db.sections, t, w, now, hold), now, hold)
  {
    hide SettledPc, SwapSettled, ExecSwapChecks, SwapNext;
    SwapNextIs(cat, db.sections, t, w, now, hold);
    SwapNextSettles(cat, db, t.req, t.home, w, now, hold);
  }

  // Past its checks a swap into a free seat can only be refused by the index.
  lemma SwapCleared(cat: Catalog, db: Db, req: Request, home: SectionId, w: SwapPc, now: nat, hold: bool)
    requires req.Swap? && SwapWriting(w) && SwapSettled(cat, db.sections, req, home, w, now, hold)
    requires req.target in db.sections && !Full(db.sections[req.target].cols)
    ensures home in db.sections && req.id in db.sections[home].rows
    ensures Apply(cat, db, req, now, hold).1 ==
              if ActiveOf(db.sections[req.target].rows, req.student) != {} then Error(UNIQUE_VIOLATION)
              else SwappedTo(req.newId, db.sections[home].rows[req.id].status.ENROLLED?)
    ensures forall v | SwapWriting(v) :: SwapSettled(cat, db.sections, req, home, v, now, hold)
  {
    hide SameCourse, Apply, Gate, ActiveOf, OtherSeats, SameTerm, Full, GivesUp, SwapPast, OverLimit;
    SwapBegan(cat, db.sections, req, home, now, hold, 4);
    SwapGoes(cat, db, req, home, now, hold);
  }

  // The next statement of a swap that writes: only the insert can be refused.
  ghost function SwapWritten(sections: map<SectionId, Section>, t: Txn, w: SwapPc): Pc
    requires t.req.Swap? && SwapWriting(w) && t.req.target in sections
  {
    match w
    case SwapMark(row) => Swapping(SwapDec(row))
    case SwapDec(row) => Swapping(SwapInsert(row))
    case SwapInsert(row) =>
      if ActiveOf(sections[t.req.target].rows, t.req.student) == {} then Swapping(SwapInc(row))
      else Failed(UNIQUE_VIOLATION)
    case SwapInc(row) => Swapping(SwapAudit(row))
    case SwapAudit(row) => Ready(SwappedTo(t.req.newId, row.status.ENROLLED?))
  }

  lemma SwapWrites(db: Db, t: Txn, w: SwapPc)
    requires t.req.Swap? && t.pc == Swapping(w) && SwapWriting(w) && t.home in db.sections
             && t.req.target in db.sections
    requires t.home != t.req.target && t.req.id in db.sections[t.home].rows
    requires GoodSwap(db.sections[t.home], db.sections[t.req.target], t.home, t.req, w, t.writes)
    requires ExecSwapWrites(db.sections, t, w).pc != Failed(CHECK_VIOLATION)
    ensures var t' := ExecSwapWrites(db.sections, t, w);
            t'.pc == SwapWritten(db.sections, t, w) && t'.req == t.req && t'.home == t.home
    ensures w.row == db.sections[t.home].rows[t.req.id] && !Full(db.sections[t.req.target].cols)
    ensures w.SwapAudit? ==> ActiveOf(db.sections[t.req.target].rows, t.req.student) == {}
  {
    NoWrites(db.sections[t.home], t.home);
    hide ActiveOf, CheckHolds, EventsOf, NotesOf, View;
  }

  lemma SwapWritesSettle(cat: Catalog, db: Db, t: Txn, w: SwapPc, t': Txn, now: nat, hold: bool)
    requires t.req.Swap? && t.pc == Swapping(w) && SwapWriting(w) && t.home in db.sections
             && t.req.target in db.sections
    requires t.req.id in db.sections[t.home].rows && SwapSettled(cat, db.sections, t.req, t.home, w, now, hold)
    requires t'.pc == SwapWritten(db.sections, t, w) && t'.req == t.req && t'.home == t.home
    requires w.row == db.sections[t.home].rows[t.req.id] && !Full(db.sections[t.req.target].cols)
    requires w.SwapAudit? ==> ActiveOf(db.sections[t.req.target].rows, t.req.student) == {}
    ensures Settled(cat, db, t', now, hold)
  {
    hide Apply, SwapSettled, ActiveOf, Full, EnrollSettled, HomeOf;
    SwapCleared(cat, db, t.req, t.home, w, now, hold);
  }

  lemma SwapChecksAt(cat: Catalog, db: Db, t: Txn, w: SwapPc, now: nat, hold: bool)
    requires t.req.Swap? && t.pc == Swapping(w) && Stepping(t) && GoodTxn(db.sections, t)
    requires Settled(cat, db, t, now, hold) && !w.SwapRead? && !SwapWriting(w)
    ensures t.home in db.sections && SwapSettled(cat, db.sections, t.req, t.home, w, now, hold)
    ensures GivesUp(db.sections, t.req, t.home)
    ensures t.req.target in db.sections ==> SwapChecking(db.sections, t, w)
  {
    hide ActiveOf, View, HomeOf, Wrote, WritesIn;
  }

  lemma SwapSettles(cat: Catalog, db: Db, t: Txn, w: SwapPc, now: nat, hold: bool)
    requires t.req.Swap? && t.pc == Swapping(w) && Stepping(t) && GoodTxn(db.sections, t)
    requires Settled(cat, db, t, now, hold) && GoodTxn(db.sections, ExecSwap(cat, db.sections, t, w, now, hold))
    ensures Settled(cat, db, ExecSwap(cat, db.sections, t, w, now, hold), now, hold)
  {
    hide SwapSettled, ExecSwapChecks, ExecSwapWrites, ExecSwapRead, WritesIn;
    if w.SwapRead? {
      hide GoodTxn;
      SwapReadSettles(cat, db, t, now, hold);
    } else if SwapWriting(w) {
      SwapWrites(db, t, w);
      hide GoodTxn, Settled, SwapWritten;
      SwapWritesSettle(cat, db, t, w, ExecSwapWrites(db.sections, t, w), now, hold);
    } else {
      SwapChecksAt(cat, db, t, w, now, hold);
      SwapStops(cat, db, t.req, t.home, now, hold);
      hide GoodTxn, Apply, GivesUp;
      if t.req.target in db.sections {
        hide Settled;
        SwapChecksSettle(cat, db, t, w, now, hold);
      }
    }
  }

  // --------------------------------------------------------------- the others

  // A statement of these operations that goes on, or ends with the effect's answer.
  ghost predicate GoesOn(sections: map<SectionId, Section>, t: Txn, t': Txn, fx: Effect) {
    && t'.req == t.req && t'.home == t.home
    && match t'.pc
       case Ready(out) => out == fx.out && !out.Error?
       case Failed(code) => fx.out == Error(code)
       case Dropping(d) => t.req.Drop? && !d.DropRead?
       case Promoting(p) => t.req.Promote? && !p.PromoteLock?
       case Reordering(r) => t.req.Reorder?
       case Expiring(x) => t.req.Expire?
       case Editing(u) => t.req.Edit?
       case _ => false
  }

  // The effect of a request under its one lock.
  ghost function EffectOf(db: Db, t: Txn): Effect
    requires t.home in db.sections && (t.req.Drop? ==> t.req.id in db.sections[t.home].rows)
    requires t.req.Drop? || t.req.Promote? || t.req.Reorder? || t.req.Expire? || t.req.Edit?
  {
    var sec := db.sections[t.home];
    match t.req
    case Drop(id) => DropFx(sec, t.home, id)
    case Promote(_) => PromoteFx(sec, t.home)
    case Reorder(_, order) => ReorderFx(sec, t.home, order)
    case Expire(_) => ExpireFx(sec, t.home)
    case Edit(_, capacity, waitlistCap) => EditFx(sec, t.home, capacity, waitlistCap)
  }

  // Past its lock (and promotion past its gate) the effect's answer is the operation's.
  ghost predicate Due(t: Txn) {
    match t.pc
    case Dropping(d) => t.req.Drop? && !d.DropRead? && !d.DropLock?
    case Promoting(p) => t.req.Promote? && !p.PromoteLock? && !p.PromoteGate?
    case Reordering(_) => t.req.Reorder?
    case Expiring(_) => t.req.Expire?
    case Editing(_) => t.req.Edit?
    case _ => false
  }

  lemma EffectApplied(cat: Catalog, db: Db, t: Txn, now: nat, hold: bool)
    requires Due(t) && UnderLock(db.sections, t) && Settled(cat, db, t, now, hold)
    ensures Apply(cat, db, t.req, now, hold).1 == EffectOf(db, t).out
  {
    hide EnrollOp, SwapOp, HomeOf, DropFx, PromoteFx, ReorderFx, ExpireFx, EditFx, GoodDropPc, GoodPromotePc;
    hide GoodReorderPc, GoodExpirePc, GoodEditPc, GoodEnrollPc;
  }

  lemma GoneOn(cat: Catalog, db: Db, t: Txn, t': Txn, now: nat, hold: bool)
    requires Due(t) && UnderLock(db.sections, t) && Settled(cat, db, t, now, hold)
    requires GoesOn(db.sections, t, t', EffectOf(db, t))
    ensures Settled(cat, db, t', now, hold)
  {
    EffectApplied(cat, db, t, now, hold);
    hide Apply, HomeOf, EffectOf, UnderLock;
  }

  lemma BothLocked(sections: map<SectionId, Section>, t: Txn, t': Txn)
    requires GoodTxn(sections, t) && GoodTxn(sections, t') && Due(t) && t'.req == t.req
    requires t'.held == t.held && t.held != {}
    ensures UnderLock(sections, t) && UnderLock(sections, t')
  {
  }

  lemma DropGoesOn(sections: map<SectionId, Section>, t: Txn, d: DropPc)
    requires t.req.Drop? && t.pc == Dropping(d) && !d.DropRead? && !d.DropLock? && UnderLock(sections, t)
    requires UnderLock(sections, ExecDrop(sections, t, d))
    ensures GoesOn(sections, t, ExecDrop(sections, t, d), DropFx(sections[t.home], t.home, t.req.id))
  {
    assert View(sections[t.home], t.home, []) == sections[t.home];
    hide View, Wrote, HomeOf;
  }

  lemma DropSettles(cat: Catalog, db: Db, t: Txn, d: DropPc, now: nat, hold: bool)
    requires t.req.Drop? && t.pc == Dropping(d) && Stepping(t) && GoodTxn(db.sections, t)
    requires Settled(cat, db, t, now, hold) && GoodTxn(db.sections, ExecDrop(db.sections, t, d))
    ensures Settled(cat, db, ExecDrop(db.sections, t, d), now, hold)
  {
    if !d.DropRead? {
      BothLocked(db.sections, t, ExecDrop(db.sections, t, d));
      DropGoesOn(db.sections, t, d);
      hide GoodTxn, Settled, ExecDrop, UnderLock, GoesOn;
      GoneOn(cat, db, t, ExecDrop(db.sections, t, d), now, hold);
    } else {
      hide EnrollOp, SwapOp, PromoteOp, ReorderOp, ExpireOp, EditOp, GoodTxn, HomeOf, DropFx;
    }
  }

  lemma PromoteGoesOn(cat: Catalog, sections: map<SectionId, Section>, t: Txn, p: PromotePc, now: nat)
    requires t.req.Promote? && t.pc == Promoting(p) && !p.PromoteLock? && !p.PromoteGate? && UnderLock(sections, t)
    requires UnderLock(sections, ExecPromote(cat, sections, t, p, now))
    ensures GoesOn(sections, t, ExecPromote(cat, sections, t, p, now), PromoteFx(sections[t.home], t.home))
  {
    PromoteFacts(sections[t.home], t.home, p, t.writes);
    hide GoodPromote, View, Waiting, First, PromoteFx, Wrote, CheckHolds;
  }

  lemma PromoteSettles(cat: Catalog, db: Db, t: Txn, p: PromotePc, now: nat, hold: bool)
    requires t.req.Promote? && t.pc == Promoting(p) && Stepping(t) && GoodTxn(db.sections, t)
    requires Settled(cat, db, t, now, hold) && GoodTxn(db.sections, ExecPromote(cat, db.sections, t, p, now))
    ensures Settled(cat, db, ExecPromote(cat, db.sections, t, p, now), now, hold)
  {
    if !p.PromoteGate? {
      BothLocked(db.sections, t, ExecPromote(cat, db.sections, t, p, now));
      PromoteGoesOn(cat, db.sections, t, p, now);
      hide GoodTxn, Settled, ExecPromote, UnderLock, GoesOn;
      GoneOn(cat, db, t, ExecPromote(cat, db.sections, t, p, now), now, hold);
    } else {
      hide EnrollOp, SwapOp, DropOp, ReorderOp, ExpireOp, EditOp, GoodTxn, HomeOf, PromoteFx;
    }
  }

  lemma ReorderReadIs(sec: Section, s: SectionId, order: seq<RowId>)
    ensures View(sec, s, []) == sec && (set id <- Ordered(sec.rows)) == Waiting(sec.rows)
    ensures forall ids: seq<RowId> :: Renumbered(sec.rows, ids).Keys == sec.rows.Keys
    ensures (set id <- order) == Waiting(sec.rows) ==> forall k | 0 <= k < |order| :: order[k] in sec.rows
  {
    OrderOfSorted(sec.rows, Waiting(sec.rows));
    assert forall id :: id in Ordered(sec.rows) <==> id in Elems(Ordered(sec.rows));
    assert forall k | 0 <= k < |order| :: order[k] in (set id <- order);
  }

  lemma ReorderGoesOn(sections: map<SectionId, Section>, t: Txn, r: ReorderPc)
    requires t.req.Reorder? && t.pc == Reordering(r) && !r.ReorderLock? && UnderLock(sections, t)
    requires UnderLock(sections, ExecReorder(sections, t, r))
    ensures GoesOn(sections, t, ExecReorder(sections, t, r), ReorderFx(sections[t.home], t.home, t.req.order))
  {
    hide View, Ordered, EventsOf, NotesOf, Waiting, Distinct, Elems, Renumbered;
    ReorderReadIs(sections[t.home], t.home, t.req.order);
  }

  lemma ReorderSettles(cat: Catalog, db: Db, t: Txn, r: ReorderPc, now: nat, hold: bool)
    requires t.req.Reorder? && t.pc == Reordering(r) && Stepping(t) && GoodTxn(db.sections, t)
    requires Settled(cat, db, t, now, hold) && GoodTxn(db.sections, ExecReorder(db.sections, t, r))
    ensures Settled(cat, db, ExecReorder(db.sections, t, r), now, hold)
  {
    BothLocked(db.sections, t, ExecReorder(db.sections, t, r));
    ReorderGoesOn(db.sections, t, r);
    hide GoodTxn, Settled, ExecReorder, UnderLock, GoesOn;
    GoneOn(cat, db, t, ExecReorder(db.sections, t, r), now, hold);
  }

  lemma ExpireGoesOn(sections: map<SectionId, Section>, t: Txn, x: ExpirePc)
    requires t.req.Expire? && t.pc == Expiring(x) && !x.ExpireLock? && UnderLock(sections, t)
    requires UnderLock(sections, ExecExpire(sections, t, x))
    ensures GoesOn(sections, t, ExecExpire(sections, t, x), ExpireFx(sections[t.home], t.home))
  {
    ExpireFacts(sections[t.home], t.home, x, t.writes);
    hide GoodExpire, View, ExpireFx, Waiters, Wrote;
  }

  lemma ExpireSettles(cat: Catalog, db: Db, t: Txn, x: ExpirePc, now: nat, hold: bool)
    requires t.req.Expire? && t.pc == Expiring(x) && Stepping(t) && GoodTxn(db.sections, t)
    requires Settled(cat, db, t, now, hold) && GoodTxn(db.sections, ExecExpire(db.sections, t, x))
    ensures Settled(cat, db, ExecExpire(db.sections, t, x), now, hold)
  {
    BothLocked(db.sections, t, ExecExpire(db.sections, t, x));
    ExpireGoesOn(db.sections, t, x);
    hide GoodTxn, Settled, ExecExpire, UnderLock, GoesOn;
    GoneOn(cat, db, t, ExecExpire(db.sections, t, x), now, hold);
  }

  lemma EditGoesOn(sections: map<SectionId, Section>, t: Txn, u: EditPc)
    requires t.req.Edit? && t.pc == Editing(u) && !u.EditLock? && UnderLock(sections, t)
    requires UnderLock(sections, ExecEdit(sections, t, u))
    ensures GoesOn(sections, t, ExecEdit(sections, t, u),
                   EditFx(sections[t.home], t.home, t.req.capacity, t.req.waitlistCap))
  {
    hide View, Wrote;
  }

  lemma EditSettles(cat: Catalog, db: Db, t: Txn, u: EditPc, now: nat, hold: bool)
    requires t.req.Edit? && t.pc == Editing(u) && Stepping(t) && GoodTxn(db.sections, t)
    requires Settled(cat, db, t, now, hold) && GoodTxn(db.sections, ExecEdit(db.sections, t, u))
    ensures Settled(cat, db, ExecEdit(db.sections, t, u), now, hold)
  {
    BothLocked(db.sections, t, ExecEdit(db.sections, t, u));
    EditGoesOn(db.sections, t, u);
    hide GoodTxn, Settled, ExecEdit, UnderLock, GoesOn;
    GoneOn(cat, db, t, ExecEdit(db.sections, t, u), now, hold);
  }

  // Every statement made at `now` settles what the operation at `now` would.
  lemma StatementSettles(cat: Catalog, db: Db, t: Txn, now: nat, hold: bool)
    requires DbInvariant(db) && GoodTxn(db.sections, t) && Stepping(t) && (t.req.Reorder? ==> Distinct(t.req.order))
    requires Settled(cat, db, t, now, hold)
    ensures Settled(cat, db, Exec(cat, db.sections, t, now, hold), now, hold)
  {
    StatementGood(cat, db, t, now, hold);
    hide GoodTxn, EnrollSettled, SwapSettled, Apply, HomeOf, DbInvariant, Distinct;
    hide ExecEnroll, ExecDrop, ExecSwap, ExecPromote, ExecReorder, ExecExpire, ExecEdit;
    match t.pc
    case Enrolling(e) => EnrollSettles(cat, db, t, e, now, hold);
    case Dropping(d) => DropSettles(cat, db, t, d, now, hold);
    case Swapping(w) => SwapSettles(cat, db, t, w, now, hold);
    case Promoting(p) => PromoteSettles(cat, db, t, p, now, hold);
    case Reordering(r) => ReorderSettles(cat, db, t, r, now, hold);
    case Expiring(x) => ExpireSettles(cat, db, t, x, now, hold);
    case Editing(u) => EditSettles(cat, db, t, u, now, hold);
  }

  // So does taking a lock, or finding no section to lock.
  lemma LockSettles(cat: Catalog, db: Db, t: Txn, s: SectionId, now: nat, hold: bool)
    requires GoodTxn(db.sections, t) && Wants(t) == Some(s) && Settled(cat, db, t, now, hold) && s in db.sections
    ensures Settled(cat, db, Locked(t, s, db.sections[s].cols), now, hold)
  {
    hide Summed, EnrollPast, GivesUp, Apply, HomeOf, GoodTxn, Gate, ChainPassed;
  }

  lemma MissingSettles(cat: Catalog, db: Db, t: Txn, s: SectionId, now: nat, hold: bool)
    requires GoodTxn(db.sections, t) && Wants(t) == Some(s) && Settled(cat, db, t, now, hold) && s !in db.sections
    ensures Settled(cat, db, Missing(t), now, hold)
  {
    hide Summed, ChainPassed, Gate, EnrollOp, SwapOp, DropOp, HomeOf, WritesIn;
  }

  lemma StartSettles(cat: Catalog, db: Db, req: Request, now: nat, hold: bool)
    ensures Settled(cat, db, Start(req), now, hold)
  {
    hide EnrollOp, SwapOp, DropOp, PromoteOp, ReorderOp, ExpireOp, Gate;
  }

  // ----------------------------------------------------------------- the run

  // Every lock there is is t's own.
  ghost predicate NobodyElse(st: State, t: TxnId) { forall s <- st.locks :: st.locks[s] == t }

  // The transaction's own next step, at `now`.
  function OwnAction(t: TxnId, txn: Txn, now: nat, hold: bool): Action {
    if Wants(txn).Some? then Acquire(t)
    else if txn.pc.Ready? then Commit(t)
    else if txn.pc.Failed? then Rollback(t)
    else Statement(t, now, hold)
  }

  lemma HeldByOwner(st: State, s: SectionId)
    requires Inv(st) && s in st.locks
    ensures st.locks[s] in st.txns && s in st.txns[st.locks[s]].held
  {
    hide GoodTxn, DbInvariant, IdsKnown;
  }

  lemma NotBlocked(st: State, t: TxnId, now: nat, hold: bool)
    requires Inv(st) && NobodyElse(st, t) && t in st.txns && st.txns[t].Unfinished()
    ensures OwnStep(st, OwnAction(t, st.txns[t], now, hold))
  {
    hide Inv, GoodTxn, Wants;
    TxnGood(st, t);
    var txn := st.txns[t];
    if Wants(txn).Some? && Wants(txn).value in st.locks {
      HeldByOwner(st, Wants(txn).value);
      WantsGreater(st.db.sections, txn, Wants(txn).value);
    }
  }

  // The transaction has the operation's answer, and the database what the
  // operation leaves.
  ghost predicate Answered(cat: Catalog, db: Db, req: Request, now: nat, hold: bool, st: State, t: TxnId) {
    var (db', out) := Apply(cat, db, req, now, hold);
    && t in st.txns && st.db == db'
    && st.txns[t].pc == if out.Error? then Aborted(out.code) else Committed(out)
  }

  lemma AtomicOnce(db: Db, req: Request, out: Outcome, a: Db, b: Db)
    requires Atomic(db, req, out, a) && Atomic(db, req, out, b)
    ensures a == b
  {
    hide EnrollFx, DropFx, PromoteFx, ReorderFx, ExpireFx, EditFx, SwapDb, HomeOf, ActiveOf;
  }

  lemma EndsAnswered(cat: Catalog, st: State, t: TxnId, now: nat, hold: bool)
    requires Inv(st) && t in st.txns && Settled(cat, st.db, st.txns[t], now, hold)
    requires st.txns[t].pc.Ready? || st.txns[t].pc.Failed?
    ensures var a := OwnAction(t, st.txns[t], now, hold);
            Enabled(st, a) && Answered(cat, st.db, st.txns[t].req, now, hold, Next(cat, st, a), t)
  {
    hide Apply, Atomic, CommitDb, Unlock, Inv;
    var txn := st.txns[t];
    ApplyIsAtomic(cat, st.db, txn.req, now, hold);
    if txn.pc.Ready? { CommittedIs(cat, st, t, now, hold); }
  }

  lemma CommittedIs(cat: Catalog, st: State, t: TxnId, now: nat, hold: bool)
    requires Inv(st) && t in st.txns && st.txns[t].pc.Ready? && !st.txns[t].pc.out.Error?
    requires Apply(cat, st.db, st.txns[t].req, now, hold).1 == st.txns[t].pc.out
    ensures CommitDb(st.db, st.txns[t].writes) == Apply(cat, st.db, st.txns[t].req, now, hold).0
  {
    hide Apply, Atomic, CommitDb, Inv;
    var txn := st.txns[t];
    ApplyIsAtomic(cat, st.db, txn.req, now, hold);
    CommitEffect(st, t, txn);
    AtomicOnce(st.db, txn.req, txn.pc.out, CommitDb(st.db, txn.writes), Apply(cat, st.db, txn.req, now, hold).0);
  }

  // The transaction after its next step.
  function Stepped(cat: Catalog, sections: map<SectionId, Section>, txn: Txn, now: nat, hold: bool): Txn {
    if Wants(txn).None? then Exec(cat, sections, txn, now, hold)
    else var s := Wants(txn).value; if s in sections then Locked(txn, s, sections[s].cols) else Missing(txn)
  }

  lemma SteppedSettles(cat: Catalog, st: State, t: TxnId, now: nat, hold: bool)
    requires Inv(st) && t in st.txns && Settled(cat, st.db, st.txns[t], now, hold)
    requires !st.txns[t].pc.Ready? && !st.txns[t].pc.Failed?
    ensures var txn := Stepped(cat, st.db.sections, st.txns[t], now, hold);
            txn.req == st.txns[t].req && Settled(cat, st.db, txn, now, hold)
  {
    hide Inv, GoodTxn, Settled, Exec, Wants, DbInvariant, Distinct, AfterLock;
    var txn := st.txns[t];
    SettledUnfinished(cat, st.db, txn, now, hold);
    TxnGood(st, t);
    ReorderDistinct(st, t);
    if Wants(txn).Some? {
      var s := Wants(txn).value;
      if s in st.db.sections { LockSettles(cat, st.db, txn, s, now, hold); }
      else { MissingSettles(cat, st.db, txn, s, now, hold); }
    } else {
      StatementGood(cat, st.db, txn, now, hold);
      StatementSettles(cat, st.db, txn, now, hold);
    }
  }

  lemma OwnStepIs(cat: Catalog, st: State, t: TxnId, now: nat, hold: bool)
    requires NobodyElse(st, t) && t in st.txns && !st.txns[t].pc.Ready? && !st.txns[t].pc.Failed?
    requires Enabled(st, OwnAction(t, st.txns[t], now, hold))
    ensures var st' := Next(cat, st, OwnAction(t, st.txns[t], now, hold));
            && NobodyElse(st', t) && t in st'.txns && st'.db == st.db
            && st'.txns[t] == Stepped(cat, st.db.sections, st.txns[t], now, hold)
  {
    hide Exec, Wants, Locked, Missing;
  }

  // One step of its own: as settled as before.
  lemma OwnStepSettles(cat: Catalog, st: State, t: TxnId, now: nat, hold: bool)
    requires Inv(st) && NobodyElse(st, t) && t in st.txns && Settled(cat, st.db, st.txns[t], now, hold)
    requires !st.txns[t].pc.Ready? && !st.txns[t].pc.Failed?
    ensures var a := OwnAction(t, st.txns[t], now, hold);
            && OwnStep(st, a)
            && var st' := Next(cat, st, a);
               && Inv(st') && NobodyElse(st', t) && t in st'.txns && st'.db == st.db
               && st'.txns[t].req == st.txns[t].req
               && Settled(cat, st.db, st'.txns[t], now, hold)
  {
    hide Inv, NobodyElse, Settled, OwnAction, Stepped, Enabled, Next;
    SettledUnfinished(cat, st.db, st.txns[t], now, hold);
    NotBlocked(st, t, now, hold);
    StepKeeps(cat, st, OwnAction(t, st.txns[t], now, hold));
    SteppedSettles(cat, st, t, now, hold);
    OwnStepIs(cat, st, t, now, hold);
  }

  lemma SettledUnfinished(cat: Catalog, db: Db, t: Txn, now: nat, hold: bool)
    requires Settled(cat, db, t, now, hold)
    ensures t.Unfinished()
  {
  }

  lemma ReorderDistinct(st: State, t: TxnId)
    requires Inv(st) && t in st.txns
    ensures DbInvariant(st.db) && (st.txns[t].req.Reorder? ==> Distinct(st.txns[t].req.order))
  {
    hide GoodTxn, DbInvariant, LocksAgree, IdsKnown;
  }

  // All the actions are t's, its statements made at `now`.
  ghost predicate OnlyOwn(actions: seq<Action>, t: TxnId, now: nat, hold: bool) {
    forall a <- actions :: a.t == t && (a.Statement? ==> a.now == now && a.hold == hold)
  }

  lemma {:induction false} RunsOn(cat: Catalog, st: State, t: TxnId, now: nat, hold: bool)
    returns (actions: seq<Action>, st': State)
    requires Inv(st) && NobodyElse(st, t) && t in st.txns && Settled(cat, st.db, st.txns[t], now, hold)
    ensures Run(cat, st, actions, st') && OnlyOwn(actions, t, now, hold)
    ensures Answered(cat, st.db, st.txns[t].req, now, hold, st', t)
    decreases Sum(AllAhead(st)), Sum(AllLeft(st))
  {
    hide Inv, NobodyElse, Settled, Enabled, Next, AllAhead, AllLeft, Answered, Wants;
    var a, next := OwnAction(t, st.txns[t], now, hold), st;
    if st.txns[t].pc.Ready? || st.txns[t].pc.Failed? {
      EndsAnswered(cat, st, t, now, hold);
      st' := Next(cat, st, a);
      actions := [a];
      assert Run(cat, st', [], st') && actions[1..] == [];
    } else {
      OwnStepSettles(cat, st, t, now, hold);
      EveryStepDecreases(cat, st, a);
      var rest;
      rest, st' := RunsOn(cat, Next(cat, st, a), t, now, hold);
      actions := [a] + rest;
      assert actions[1..] == rest;
    }
  }

  lemma FreshRequest(st: State, t: TxnId, req: Request)
    requires Inv(st) && CanBegin(st, t, req)
    ensures DbInvariant(st.db) && WellFormed(st.db, req)
  {
    hide GoodTxn, DbInvariant, LocksAgree;
    if req.Enroll? || req.Swap? { assert req.newId in NewIds(req); }
  }

  lemma StartReq(req: Request)
    ensures Start(req).req == req
  {
  }

  lemma RunsAlone(cat: Catalog, st: State, t: TxnId, req: Request, now: nat, hold: bool)
    returns (actions: seq<Action>, st': State)
    requires Inv(st) && CanBegin(st, t, req) && st.locks == map[]
    ensures Run(cat, st, actions, st') && OnlyOwn(actions, t, now, hold)
    ensures Answered(cat, st.db, req, now, hold, st', t)
  {
    hide Inv, Settled, Answered, CanBegin, NewIds;
    var begun := Next(cat, st, Begin(t, req));
    StepKeeps(cat, st, Begin(t, req));
    StartSettles(cat, st.db, req, now, hold);
    StartReq(req);
    hide Start;
    var rest;
    rest, st' := RunsOn(cat, begun, t, now, hold);
    actions := [Begin(t, req)] + rest;
    assert actions[1..] == rest;
  }

  lemma AnsweredIs(cat: Catalog, db: Db, req: Request, now: nat, hold: bool, st: State, t: TxnId)
    requires Answered(cat, db, req, now, hold, st, t)
    requires var (db', out) := Apply(cat, db, req, now, hold);
             && (forall code :: out == Error(code) <==> Refused(cat, db.sections, req, now, hold, code))
             && Leaves(cat, db, req, now, out, db') && (if out.Error? then db' == db else Atomic(db, req, out, db'))
    ensures t in st.txns
    ensures forall code :: st.txns[t].pc == Aborted(code) <==> Refused(cat, db.sections, req, now, hold, code)
    ensures st.txns[t].pc.Committed? ==> Leaves(cat, db, req, now, st.txns[t].pc.out, st.db)
    ensures st.txns[t].pc.Aborted? ==> st.db == db
  {
    hide Apply, Refused, Leaves, Atomic;
  }

  // Any request, in any reachable state in which nobody holds a lock: run alone,
  // its transaction ends with the answer of the one-step operation and leaves
  // what that leaves; told of the rows, with the errors and the effects of Answers.
  lemma AloneIsOperation(cat: Catalog, st: State, t: TxnId, req: Request, now: nat, hold: bool)
    returns (actions: seq<Action>, st': State)
    requires Inv(st) && CanBegin(st, t, req) && st.locks == map[]
    ensures Run(cat, st, actions, st') && OnlyOwn(actions, t, now, hold)
    ensures Answered(cat, st.db, req, now, hold, st', t)
    ensures forall code :: st'.txns[t].pc == Aborted(code) <==> Refused(cat, st.db.sections, req, now, hold, code)
    ensures st'.txns[t].pc.Committed? ==> Leaves(cat, st.db, req, now, st'.txns[t].pc.out, st'.db)
    ensures st'.txns[t].pc.Aborted? ==> st'.db == st.db
  {
    hide *;
    FreshRequest(st, t, req);
    AnswersExact(cat, st.db, req, now, hold);
    ApplyIsAtomic(cat, st.db, req, now, hold);
    actions, st' := RunsAlone(cat, st, t, req, now, hold);
    AnsweredIs(cat, st.db, req, now, hold, st', t);
  }

  lemma SwapCommitted(cat: Catalog, db: Db, req: Request, home: SectionId, now: nat, hold: bool, st: State, t: TxnId)
    requires DbInvariant(db) && req.Swap? && HoldsRow(db.sections, req.student, home, req.id)
    requires Answered(cat, db, req, now, hold, st, t)
    requires st.txns[t].pc.Committed? ==> Leaves(cat, db, req, now, st.txns[t].pc.out, st.db)
    requires SwapOp(cat, db, req, now, hold).1
             == SwappedTo(req.newId, db.sections[home].rows[req.id].status == ENROLLED)
    ensures t in st.txns && req.target in db.sections
    ensures st.txns[t].pc == Committed(SwappedTo(req.newId, db.sections[home].rows[req.id].status == ENROLLED))
    ensures Exchanged(db, req, home, db.sections[home].rows[req.id].status == ENROLLED, st.db)
  {
    OnlyHome(db, req.id, home);
    hide DbInvariant, SwapOp, HoldsPlace, Exchanged;
  }

  // A swap of one's own active row into another section's free seat, with gate
  // and chain clear and no place held there, run alone, commits.
  lemma SwapAloneCommits(cat: Catalog, st: State, t: TxnId, req: Request, home: SectionId, now: nat, hold: bool)
    returns (actions: seq<Action>, st': State)
    requires Inv(st) && CanBegin(st, t, req) && st.locks == map[]
    requires req.Swap? && HoldsRow(st.db.sections, req.student, home, req.id) && home != req.target
    requires req.target in st.db.sections && GateClear(cat, req.student, req.target, now, hold)
    requires st.db.sections[req.target].cols.enrolledCount < st.db.sections[req.target].cols.capacity
    requires ChainClear(cat, st.db.sections, req, cat.course(home) == cat.course(req.target))
             && !HoldsPlace(st.db.sections, req.student, req.target)
    ensures Run(cat, st, actions, st') && OnlyOwn(actions, t, now, hold) && t in st'.txns
    ensures st'.txns[t].pc == Committed(SwappedTo(req.newId, st.db.sections[home].rows[req.id].status == ENROLLED))
    ensures Exchanged(st.db, req, home, st.db.sections[home].rows[req.id].status == ENROLLED, st'.db)
  {
    hide *;
    FreshRequest(st, t, req);
    SwapGoesThrough(cat, st.db, req, home, now, hold);
    actions, st' := AloneIsOperation(cat, st, t, req, now, hold);
    SwapCommitted(cat, st.db, req, home, now, hold, st', t);
  }
}
