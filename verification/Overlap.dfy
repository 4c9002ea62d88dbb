// Why one student's own requests must not overlap: locks are per section, so
// two enrolls of one student into two sections are each checked against a
// database without the other's row, and both commit.
module Overlap {
  import opened Registry
  import opened Waitlist
  import opened Operations
  import opened Seats
  import opened Machine
  import opened Serializability
  import opened Runs
  import opened Eligibility
  import TimeConflict

  // An enroll of x into s, run alone, would be given a seat.
  ghost predicate Seatable(cat: Catalog, sections: map<SectionId, Section>, x: StudentId, s: SectionId, now: nat) {
    && s in sections && 0 <= sections[s].cols.enrolledCount < sections[s].cols.capacity
    && ActiveOf(sections[s].rows, x) == {} && Gate(cat, x, s, now, false) == None
    && Verdict(cat, sections, x, s, ActiveSeats(sections, x), false) == None
  }

  // The credits the chain adds up for it.
  function CreditsSeen(cat: Catalog, sections: map<SectionId, Section>, x: StudentId, s: SectionId): nat {
    CreditSum(cat, SameTerm(cat, ActiveSeats(sections, x), cat.term(s)))
  }

  // The enroll after k of its steps, the second being the lock.
  function Walk(req: Request, live: Columns, credits: nat, k: nat): Txn
    requires req.Enroll?
  {
    var s, id, full := req.section, req.newId, live.(enrolledCount := live.enrolledCount + 1);
    var row, cols := PutRow(s, id, Row(req.student, ENROLLED, None)), PutCols(s, full);
    match k
    case 0 => Start(req)
    case 1 => Txn(req, s, Enrolling(EnrollLock), {}, [])
    case 2 => Txn(req, s, Enrolling(EnrollActive(live)), {s}, [])
    case 3 => Txn(req, s, Enrolling(EnrollDup(live)), {s}, [])
    case 4 => Txn(req, s, Enrolling(EnrollPrereq(live)), {s}, [])
    case 5 => Txn(req, s, Enrolling(EnrollMine(live)), {s}, [])
    case 6 => Txn(req, s, Enrolling(EnrollOverload(live, credits)), {s}, [])
    case 7 => Txn(req, s, Enrolling(EnrollInsert(live)), {s}, [])
    case 8 => Txn(req, s, Enrolling(EnrollBump), {s}, [row])
    case 9 => Txn(req, s, Enrolling(EnrollAudit(full)), {s}, [row, cols])
    case _ => Txn(req, s, Ready(EnrolledAs(id, full.enrolledCount)), {s},
                  [row, cols, Emit(Created(id, req.student, s))])
  }

  // ---------------------------------------------------------- its statements

  lemma GateStep(cat: Catalog, sections: map<SectionId, Section>, req: Request, live: Columns, credits: nat, now: nat)
    requires req.Enroll? && Seatable(cat, sections, req.student, req.section, now)
    ensures Exec(cat, sections, Walk(req, live, credits, 0), now, false) == Walk(req, live, credits, 1)
  {
    hide Gate, Verdict, ActiveSeats;
  }

  // Nothing of its own is written yet, and nobody else's row has committed.
  lemma SeesAll(sections: map<SectionId, Section>, t: Txn, s: SectionId)
    requires t.req.Enroll? && t.req.section == s && t.writes == [] && s in sections
             && ActiveOf(sections[s].rows, t.req.student) == {}
    ensures ViewAll(sections, t.writes) == sections && Seen(sections, t, s) == sections[s]
    ensures Others(sections, t) == ActiveSeats(sections, t.req.student)
    ensures HolderRow(sections[s].rows, t.req.student).None?
  {
    NothingWritten(sections);
    forall p <- ActiveSeats(sections, t.req.student)
      ensures p.0 != s
    {
      assert p.1 in ActiveOf(sections[p.0].rows, t.req.student);
    }
  }

  lemma CheckStep(cat: Catalog, sections: map<SectionId, Section>, req: Request, now: nat, k: nat)
    requires req.Enroll? && Seatable(cat, sections, req.student, req.section, now) && 2 <= k <= 6
    ensures var live, credits := sections[req.section].cols, CreditsSeen(cat, sections, req.student, req.section);
            Exec(cat, sections, Walk(req, live, credits, k), now, false) == Walk(req, live, credits, k + 1)
  {
    hide ViewAll, View, Others, ActiveSeats, HolderRow, ActiveOf, Gate, DuplicateCourse, PrerequisitesMet, ClashesWith;
    hide CreditSum;
    var live, credits := sections[req.section].cols, CreditsSeen(cat, sections, req.student, req.section);
    var t := Walk(req, live, credits, k);
    SeesAll(sections, t, req.section);
    assert Exec(cat, sections, t, now, false) == ExecEnrollChecks(cat, sections, t, t.pc.e, now, false) by {
      hide ExecEnrollChecks, Verdict;
    }
    hide Exec;
  }

  lemma WriteStep(cat: Catalog, sections: map<SectionId, Section>, req: Request, now: nat, k: nat)
    requires req.Enroll? && Seatable(cat, sections, req.student, req.section, now) && 7 <= k <= 9
    ensures var live, credits := sections[req.section].cols, CreditsSeen(cat, sections, req.student, req.section);
            Exec(cat, sections, Walk(req, live, credits, k), now, false) == Walk(req, live, credits, k + 1)
  {
    hide Gate, Verdict, ActiveSeats, ViewAll, Others, NextPosition, Rank, Registry.Waiting;
    var s, live, credits :=
        req.section, sections[req.section].cols, CreditsSeen(cat, sections, req.student, req.section);
    var t := Walk(req, live, credits, k);
    assert Exec(cat, sections, t, now, false) == ExecEnrollWrites(sections, t, t.pc.e) by { hide ExecEnrollWrites; }
    hide Exec;
    if k == 7 {
      assert [] + [PutRow(s, req.newId, Row(req.student, ENROLLED, None))]
             == [PutRow(s, req.newId, Row(req.student, ENROLLED, None))];
    } else if k == 8 {
      assert t.writes[..|t.writes| - 1] == [];
      assert View(sections[s], s, []) == sections[s];
    }
  }

  lemma WalkStep(cat: Catalog, sections: map<SectionId, Section>, req: Request, now: nat, k: nat)
    requires req.Enroll? && Seatable(cat, sections, req.student, req.section, now) && k < 10 && k != 1
    ensures var live, credits := sections[req.section].cols, CreditsSeen(cat, sections, req.student, req.section);
            && Stepping(Walk(req, live, credits, k))
            && Exec(cat, sections, Walk(req, live, credits, k), now, false) == Walk(req, live, credits, k + 1)
  {
    hide Exec, Gate, Verdict, ActiveSeats, ActiveOf, CreditsSeen;
    if k == 0 {
      GateStep(cat, sections, req, sections[req.section].cols, CreditsSeen(cat, sections, req.student, req.section),
               now);
    }
    else if k <= 6 { CheckStep(cat, sections, req, now, k); } else { WriteStep(cat, sections, req, now, k); }
  }

  // --------------------------------------------------------------- its run

  ghost predicate Reaches(cat: Catalog, st: State, st': State) { exists actions :: Run(cat, st, actions, st') }

  lemma {:induction false} RunSnoc(cat: Catalog, st: State, actions: seq<Action>, mid: State, a: Action)
    requires Run(cat, st, actions, mid) && Enabled(mid, a)
    ensures Run(cat, st, actions + [a], Next(cat, mid, a))
    decreases |actions|
  {
    if actions != [] {
      assert (actions + [a])[1..] == actions[1..] + [a];
      hide Enabled, Next;
      RunSnoc(cat, Next(cat, st, actions[0]), actions[1..], mid, a);
    } else {
      assert [] + [a] == [a] && [a][1..] == [];
    }
  }

  lemma ReachesNext(cat: Catalog, st: State, mid: State, a: Action)
    requires Reaches(cat, st, mid) && Enabled(mid, a)
    ensures Reaches(cat, st, Next(cat, mid, a))
  {
    var actions :| Run(cat, st, actions, mid);
    hide Enabled, Next;
    RunSnoc(cat, st, actions, mid, a);
  }

  lemma ReachesInv(cat: Catalog, st: State, st': State)
    requires Inv(st) && Reaches(cat, st, st')
    ensures Inv(st')
  {
    var actions :| Run(cat, st, actions, st');
    hide Inv, Run;
    RunRefines(cat, st, actions, st');
  }

  // The state with transaction t as given.
  function With(st: State, t: TxnId, txn: Txn): State { st.(txns := st.txns[t := txn]) }

  lemma ReachesStatement(cat: Catalog, st: State, mid: State, t: TxnId, txn: Txn, now: nat)
    requires Reaches(cat, st, With(mid, t, txn)) && Stepping(txn)
    ensures Reaches(cat, st, With(mid, t, Exec(cat, mid.db.sections, txn, now, false)))
  {
    hide Reaches, Exec;
    ReachesNext(cat, st, With(mid, t, txn), Statement(t, now, false));
    assert mid.txns[t := txn][t := Exec(cat, mid.db.sections, txn, now, false)]
           == mid.txns[t := Exec(cat, mid.db.sections, txn, now, false)];
  }

  lemma {:induction false} WalkOn(cat: Catalog, st: State, mid: State, t: TxnId, req: Request, now: nat, k: nat)
    requires req.Enroll? && Seatable(cat, mid.db.sections, req.student, req.section, now) && 2 <= k <= 10
    requires var sections := mid.db.sections;
             Reaches(cat, st,
                     With(mid, t,
                          Walk(req, sections[req.section].cols, CreditsSeen(cat, sections, req.student, req.section),
                               k)))
    ensures var sections := mid.db.sections;
            Reaches(cat, st,
                    With(mid, t,
                         Walk(req, sections[req.section].cols, CreditsSeen(cat, sections, req.student, req.section),
                              10)))
    decreases 10 - k
  {
    hide Reaches, Walk, Exec, With, CreditsSeen, Gate, Verdict, ActiveOf, ActiveSeats;
    if k < 10 {
      var live, credits :=
          mid.db.sections[req.section].cols, CreditsSeen(cat, mid.db.sections, req.student, req.section);
      WalkStep(cat, mid.db.sections, req, now, k);
      ReachesStatement(cat, st, mid, t, Walk(req, live, credits, k), now);
      WalkOn(cat, st, mid, t, req, now, k + 1);
    }
  }

  // Begun, gated, locked, checked and written, but not committed.
  ghost function Poised(cat: Catalog, st: State, t: TxnId, req: Request): State
    requires req.Enroll? && req.section in st.db.sections
  {
    var s, sections := req.section, st.db.sections;
    State(st.db, st.locks[s := t],
          st.txns[t := Walk(req, sections[s].cols, CreditsSeen(cat, sections, req.student, s), 10)],
          st.used + {req.newId})
  }

  lemma ToCommit(cat: Catalog, st: State, mid: State, t: TxnId, req: Request, now: nat)
    requires Reaches(cat, st, mid) && req.Enroll? && Seatable(cat, mid.db.sections, req.student, req.section, now)
    requires t !in mid.txns && req.newId !in mid.used && req.section !in mid.locks
    ensures Reaches(cat, st, Poised(cat, mid, t, req))
  {
    var s, sections := req.section, mid.db.sections;
    var live, credits := sections[s].cols, CreditsSeen(cat, sections, req.student, s);
    var begun := mid.(used := mid.used + {req.newId});
    var locked := begun.(locks := mid.locks[s := t]);
    ToLock(cat, st, mid, t, req, now);
    hide Reaches, Seatable, Exec, CreditsSeen;
    LockIt(cat, st, begun, t, req, live, credits);
    WalkOn(cat, st, locked, t, req, now, 2);
  }

  lemma ToLock(cat: Catalog, st: State, mid: State, t: TxnId, req: Request, now: nat)
    requires Reaches(cat, st, mid) && req.Enroll? && Seatable(cat, mid.db.sections, req.student, req.section, now)
    requires t !in mid.txns && req.newId !in mid.used
    ensures var begun := mid.(used := mid.used + {req.newId});
            Reaches(cat, st, With(begun, t, Walk(req, mid.db.sections[req.section].cols,
                                                 CreditsSeen(cat, mid.db.sections, req.student, req.section), 1)))
  {
    hide Reaches, Exec, CreditsSeen, Gate, Verdict, ActiveSeats;
    var begun := mid.(used := mid.used + {req.newId});
    ReachesNext(cat, st, mid, Begin(t, req));
    assert Next(cat, mid, Begin(t, req)) == With(begun, t, Start(req));
    WalkStep(cat, mid.db.sections, req, now, 0);
    ReachesStatement(cat, st, begun, t, Start(req), now);
  }

  lemma LockIt(cat: Catalog, st: State, mid: State, t: TxnId, req: Request, live: Columns, credits: nat)
    requires req.Enroll? && req.section in mid.db.sections && live == mid.db.sections[req.section].cols
             && req.section !in mid.locks
    requires Reaches(cat, st, With(mid, t, Walk(req, live, credits, 1)))
    ensures Reaches(cat, st, With(mid.(locks := mid.locks[req.section := t]), t, Walk(req, live, credits, 2)))
  {
    hide Reaches;
    var before := With(mid, t, Walk(req, live, credits, 1));
    ReachesNext(cat, st, before, Acquire(t));
    assert {} + {req.section} == {req.section};
    assert Locked(Walk(req, live, credits, 1), req.section, live) == Walk(req, live, credits, 2);
    assert Next(cat, before, Acquire(t)).txns == mid.txns[t := Walk(req, live, credits, 2)];
  }

  // ------------------------------------------------------------ both commits

  // The database with one more student seated in s.
  ghost predicate SeatAdded(sections: map<SectionId, Section>, sections': map<SectionId, Section>,
                            x: StudentId, s: SectionId, id: RowId) {
    s in sections && id !in sections[s].rows
    && sections' == sections[s := Section(sections[s].cols.(enrolledCount := sections[s].cols.enrolledCount + 1),
                                          sections[s].rows[id := Row(x, ENROLLED, None)])]
  }

  lemma CommitSeats(cat: Catalog, st: State, mid: State, t: TxnId, req: Request, live: Columns, credits: nat)
    returns (st': State)
    requires Inv(st) && Reaches(cat, st, mid) && req.Enroll? && t in mid.txns
             && mid.txns[t] == Walk(req, live, credits, 10)
    ensures Reaches(cat, st, st') && SeatAdded(mid.db.sections, st'.db.sections, req.student, req.section, req.newId)
    ensures forall u <- mid.txns | u != t :: u in st'.txns && st'.txns[u] == mid.txns[u]
    ensures t in st'.txns && st'.txns[t].pc == Committed(EnrolledAs(req.newId, live.enrolledCount + 1))
  {
    hide *;
    ReachesInv(cat, st, mid);
    CommitStep(cat, mid, t, req, live, credits);
    ReachesNext(cat, st, mid, Commit(t));
    st' := Next(cat, mid, Commit(t));
  }

  lemma CommitStep(cat: Catalog, mid: State, t: TxnId, req: Request, live: Columns, credits: nat)
    requires Inv(mid) && req.Enroll? && t in mid.txns && mid.txns[t] == Walk(req, live, credits, 10)
    ensures Enabled(mid, Commit(t))
    ensures var st' := Next(cat, mid, Commit(t));
            && SeatAdded(mid.db.sections, st'.db.sections, req.student, req.section, req.newId)
            && (forall u <- mid.txns | u != t :: u in st'.txns && st'.txns[u] == mid.txns[u])
            && t in st'.txns && st'.txns[t].pc == Committed(EnrolledAs(req.newId, live.enrolledCount + 1))
  {
    hide *;
    WalkEnd(req, live, credits);
    CommitNext(cat, mid, t, EnrolledAs(req.newId, live.enrolledCount + 1));
    CommitEffect(mid, t, mid.txns[t]);
    CommitWellFormed(mid, t, mid.txns[t]);
    JoinSeats(mid.db, req, mid.txns[t].pc.out, CommitDb(mid.db, mid.txns[t].writes));
  }

  lemma WalkEnd(req: Request, live: Columns, credits: nat)
    requires req.Enroll?
    ensures var txn := Walk(req, live, credits, 10);
            txn.req == req && txn.pc == Ready(EnrolledAs(req.newId, live.enrolledCount + 1))
  {
  }

  lemma CommitNext(cat: Catalog, mid: State, t: TxnId, out: Outcome)
    requires t in mid.txns && mid.txns[t].pc == Ready(out)
    ensures Enabled(mid, Commit(t))
    ensures var st' := Next(cat, mid, Commit(t));
            && st'.db == CommitDb(mid.db, mid.txns[t].writes)
            && (forall u <- mid.txns | u != t :: u in st'.txns && st'.txns[u] == mid.txns[u])
            && t in st'.txns && st'.txns[t].pc == Committed(out)
  {
    hide CommitDb, Unlock;
  }

  lemma JoinSeats(db: Db, req: Request, out: Outcome, db': Db)
    requires req.Enroll? && WellFormed(db, req) && Atomic(db, req, out, db') && out.EnrolledAs?
    ensures SeatAdded(db.sections, db'.sections, req.student, req.section, req.newId)
  {
    hide HolderRow, NextPosition, Rank, Waiting;
  }

  // Two seats more, and the student's active rows and completed courses after it.
  lemma SeatsAfter(cat: Catalog, sections: map<SectionId, Section>, sections': map<SectionId, Section>,
                   x: StudentId, s: SectionId, id: RowId)
    requires SeatAdded(sections, sections', x, s, id)
    ensures ActiveSeats(sections', x) == ActiveSeats(sections, x) + {(s, id)}
    ensures CompletedCourses(cat, sections', x) == CompletedCourses(cat, sections, x)
  {
    forall c | c in CompletedCourses(cat, sections, x)
      ensures c in CompletedCourses(cat, sections', x)
    {
      var t, jd :| t in sections && jd in sections[t].rows && sections[t].rows[jd].student == x
                   && sections[t].rows[jd].status.COMPLETED? && cat.course(t) == c;
      assert jd in sections'[t].rows && sections'[t].rows[jd] == sections[t].rows[jd];
    }
  }

  // Eligible with one row more exactly if the chain admits that row.
  lemma EligibleIffAdmits(cat: Catalog, x: StudentId, seats: set<RowKey>, done: set<CourseId>, p: RowKey)
    requires Eligible(cat, x, seats, done) && p !in seats
    ensures Eligible(cat, x, seats + {p}, done) <==> Admits(cat, x, seats, done, p.0)
  {
    if Admits(cat, x, seats, done, p.0) { EligibleAdd(cat, x, seats, done, p); }
    if Eligible(cat, x, seats + {p}, done) {
      assert p in seats + {p} && forall q <- seats :: q in seats + {p} && q != p;
      AddCredits(cat, seats, p, cat.term(p.0));
      hide TimeConflict.Conflict, CreditSum;
      assert CreditSum(cat, SameTerm(cat, seats + {p}, cat.term(p.0))) <= cat.CreditCap(x, cat.term(p.0));
    }
  }

  // Any student, any state, any two sections not locked just now into each of
  // which an enroll run alone would seat them: the two enrolls can both be
  // checked before either commits, and then both commit. The student, if
  // eligible before, is still eligible exactly if the chain would have admitted
  // the second row beside the first.
  lemma OverlappingEnrollsBothCommit(cat: Catalog, st: State, x: StudentId, s: SectionId, u: SectionId, now: nat,
                                     a: TxnId, b: TxnId, i: RowId, j: RowId)
    returns (actions: seq<Action>, st': State)
    requires Inv(st) && s != u && Seatable(cat, st.db.sections, x, s, now) && Seatable(cat, st.db.sections, x, u, now)
    requires s !in st.locks && u !in st.locks && a !in st.txns && b !in st.txns && a != b
    requires i !in st.used && j !in st.used && i != j
    ensures Run(cat, st, actions, st')
    ensures a in st'.txns && st'.txns[a].pc.Committed? && b in st'.txns && st'.txns[b].pc.Committed?
    ensures ActiveSeats(st'.db.sections, x) == ActiveSeats(st.db.sections, x) + {(s, i), (u, j)}
    ensures StudentOk(cat, st.db.sections, x) ==>
              (StudentOk(cat, st'.db.sections, x) <==>
               Admits(cat, x, ActiveSeats(st.db.sections, x) + {(s, i)}, CompletedCourses(cat, st.db.sections, x), u))
  {
    hide *;
    var first, second := Enroll(x, s, i), Enroll(x, u, j);
    var sections := st.db.sections;
    var both := BothPoised(cat, st, first, second, a, b, now);
    var mid := CommitSeats(cat, st, both, a, first, sections[s].cols, CreditsSeen(cat, sections, x, s));
    st' := CommitSeats(cat, st, mid, b, second, sections[u].cols, CreditsSeen(cat, sections, x, u));
    actions := Witness(cat, st, st');
    SeatsAfter(cat, sections, mid.db.sections, x, s, i);
    SeatsAfter(cat, mid.db.sections, st'.db.sections, x, u, j);
    assert {(s, i)} + {(u, j)} == {(s, i), (u, j)};
    if StudentOk(cat, sections, x) { BothJudged(cat, sections, mid.db.sections, st'.db.sections, x, s, i, u, j, now); }
  }

  lemma BothPoised(cat: Catalog, st: State, first: Request, second: Request, a: TxnId, b: TxnId, now: nat)
    returns (both: State)
    requires first.Enroll? && second.Enroll? && first.section != second.section && first.newId != second.newId && a != b
    requires Seatable(cat, st.db.sections, first.student, first.section, now)
    requires Seatable(cat, st.db.sections, second.student, second.section, now)
    requires first.section !in st.locks && second.section !in st.locks && a !in st.txns && b !in st.txns
    requires first.newId !in st.used && second.newId !in st.used
    ensures first.section in st.db.sections && second.section in st.db.sections
    ensures Reaches(cat, st, both) && both.db == st.db && a in both.txns && b in both.txns
    ensures var sections, s, u := st.db.sections, first.section, second.section;
            && both.txns[a] == Walk(first, sections[s].cols, CreditsSeen(cat, sections, first.student, s), 10)
            && both.txns[b] == Walk(second, sections[u].cols, CreditsSeen(cat, sections, second.student, u), 10)
  {
    StaysHere(cat, st);
    hide Reaches, Walk, CreditsSeen, Gate, Verdict, ActiveSeats, ActiveOf;
    var one := Poised(cat, st, a, first);
    both := Poised(cat, one, b, second);
    ToCommit(cat, st, st, a, first, now);
    ToCommit(cat, st, one, b, second, now);
  }

  lemma BothJudged(cat: Catalog, sections: map<SectionId, Section>, mid: map<SectionId, Section>,
                   after: map<SectionId, Section>,
                   x: StudentId, s: SectionId, i: RowId, u: SectionId, j: RowId, now: nat)
    requires Seatable(cat, sections, x, s, now) && s != u && StudentOk(cat, sections, x)
    requires SeatAdded(sections, mid, x, s, i) && SeatAdded(mid, after, x, u, j)
    ensures StudentOk(cat, after, x) <==>
              Admits(cat, x, ActiveSeats(sections, x) + {(s, i)}, CompletedCourses(cat, sections, x), u)
  {
    var seats, done := ActiveSeats(sections, x), CompletedCourses(cat, sections, x);
    assert Admits(cat, x, seats, done, s) by {
      hide ActiveSeats, CompletedCourses, DuplicateCourse, ClashesWith, CreditsFit;
    }
    assert (s, i) !in seats by { hide Seatable, Admits; }
    assert (u, j) !in seats + {(s, i)} by { hide Seatable, Admits; }
    SeatsAfter(cat, sections, mid, x, s, i);
    SeatsAfter(cat, mid, after, x, u, j);
    hide Eligible, Admits, ActiveSeats, CompletedCourses, Seatable, SeatAdded;
    EligibleAdd(cat, x, seats, done, (s, i));
    EligibleIffAdmits(cat, x, seats + {(s, i)}, done, (u, j));
  }

  lemma StaysHere(cat: Catalog, st: State)
    ensures Reaches(cat, st, st)
  {
    assert Run(cat, st, [], st);
  }

  lemma Witness(cat: Catalog, st: State, st': State) returns (actions: seq<Action>)
    requires Reaches(cat, st, st')
    ensures Run(cat, st, actions, st')
  {
    actions :| Run(cat, st, actions, st');
  }

  // So the hypothesis of EveryoneStaysEligible is needed exactly here: from an
  // initial state of eligible students, whenever the chain would not admit the
  // second row beside the first, such a run breaks it and costs eligibility.
  lemma OverlapBreaksEligibility(cat: Catalog, st: State, x: StudentId, s: SectionId, u: SectionId, now: nat, i: RowId,
                                 j: RowId)
    returns (actions: seq<Action>, st': State)
    requires Initial(st) && forall y: StudentId :: StudentOk(cat, st.db.sections, y)
    requires s != u && Seatable(cat, st.db.sections, x, s, now) && Seatable(cat, st.db.sections, x, u, now)
    requires i !in st.used && j !in st.used && i != j
    requires !Admits(cat, x, ActiveSeats(st.db.sections, x) + {(s, i)}, CompletedCourses(cat, st.db.sections, x), u)
    ensures Run(cat, st, actions, st') && !StudentOk(cat, st'.db.sections, x) && !OwnRequestsSerial(cat, st, actions)
  {
    assert st.locks == map[] && st.txns == map[];
    hide *;
    InitialInv(st);
    actions, st' := OverlappingEnrollsBothCommit(cat, st, x, s, u, now, 0, 1, i, j);
    if OwnRequestsSerial(cat, st, actions) { EveryoneStaysEligible(cat, st, actions, st', x); }
  }

  // Two sections of one course will do: the smallest school.
  function EmptySection(): Section { Section(Columns(1, 0, None), map[]) }

  function SmallSchool(): Catalog {
    Catalog(s => 0, s => 0, s => TimeConflict.Malformed, c => 3, c => {}, t => 0, t => 100, t => 15,
            map[], map[], map[7 := None])
  }

  function OpeningDay(): State {
    State(Db(map[0 := EmptySection(), 1 := EmptySection()], [], []), map[], map[], {})
  }

  lemma NobodyYet(y: StudentId)
    ensures ActiveSeats(OpeningDay().db.sections, y) == {} && SameTerm(SmallSchool(), {}, 0) == {}
    ensures StudentOk(SmallSchool(), OpeningDay().db.sections, y)
  {
    assert ActiveSeats(OpeningDay().db.sections, y) == {};
    assert forall term: TermId :: SameTerm(SmallSchool(), {}, term) == {};
    hide TimeConflict.Conflict, ActiveSeats, CompletedCourses, SameTerm, OpeningDay;
  }

  lemma TwoSectionsOfOneCourse()
    ensures Initial(OpeningDay()) && forall y: StudentId :: StudentOk(SmallSchool(), OpeningDay().db.sections, y)
    ensures forall s :: s in {0, 1} ==> Seatable(SmallSchool(), OpeningDay().db.sections, 7, s, 50)
    ensures var sections := OpeningDay().db.sections;
            !Admits(SmallSchool(), 7, ActiveSeats(sections, 7) + {(0, 0)}, CompletedCourses(SmallSchool(), sections, 7),
                    1)
  {
    OpensInOrder();
    forall s | s in {0, 1} ensures Seatable(SmallSchool(), OpeningDay().db.sections, 7, s, 50) { SeatFree(s); }
    forall y: StudentId ensures StudentOk(SmallSchool(), OpeningDay().db.sections, y) { NobodyYet(y); }
    SecondRefused(ActiveSeats(OpeningDay().db.sections, 7),
                  CompletedCourses(SmallSchool(), OpeningDay().db.sections, 7));
    hide *;
  }

  lemma OpensInOrder()
    ensures Initial(OpeningDay())
  {
    assert Enrolled(map[]) == {} && SeatInvariant(EmptySection());
    hide SeatInvariant, EmptySection;
  }

  lemma SeatFree(s: SectionId)
    requires s in {0, 1}
    ensures Seatable(SmallSchool(), OpeningDay().db.sections, 7, s, 50)
  {
    NobodyYet(7);
    assert ActiveOf(map[], 7) == {};
    hide ActiveSeats, SameTerm, ActiveOf, StudentOk, CompletedCourses, TimeConflict.Conflict;
  }

  lemma SecondRefused(seats: set<RowKey>, done: set<CourseId>)
    ensures !Admits(SmallSchool(), 7, seats + {(0, 0)}, done, 1)
  {
    assert (0, 0) in seats + {(0, 0)};
    hide SameTerm, TimeConflict.Conflict, CreditsFit;
  }
}
