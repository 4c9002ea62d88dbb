// What stands behind a committed enroll or swap in an interleaved run: its gate
// statement, and each check of the chain, passed at some moment of the run on
// the database as it was committed then.
module Admission {
  import opened Registry
  import opened Waitlist
  import opened Operations
  import opened Answers
  import opened Seats
  import opened Machine
  import opened Interleaving
  import opened Serializability
  import opened Runs
  import opened Eligibility

  datatype Check = GATE | COURSE | PREREQUISITES | CREDITS

  // How many statements of the checks a transaction has behind it: gate,
  // course, prerequisites, the term's rows, the credit cap.
  ghost function Past(t: Txn): nat {
    match t.pc
    case Enrolling(e) =>
      if e.EnrollGate? then 0 else if e.EnrollLock? || e.EnrollActive? || e.EnrollDup? then 1
      else if e.EnrollPrereq? then 2 else if e.EnrollMine? then 3 else if e.EnrollOverload? then 4 else 5
    case Swapping(w) =>
      if w.SwapRead? || w.SwapGate? then 0 else if w.SwapPrereq? then 2 else if w.SwapMine? then 3
      else if w.SwapOverload? then 4 else if SwapWriting(w) then 5 else 1
    case Ready(out) => if Adds(t.req, out) != {} then 5 else 0
    case Committed(out) => if Adds(t.req, out) != {} then 5 else 0
    case _ => 0
  }

  // The check is behind the transaction, or, for the credits it has added up,
  // will be.
  ghost predicate Has(cat: Catalog, t: Txn, c: Check) {
    match c
    case GATE => Past(t) >= 1
    case COURSE => Past(t) >= 2
    case PREREQUISITES => Past(t) >= 3
    case CREDITS =>
      Past(t) >= 5 || (Past(t) == 4 && Adding(t.req) && !OverLimit(cat, t.req.student, CreditsRead(t), TargetOf(t.req)))
  }

  predicate AtGate(t: Txn) { t.pc == Enrolling(EnrollGate) || t.pc == Swapping(SwapGate) }

  // The check, made on the committed rows.
  ghost predicate Passes(cat: Catalog, sections: map<SectionId, Section>, t: Txn, c: Check, now: nat, hold: bool)
    requires Adding(t.req)
  {
    var x, target, others := t.req.student, TargetOf(t.req), OtherSeats(sections, t.req);
    var mine := SameTerm(cat, others, cat.term(target));
    match c
    case GATE => AtGate(t) && Gate(cat, x, target, now, hold) == None
    case COURSE => Skips(cat, t) || !DuplicateCourse(cat, others, target)
    case PREREQUISITES => Skips(cat, t) || PrerequisitesMet(cat, sections, x, target)
    case CREDITS => !ClashesWith(cat, mine, target) && CreditsFit(cat, x, mine, target)
  }

  // Action a is a statement of t, made for req, that passes the check.
  ghost predicate Judged(cat: Catalog, st: State, a: Action, t: TxnId, req: Request, c: Check) {
    a.Statement? && a.t == t && t in st.txns && st.txns[t].req == req && Adding(req)
    && Passes(cat, st.db.sections, st.txns[t], c, a.now, a.hold)
  }

  lemma EnrollJudged(cat: Catalog, sections: map<SectionId, Section>, t: Txn, e: EnrollPc, now: nat, hold: bool,
                     c: Check)
    requires t.req.Enroll? && t.pc == Enrolling(e) && (EnrollChecking(e) ==> t.writes == [])
    requires Has(cat, ExecEnroll(cat, sections, t, e, now, hold), c)
    ensures Has(cat, t, c) || Passes(cat, sections, t, c, now, hold)
  {
    NothingWritten(sections);
    hide View, ViewAll, ActiveSeats, CompletedCourses, SameTerm, DuplicateCourse, ClashesWith, CreditSum, Gate;
    hide HolderRow, ActiveOf;
    hide NextPosition, Rank, Waiting, SeatsOutside, SeatsExcept;
  }

  lemma SwapJudged(cat: Catalog, sections: map<SectionId, Section>, t: Txn, w: SwapPc, now: nat, hold: bool, c: Check)
    requires t.req.Swap? && t.pc == Swapping(w) && (!SwapWriting(w) ==> t.writes == [])
    requires Has(cat, ExecSwap(cat, sections, t, w, now, hold), c)
    ensures Has(cat, t, c) || Passes(cat, sections, t, c, now, hold)
  {
    hide ExecSwapChecks, ExecSwapWrites, ExecSwapRead, Passes;
    if SwapWriting(w) {
      hide OverLimit;
    } else if w.SwapRead? {
      ReadHasNothing(cat, sections, t, c);
    } else if t.home in sections && t.req.target in sections {
      SwapChecksJudged(cat, sections, t, w, now, hold, c);
    }
  }

  lemma ReadHasNothing(cat: Catalog, sections: map<SectionId, Section>, t: Txn, c: Check)
    requires t.req.Swap? && t.pc == Swapping(SwapRead)
    ensures !Has(cat, ExecSwapRead(sections, t), c)
  {
    hide HomeOf, OverLimit;
  }

  lemma SwapChecksJudged(cat: Catalog, sections: map<SectionId, Section>, t: Txn, w: SwapPc, now: nat, hold: bool,
                         c: Check)
    requires t.req.Swap? && t.pc == Swapping(w) && !SwapWriting(w) && t.writes == []
    requires t.home in sections && t.req.target in sections
    requires Has(cat, ExecSwapChecks(cat, sections, t, w, now, hold), c)
    ensures Has(cat, t, c) || Passes(cat, sections, t, c, now, hold)
  {
    NothingWritten(sections);
    hide View, ViewAll, ActiveSeats, CompletedCourses, SameTerm, DuplicateCourse, ClashesWith, CreditSum, Gate;
    hide ActiveOf, SeatsExcept;
  }

  // While a transaction is checking it has written nothing.
  lemma Unwritten(sections: map<SectionId, Section>, t: Txn)
    requires GoodTxn(sections, t) && Stepping(t) && Adding(t.req)
    ensures t.req.Enroll? ==> t.pc.Enrolling? && (EnrollChecking(t.pc.e) ==> t.writes == [])
    ensures t.req.Swap? ==> t.pc.Swapping? && (!SwapWriting(t.pc.w) ==> t.writes == [])
  {
  }

  lemma StatementJudged(cat: Catalog, sections: map<SectionId, Section>, t: Txn, now: nat, hold: bool, c: Check)
    requires GoodTxn(sections, t) && Stepping(t) && Adding(t.req) && Has(cat, Exec(cat, sections, t, now, hold), c)
    ensures Has(cat, t, c) || Passes(cat, sections, t, c, now, hold)
  {
    Unwritten(sections, t);
    hide GoodTxn, Has, Passes, ExecEnroll, ExecSwap;
    if t.req.Enroll? {
      EnrollJudged(cat, sections, t, t.pc.e, now, hold, c);
    } else {
      SwapJudged(cat, sections, t, t.pc.w, now, hold, c);
    }
  }

  // A transaction starts with no check behind it and gains one only by making it.
  lemma StepJudged(cat: Catalog, st: State, a: Action, t: TxnId, c: Check)
    requires Inv(st) && Enabled(st, a) && t in Next(cat, st, a).txns
    requires var t' := Next(cat, st, a).txns[t]; Adding(t'.req) && Has(cat, t', c)
    ensures t in st.txns && st.txns[t].req == Next(cat, st, a).txns[t].req
    ensures Has(cat, st.txns[t], c) || Judged(cat, st, a, t, st.txns[t].req, c)
  {
    hide Inv, Exec, Has, Passes, CommitDb, Unlock, OverLimit;
    NoneAtStart(cat, c);
    if a.t == t && !a.Begin? {
      var txn := st.txns[t];
      ExecReq(cat, st, a);
      match a
      case Acquire(_) => LockedHas(cat, txn, Wants(txn).value, c);
      case Statement(_, now, hold) =>
        assert GoodTxn(st.db.sections, txn) by { TxnGood(st, t); }
        StatementJudged(cat, st.db.sections, txn, now, hold, c);
      case Commit(_) => EndHas(cat, txn, c);
      case Rollback(_) => EndHas(cat, txn, c);
    }
  }

  lemma NoneAtStart(cat: Catalog, c: Check)
    ensures forall req :: !Has(cat, Start(req), c)
  {
  }

  lemma ExecReq(cat: Catalog, st: State, a: Action)
    requires Inv(st) && Enabled(st, a) && !a.Begin?
    ensures a.t in st.txns && Next(cat, st, a).txns[a.t].req == st.txns[a.t].req
  {
    hide Inv, Exec, CommitDb, Unlock, Wants, AfterLock;
    if a.Statement? {
      TxnGood(st, a.t);
      ExecKeepsReq(cat, st.db.sections, st.txns[a.t], a.now, a.hold);
    }
  }

  lemma ExecKeepsReq(cat: Catalog, sections: map<SectionId, Section>, t: Txn, now: nat, hold: bool)
    ensures Exec(cat, sections, t, now, hold).req == t.req
  {
    hide View, HomeOf, Gate, HolderRow, ActiveOf, Others, OthersInTerm, DuplicateCourse, PrerequisitesMet, ClashesWith;
    hide CreditSum;
    hide Ordered, Waiting, NextPosition, Rank, CheckHolds, ViewAll;
  }

  lemma LockedHas(cat: Catalog, t: Txn, s: SectionId, c: Check)
    requires Wants(t) == Some(s)
    ensures forall cols :: Has(cat, Locked(t, s, cols), c) && Adding(t.req) ==> Has(cat, t, c)
    ensures Has(cat, Missing(t), c) ==> Has(cat, t, c)
  {
    hide OverLimit;
  }

  lemma EndHas(cat: Catalog, t: Txn, c: Check)
    ensures t.pc.Ready? && Has(cat, t.(pc := Committed(t.pc.out), held := {}, writes := []), c) ==> Has(cat, t, c)
    ensures forall code :: !Has(cat, t.(pc := Aborted(code), held := {}, writes := []), c)
  {
    hide OverLimit;
  }

  // ------------------------------------------------------------- whole runs

  // The state before action k.
  ghost function StateAt(cat: Catalog, st: State, actions: seq<Action>, k: nat): State
    requires k <= |actions|
    decreases k
  {
    if k == 0 || !Enabled(st, actions[0]) then st else StateAt(cat, Next(cat, st, actions[0]), actions[1..], k - 1)
  }

  ghost predicate JudgedAt(cat: Catalog, st: State, actions: seq<Action>, k: nat, t: TxnId, req: Request, c: Check) {
    k < |actions| && Judged(cat, StateAt(cat, st, actions, k), actions[k], t, req, c)
  }

  lemma {:induction false} RunJudged(cat: Catalog, st: State, actions: seq<Action>, st': State, t: TxnId, c: Check)
    requires Inv(st) && Run(cat, st, actions, st') && t in st'.txns && Adding(st'.txns[t].req)
             && Has(cat, st'.txns[t], c)
    ensures (t in st.txns && st.txns[t].req == st'.txns[t].req && Has(cat, st.txns[t], c))
            || exists k :: JudgedAt(cat, st, actions, k, t, st'.txns[t].req, c)
    decreases |actions|
  {
    if actions != [] {
      var a, mid, req := actions[0], Next(cat, st, actions[0]), st'.txns[t].req;
      hide *;
      StepKeeps(cat, st, a);
      RunJudged(cat, mid, actions[1..], st', t, c);
      if k :| JudgedAt(cat, mid, actions[1..], k, t, req, c) {
        JudgedLater(cat, st, actions, k, t, req, c);
      } else {
        StepJudged(cat, st, a, t, c);
        if Judged(cat, st, a, t, req, c) { JudgedNow(cat, st, actions, t, req, c); }
      }
    }
  }

  lemma JudgedLater(cat: Catalog, st: State, actions: seq<Action>, k: nat, t: TxnId, req: Request, c: Check)
    requires actions != [] && Enabled(st, actions[0])
             && JudgedAt(cat, Next(cat, st, actions[0]), actions[1..], k, t, req, c)
    ensures JudgedAt(cat, st, actions, k + 1, t, req, c)
  {
    hide Judged, Enabled, Next;
  }

  lemma JudgedNow(cat: Catalog, st: State, actions: seq<Action>, t: TxnId, req: Request, c: Check)
    requires actions != [] && Judged(cat, st, actions[0], t, req, c)
    ensures JudgedAt(cat, st, actions, 0, t, req, c)
  {
    hide Judged;
  }

  // Every committed enroll or swap that added a row passed its gate at some
  // statement of the run, and the course, prerequisite, clash and credit checks
  // each at some statement, judged on the database committed at that moment.
  lemma CommittedWasChecked(cat: Catalog, st: State, actions: seq<Action>, st': State, t: TxnId, c: Check)
    returns (k: nat)
    requires Initial(st) && Run(cat, st, actions, st') && t in st'.txns && st'.txns[t].pc.Committed?
    requires Adds(st'.txns[t].req, st'.txns[t].pc.out) != {}
    ensures JudgedAt(cat, st, actions, k, t, st'.txns[t].req, c)
  {
    assert st.txns == map[];
    hide *;
    InitialInv(st);
    CommittedHas(cat, st'.txns[t], c);
    RunJudged(cat, st, actions, st', t, c);
    k :| JudgedAt(cat, st, actions, k, t, st'.txns[t].req, c);
  }

  lemma CommittedHas(cat: Catalog, t: Txn, c: Check)
    requires t.pc.Committed? && Adds(t.req, t.pc.out) != {}
    ensures Adding(t.req) && Has(cat, t, c)
  {
  }

  // ------------------------------------------------------- after the close

  lemma FinishedStay(cat: Catalog, st: State, a: Action, t: TxnId)
    requires Enabled(st, a) && t in st.txns && st.txns[t].pc.Committed?
    ensures t in Next(cat, st, a).txns && Next(cat, st, a).txns[t] == st.txns[t]
  {
    hide Exec, CommitDb, Unlock;
  }

  lemma {:induction false} FinishedRun(cat: Catalog, st: State, actions: seq<Action>, st': State, t: TxnId)
    requires Run(cat, st, actions, st') && t in st.txns && st.txns[t].pc.Committed?
    ensures t in st'.txns && st'.txns[t] == st.txns[t]
    decreases |actions|
  {
    if actions != [] {
      FinishedStay(cat, st, actions[0], t);
      hide Enabled, Next;
      FinishedRun(cat, Next(cat, st, actions[0]), actions[1..], st', t);
    }
  }

  ghost predicate HasRow(db: Db, s: SectionId, id: RowId) { s in db.sections && id in db.sections[s].rows }

  // Transaction t committed the row.
  ghost predicate Brought(st: State, t: TxnId, s: SectionId, id: RowId) {
    t in st.txns && st.txns[t].pc.Committed? && (s, id) in Adds(st.txns[t].req, st.txns[t].pc.out)
  }

  lemma NewRowStep(cat: Catalog, st: State, a: Action, s: SectionId, id: RowId)
    requires Inv(st) && Enabled(st, a) && HasRow(Next(cat, st, a).db, s, id) && !HasRow(st.db, s, id)
    ensures a.Commit? && Brought(Next(cat, st, a), a.t, s, id)
  {
    StepRefines(cat, st, a);
    hide Inv, Atomic, WellFormed, CommitDb, Unlock;
    if a.Commit? {
      var txn, db' := st.txns[a.t], Next(cat, st, a).db;
      CommittedNow(cat, st, a);
      AtomicCalm(st.db, txn.req, txn.pc.out, db');
      hide Enabled, Next, Adds;
      assert CalmRows(st.db.sections[s].rows, db'.sections[s].rows, AddsAt(Adds(txn.req, txn.pc.out), s));
    }
  }

  lemma CommittedNow(cat: Catalog, st: State, a: Action)
    requires Enabled(st, a) && a.Commit?
    ensures a.t in st.txns && st.txns[a.t].pc.Ready? && a.t in Next(cat, st, a).txns
    ensures Next(cat, st, a).txns[a.t].req == st.txns[a.t].req
            && Next(cat, st, a).txns[a.t].pc == Committed(st.txns[a.t].pc.out)
  {
    hide CommitDb, Unlock;
  }

  lemma {:induction false} NewRowBrought(cat: Catalog, st: State, actions: seq<Action>, st': State, s: SectionId,
                                         id: RowId)
    returns (t: TxnId)
    requires Inv(st) && Run(cat, st, actions, st') && HasRow(st'.db, s, id) && !HasRow(st.db, s, id)
    ensures Brought(st', t, s, id)
    decreases |actions|
  {
    var a, mid := actions[0], Next(cat, st, actions[0]);
    StepKeeps(cat, st, a);
    hide Inv, Enabled, Next, HasRow;
    if HasRow(mid.db, s, id) {
      NewRowStep(cat, st, a, s, id);
      t := a.t;
      FinishedRun(cat, mid, actions[1..], st', t);
    } else {
      t := NewRowBrought(cat, mid, actions[1..], st', s, id);
    }
  }

  // From action m on every statement's clock is past the section's close.
  ghost predicate LateFrom(cat: Catalog, actions: seq<Action>, m: nat, s: SectionId) {
    forall q | m <= q < |actions| && actions[q].Statement? :: actions[q].now > cat.closes(cat.term(s))
  }

  // A row added in any run was brought by a transaction whose gate statement
  // found registration open. So once every statement's clock is past the close,
  // the only rows still to come are those of transactions already past the gate.
  lemma RowsPassedTheGate(cat: Catalog, st: State, actions: seq<Action>, st': State, s: SectionId, id: RowId)
    returns (t: TxnId, k: nat)
    requires Initial(st) && Run(cat, st, actions, st') && HasRow(st'.db, s, id) && !HasRow(st.db, s, id)
    ensures Brought(st', t, s, id) && JudgedAt(cat, st, actions, k, t, st'.txns[t].req, GATE)
    ensures actions[k].now <= cat.closes(cat.term(s)) && TargetOf(st'.txns[t].req) == s
    ensures forall m: nat | LateFrom(cat, actions, m, s) :: k < m
  {
    hide *;
    InitialInv(st);
    t := NewRowBrought(cat, st, actions, st', s, id);
    BroughtTo(st', t, s, id);
    k := CommittedWasChecked(cat, st, actions, st', t, GATE);
    GateOpen(cat, st, actions, k, t, st'.txns[t].req);
  }

  lemma BroughtTo(st: State, t: TxnId, s: SectionId, id: RowId)
    requires Brought(st, t, s, id)
    ensures t in st.txns && st.txns[t].pc.Committed? && Adds(st.txns[t].req, st.txns[t].pc.out) != {}
    ensures Adding(st.txns[t].req) && TargetOf(st.txns[t].req) == s
  {
  }

  lemma GateOpen(cat: Catalog, st: State, actions: seq<Action>, k: nat, t: TxnId, req: Request)
    requires JudgedAt(cat, st, actions, k, t, req, GATE)
    ensures k < |actions| && actions[k].Statement? && Adding(req)
            && actions[k].now <= cat.closes(cat.term(TargetOf(req)))
    ensures forall m: nat | LateFrom(cat, actions, m, TargetOf(req)) :: k < m
  {
    hide StateAt;
  }
}
