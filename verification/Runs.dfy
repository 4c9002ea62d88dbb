// Runs of the interleaved machine: what every reachable state satisfies, and
// the run of atomic operations each run amounts to.
module Runs {
  import opened Registry
  import opened Operations
  import opened Seats
  import opened Machine
  import opened LocalSteps
  import opened Interleaving
  import opened Serializability

  // The lock table and the transactions agree on who holds what.
  ghost predicate LocksAgree(st: State) {
    && (forall t, s | t in st.txns && s in st.txns[t].held :: s in st.locks && st.locks[s] == t)
    && (forall s <- st.locks :: st.locks[s] in st.txns && s in st.txns[st.locks[s]].held && s in st.db.sections)
  }

  // The uuid of a row not yet committed is in no table and in no other request.
  ghost predicate IdsKnown(st: State) {
    && (forall s, id | s in st.db.sections && id in st.db.sections[s].rows :: id in st.used)
    && (forall t <- st.txns :: NewIds(st.txns[t].req) <= st.used)
    && (forall t, id | t in st.txns && st.txns[t].Unfinished() && id in NewIds(st.txns[t].req) ::
        FreshId(st.db.sections, id))
    && (forall t, u | t in st.txns && u in st.txns && t != u :: NewIds(st.txns[t].req) !! NewIds(st.txns[u].req))
  }

  ghost predicate TxnsGood(st: State) {
    forall t <- st.txns ::
      GoodTxn(st.db.sections, st.txns[t]) && (st.txns[t].req.Reorder? ==> Distinct(st.txns[t].req.order))
  }

  ghost predicate Inv(st: State) {
    DbInvariant(st.db) && TxnsGood(st) && LocksAgree(st) && IdsKnown(st)
  }

  lemma TxnGood(st: State, t: TxnId)
    requires Inv(st) && t in st.txns
    ensures GoodTxn(st.db.sections, st.txns[t])
  {
    hide GoodTxn, DbInvariant, LocksAgree, IdsKnown;
  }

  // ---------------------------------------------------------- step by step

  // Replacing one transaction, the database staying as it is.
  lemma OneTxn(st: State, t: TxnId, txn: Txn, locks: map<SectionId, TxnId>)
    requires Inv(st) && t in st.txns && txn.req == st.txns[t].req
    requires GoodTxn(st.db.sections, txn) && (txn.Unfinished() ==> st.txns[t].Unfinished())
    requires forall s <- locks ::
             s in st.db.sections && if locks[s] == t then s in txn.held else s in st.locks && st.locks[s] == locks[s]
    requires forall s <- txn.held :: s in locks && locks[s] == t
    requires forall s <- st.locks | st.locks[s] != t :: s in locks && locks[s] == st.locks[s]
    ensures Inv(st.(txns := st.txns[t := txn], locks := locks))
  {
    hide GoodTxn, DbInvariant, IdsKnown;
    OneTxnIds(st, t, txn, locks);
    var st' := st.(txns := st.txns[t := txn], locks := locks);
    forall u, s | u in st'.txns && s in st'.txns[u].held
      ensures s in st'.locks && st'.locks[s] == u
    {
      if u != t { assert s in st.txns[u].held; }
    }
    assert LocksAgree(st');
  }

  lemma OneTxnIds(st: State, t: TxnId, txn: Txn, locks: map<SectionId, TxnId>)
    requires IdsKnown(st) && t in st.txns && txn.req == st.txns[t].req && (txn.Unfinished() ==> st.txns[t].Unfinished())
    ensures IdsKnown(st.(txns := st.txns[t := txn], locks := locks))
  {
    hide FreshId, NewIds;
  }

  lemma SameLocks(st: State, t: TxnId, txn: Txn)
    requires Inv(st) && t in st.txns && txn.req == st.txns[t].req && txn.held == st.txns[t].held
    requires GoodTxn(st.db.sections, txn) && st.txns[t].Unfinished()
    ensures Inv(st.(txns := st.txns[t := txn]))
  {
    hide GoodTxn, DbInvariant, IdsKnown;
    OneTxn(st, t, txn, st.locks);
  }

  lemma StartGood(sections: map<SectionId, Section>, req: Request)
    ensures GoodTxn(sections, Start(req)) && Start(req).req == req && Start(req).held == {} && Start(req).Unfinished()
  {
    assert BeforeLock(sections, Start(req));
  }

  lemma BeginKeeps(st: State, t: TxnId, req: Request, txn: Txn)
    requires Inv(st) && CanBegin(st, t, req)
    requires GoodTxn(st.db.sections, txn) && txn.req == req && txn.held == {}
    ensures Inv(st.(txns := st.txns[t := txn], used := st.used + NewIds(req)))
  {
    hide GoodTxn, DbInvariant, NewIds;
    var st' := st.(txns := st.txns[t := txn], used := st.used + NewIds(req));
    assert LocksAgree(st');
    forall u, id | u in st'.txns && st'.txns[u].Unfinished() && id in NewIds(st'.txns[u].req)
      ensures FreshId(st'.db.sections, id)
    {
      if u == t { assert id !in st.used; }
    }
    assert IdsKnown(st');
  }

  lemma AcquireKeeps(st: State, t: TxnId, txn: Txn, s: SectionId)
    requires Inv(st) && t in st.txns && st.txns[t] == txn && Wants(txn) == Some(s) && s !in st.locks
             && s in st.db.sections
    ensures Inv(st.(locks := st.locks[s := t], txns := st.txns[t := Locked(txn, s, st.db.sections[s].cols)]))
  {
    LockedGood(st.db.sections, txn, s);
    hide GoodTxn, DbInvariant, IdsKnown, AfterLock, Wants;
    OneTxn(st, t, Locked(txn, s, st.db.sections[s].cols), st.locks[s := t]);
  }

  lemma MissingKeeps(st: State, t: TxnId, txn: Txn, s: SectionId)
    requires Inv(st) && t in st.txns && st.txns[t] == txn && Wants(txn) == Some(s) && s !in st.db.sections
    ensures Inv(st.(txns := st.txns[t := Missing(txn)]))
  {
    MissingGood(st.db.sections, txn);
    assert Missing(txn).held == txn.held;
    hide GoodTxn, Inv, Wants, Missing;
    SameLocks(st, t, Missing(txn));
  }

  lemma LockedGood(sections: map<SectionId, Section>, txn: Txn, s: SectionId)
    requires GoodTxn(sections, txn) && Wants(txn) == Some(s) && s in sections
    ensures GoodTxn(sections, Locked(txn, s, sections[s].cols)) && txn.Unfinished()
  {
    assert txn.Unfinished();
    var txn' := Locked(txn, s, sections[s].cols);
    assert txn.writes == [] && WritesIn([], txn'.held);
    if txn.pc == Swapping(SwapLock1) {
      assert BetweenLocks(sections, txn');
    } else if txn.pc == Swapping(SwapLock2) {
      assert txn'.held == {txn.home, txn.req.target};
      assert UnderBothLocks(sections, txn');
    } else {
      assert txn'.held == {txn.home};
      assert UnderLock(sections, txn');
    }
  }

  lemma MissingGood(sections: map<SectionId, Section>, txn: Txn)
    requires GoodTxn(sections, txn) && Wants(txn).Some? && Wants(txn).value !in sections
    ensures GoodTxn(sections, Missing(txn)) && txn.Unfinished()
  {
    assert BeforeLock(sections, txn);
    assert BeforeLock(sections, Missing(txn));
  }

  ghost predicate Stepping(txn: Txn) {
    txn.Unfinished() && Wants(txn).None? && !txn.pc.Ready? && !txn.pc.Failed?
  }

  lemma StatementGood(cat: Catalog, db: Db, txn: Txn, now: nat, hold: bool)
    requires DbInvariant(db) && GoodTxn(db.sections, txn) && (txn.req.Reorder? ==> Distinct(txn.req.order))
    requires Stepping(txn)
    ensures var txn' := Exec(cat, db.sections, txn, now, hold);
            GoodTxn(db.sections, txn') && txn'.req == txn.req && txn'.held == txn.held
  {
    hide GoodEnrollPc, GoodDropPc, GoodPromotePc, GoodReorderPc, GoodExpirePc, GoodEditPc, GoodSwapPc;
    hide Exec, SeatInvariant, IdsUnique, WritesIn;
    DbSections(db);
    var sections := db.sections;
    if UnderLock(sections, txn) {
      UnderLockStep(cat, sections, txn, now, hold);
    } else if UnderBothLocks(sections, txn) {
      UnderBothStep(cat, sections, txn, now, hold);
    } else {
      assert BeforeLock(sections, txn);
      PreLockStep(cat, sections, txn, now, hold);
      NoWritesIn();
    }
    LockedLive(sections, Exec(cat, sections, txn, now, hold));
    hide UnderLock, UnderBothLocks, BetweenLocks;
  }

  lemma LockedLive(sections: map<SectionId, Section>, txn: Txn)
    ensures UnderLock(sections, txn) || UnderBothLocks(sections, txn) ==> txn.Unfinished()
  {
  }

  lemma NoWritesIn()
    ensures WritesIn([], {})
  {
  }

  lemma StatementKeeps(cat: Catalog, st: State, t: TxnId, txn: Txn, now: nat, hold: bool)
    requires Inv(st) && t in st.txns && st.txns[t] == txn && Stepping(txn)
    ensures Inv(st.(txns := st.txns[t := Exec(cat, st.db.sections, txn, now, hold)]))
  {
    StatementGood(cat, st.db, txn, now, hold);
    hide GoodTxn, Inv, Exec, Wants;
    SameLocks(st, t, Exec(cat, st.db.sections, txn, now, hold));
  }

  lemma RollbackKeeps(st: State, t: TxnId, txn: Txn)
    requires Inv(st) && t in st.txns && txn.req == st.txns[t].req && !txn.Unfinished() && txn.held == {}
             && txn.writes == []
    ensures Inv(st.(locks := Unlock(st.locks, t), txns := st.txns[t := txn]))
  {
    FinishedGood(st.db.sections, txn);
    hide GoodTxn, DbInvariant, IdsKnown;
    OneTxn(st, t, txn, Unlock(st.locks, t));
  }

  // A commit is one atomic operation, and leaves the locked sections of every
  // other transaction alone.
  lemma CommitEffect(st: State, t: TxnId, txn: Txn)
    requires Inv(st) && t in st.txns && st.txns[t] == txn && txn.pc.Ready?
    ensures var db' := CommitDb(st.db, txn.writes);
            && Atomic(st.db, txn.req, txn.pc.out, db')
            && DbInvariant(db') && GrowsBy(st.db.sections, db'.sections, NewIds(txn.req))
            && forall s <- st.db.sections | s !in txn.held :: db'.sections[s] == st.db.sections[s]
  {
    var db' := CommitDb(st.db, txn.writes);
    CommitRefines(st.db, txn);
    assert WellFormed(st.db, txn.req) by { hide GoodTxn, DbInvariant; }
    AtomicKeeps(st.db, txn.req, txn.pc.out, db');
    forall s <- st.db.sections | s !in txn.held
      ensures db'.sections[s] == st.db.sections[s]
    {
      ViewOutside(st.db.sections[s], s, txn.writes, txn.held);
    }
    hide Atomic, DbInvariant, GrowsBy, View, EventsOf, NotesOf;
  }

  lemma CommitKeeps(st: State, t: TxnId, txn: Txn, txn': Txn)
    requires Inv(st) && t in st.txns && st.txns[t] == txn && txn.pc.Ready?
    requires txn'.req == txn.req && !txn'.Unfinished() && txn'.held == {} && txn'.writes == []
    ensures Inv(State(CommitDb(st.db, txn.writes), Unlock(st.locks, t), st.txns[t := txn'], st.used))
  {
    hide Atomic, CommitDb, GoodTxn, DbInvariant, GrowsBy, IdsKnown, LocksAgree, TxnsGood, Unlock;
    CommitEffect(st, t, txn);
    var st' := State(CommitDb(st.db, txn.writes), Unlock(st.locks, t), st.txns[t := txn'], st.used);
    FinishedGood(st'.db.sections, txn');
    FromGrowsBy(st.db.sections, st'.db.sections, NewIds(txn.req));
    hide Grows;
    CommitTxns(st, t, st');
    CommitIds(st, t, st');
    UnlockAgrees(st, t, txn', st'.db);
  }

  lemma CommitTxns(st: State, t: TxnId, st': State)
    requires TxnsGood(st) && LocksAgree(st) && t in st.txns && Grows(st.db.sections, st'.db.sections)
    requires forall s <- st.db.sections | s !in st.txns[t].held :: st'.db.sections[s] == st.db.sections[s]
    requires st'.txns.Keys == st.txns.Keys && forall u <- st.txns | u != t :: st'.txns[u] == st.txns[u]
    requires GoodTxn(st'.db.sections, st'.txns[t]) && st'.txns[t].req == st.txns[t].req
    ensures TxnsGood(st')
  {
    hide GoodTxn, Grows;
    forall u <- st'.txns
      ensures GoodTxn(st'.db.sections, st'.txns[u])
    {
      if u != t {
        TxnLocks(st, u, t);
        Undisturbed(st.db.sections, st'.db.sections, st.txns[u]);
      }
    }
  }

  lemma UnlockAgrees(st: State, t: TxnId, txn': Txn, db': Db)
    requires LocksAgree(st) && t in st.txns && txn'.held == {} && db'.sections.Keys == st.db.sections.Keys
    ensures LocksAgree(State(db', Unlock(st.locks, t), st.txns[t := txn'], st.used))
  {
    var st' := State(db', Unlock(st.locks, t), st.txns[t := txn'], st.used);
    forall u, s | u in st'.txns && s in st'.txns[u].held
      ensures s in st'.locks && st'.locks[s] == u
    {
      assert u != t && s in st.txns[u].held;
    }
  }

  lemma TxnLocks(st: State, u: TxnId, t: TxnId)
    requires LocksAgree(st) && u in st.txns && t in st.txns && u != t
    ensures forall s <- st.txns[u].held :: s in st.db.sections && s !in st.txns[t].held
  {
    forall s <- st.txns[u].held
      ensures s in st.db.sections && s !in st.txns[t].held
    {
      assert s in st.locks && st.locks[s] == u;
    }
  }

  lemma FinishedGood(sections: map<SectionId, Section>, txn: Txn)
    requires !txn.Unfinished() && txn.held == {} && txn.writes == []
    ensures GoodTxn(sections, txn)
  {
  }

  lemma FromGrowsBy(sections: map<SectionId, Section>, sections': map<SectionId, Section>, ids: set<RowId>)
    requires GrowsBy(sections, sections', ids)
    ensures Grows(sections, sections')
    ensures forall s, id | s in sections' && id in sections'[s].rows :: id in sections[s].rows || id in ids
    ensures forall id | id !in ids && FreshId(sections, id) :: FreshId(sections', id)
  {
    assert forall s <- sections :: RowsGrow(sections[s].rows, sections'[s].rows, ids);
  }

  lemma CommitIds(st: State, t: TxnId, st': State)
    requires IdsKnown(st) && t in st.txns && GrowsBy(st.db.sections, st'.db.sections, NewIds(st.txns[t].req))
    requires st'.used == st.used && t in st'.txns && st'.txns[t].req == st.txns[t].req && !st'.txns[t].Unfinished()
    requires st'.txns.Keys == st.txns.Keys && forall u <- st.txns | u != t :: st'.txns[u] == st.txns[u]
    ensures IdsKnown(st')
  {
    FromGrowsBy(st.db.sections, st'.db.sections, NewIds(st.txns[t].req));
    hide GrowsBy, FreshId;
    forall u, id | u in st'.txns && st'.txns[u].Unfinished() && id in NewIds(st'.txns[u].req)
      ensures FreshId(st'.db.sections, id)
    {
      assert id !in NewIds(st.txns[t].req);
    }
  }

  // ------------------------------------------------------------- whole runs

  lemma StepKeeps(cat: Catalog, st: State, a: Action)
    requires Inv(st) && Enabled(st, a)
    ensures Inv(Next(cat, st, a))
  {
    hide Inv, Exec, Wants, GoodTxn, CommitDb, CanBegin, Start, Unlock, Locked, Missing;
    match a {
      case Begin(t, req) =>
        StartGood(st.db.sections, req);
        BeginKeeps(st, t, req, Start(req));
      case Acquire(t) =>
        var txn := st.txns[t];
        var s := Wants(txn).value;
        if s in st.db.sections { AcquireKeeps(st, t, txn, s); } else { MissingKeeps(st, t, txn, s); }
      case Statement(t, now, hold) => StatementKeeps(cat, st, t, st.txns[t], now, hold);
      case Commit(t) => CommitKeeps(st, t, st.txns[t], Next(cat, st, a).txns[t]);
      case Rollback(t) => RollbackKeeps(st, t, Next(cat, st, a).txns[t]);
    }
  }

  // Before any request: a database in order, no transaction, no lock.
  ghost predicate Initial(st: State) {
    && DbInvariant(st.db) && st.locks == map[] && st.txns == map[]
    && forall s, id | s in st.db.sections && id in st.db.sections[s].rows :: id in st.used
  }

  lemma InitialInv(st: State)
    requires Initial(st)
    ensures Inv(st)
  {
  }

  ghost predicate Run(cat: Catalog, st: State, actions: seq<Action>, st': State)
    decreases |actions|
  {
    if actions == [] then st' == st else
      Enabled(st, actions[0]) && Run(cat, Next(cat, st, actions[0]), actions[1..], st')
  }

  // Committed operations, in commit order.
  datatype Op = Op(req: Request, out: Outcome)

  ghost function Commits(cat: Catalog, st: State, actions: seq<Action>): seq<Op>
    decreases |actions|
  {
    if actions == [] || !Enabled(st, actions[0]) then [] else
      var rest := Commits(cat, Next(cat, st, actions[0]), actions[1..]);
      match actions[0]
      case Commit(t) => [Op(st.txns[t].req, st.txns[t].pc.out)] + rest
      case _ => rest
  }

  ghost predicate AtomicStep(db: Db, op: Op, db': Db) {
    WellFormed(db, op.req) && Atomic(db, op.req, op.out, db')
  }

  // A serial run of atomic operations.
  ghost predicate Serial(db: Db, ops: seq<Op>, db': Db)
    decreases |ops|
  {
    if ops == [] then db' == db else
      exists mid :: AtomicStep(db, ops[0], mid) && Serial(mid, ops[1..], db')
  }

  lemma StepRefines(cat: Catalog, st: State, a: Action)
    requires Inv(st) && Enabled(st, a)
    ensures if a.Commit? then AtomicStep(st.db, Op(st.txns[a.t].req, st.txns[a.t].pc.out), Next(cat, st, a).db)
            else Next(cat, st, a).db == st.db
  {
    if a.Commit? {
      var txn := st.txns[a.t];
      CommitEffect(st, a.t, txn);
      assert WellFormed(st.db, txn.req) by { CommitWellFormed(st, a.t, txn); }
      hide Inv, Atomic, WellFormed, CommitDb;
    }
  }

  lemma CommitWellFormed(st: State, t: TxnId, txn: Txn)
    requires Inv(st) && t in st.txns && st.txns[t] == txn && txn.pc.Ready?
    ensures WellFormed(st.db, txn.req)
  {
    hide GoodTxn, DbInvariant;
  }

  // Every interleaved run keeps the invariant and is matched, commit by
  // commit, by a serial run of atomic operations from the same database.
  lemma {:induction false} RunRefines(cat: Catalog, st: State, actions: seq<Action>, st': State)
    requires Inv(st) && Run(cat, st, actions, st')
    ensures Inv(st') && Serial(st.db, Commits(cat, st, actions), st'.db)
    decreases |actions|
  {
    if actions != [] {
      hide *;
      StepKeeps(cat, st, actions[0]);
      StepRefines(cat, st, actions[0]);
      RunRefines(cat, Next(cat, st, actions[0]), actions[1..], st');
      OneMoreStep(cat, st, actions, st');
    }
  }

  lemma OneMoreStep(cat: Catalog, st: State, actions: seq<Action>, st': State)
    requires actions != [] && Enabled(st, actions[0])
    requires if actions[0].Commit?
             then AtomicStep(st.db, Op(st.txns[actions[0].t].req, st.txns[actions[0].t].pc.out),
                             Next(cat, st, actions[0]).db)
             else Next(cat, st, actions[0]).db == st.db
    requires Serial(Next(cat, st, actions[0]).db, Commits(cat, Next(cat, st, actions[0]), actions[1..]), st'.db)
    ensures Serial(st.db, Commits(cat, st, actions), st'.db)
  {
    hide AtomicStep, Next;
    if actions[0].Commit? {
      assert Commits(cat, st, actions)[1..] == Commits(cat, Next(cat, st, actions[0]), actions[1..]);
    }
  }

  // Every committed state of every interleaved run: enrolledCount is the
  // number of ENROLLED rows, between 0 and capacity; one active row per
  // student and section; a distinct positive position exactly on WAITLISTED rows.
  lemma CommittedStatesHold(cat: Catalog, st: State, actions: seq<Action>, st': State, s: SectionId)
    requires Initial(st) && Run(cat, st, actions, st') && s in st'.db.sections
    ensures SeatInvariant(st'.db.sections[s])
  {
    InitialInv(st);
    RunRefines(cat, st, actions, st');
  }

  // No statement of any interleaved run trips the CHECK, and only a swap can
  // meet the partial unique index.
  lemma ConstraintsNeverTrip(cat: Catalog, st: State, actions: seq<Action>, st': State, t: TxnId)
    requires Initial(st) && Run(cat, st, actions, st') && t in st'.txns
    ensures st'.txns[t].pc != Failed(CHECK_VIOLATION)
    ensures st'.txns[t].pc == Failed(UNIQUE_VIOLATION) ==> st'.txns[t].req.Swap?
  {
    InitialInv(st);
    RunRefines(cat, st, actions, st');
    TxnNeverTrips(st'.db.sections, st'.txns[t]);
    hide GoodTxn, DbInvariant, Run, Serial, Commits;
  }

  lemma TxnNeverTrips(sections: map<SectionId, Section>, txn: Txn)
    ensures GoodTxn(sections, txn) && txn.pc.Failed? ==>
              txn.pc.code != CHECK_VIOLATION && (txn.pc.code == UNIQUE_VIOLATION ==> txn.req.Swap?)
  {
  }
}
