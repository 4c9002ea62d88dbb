// Deadlock freedom and termination of the interleaved machine.
module Liveness {
  import opened Registry
  import opened Waitlist
  import opened Operations
  import opened Seats
  import opened Machine
  import opened LocalSteps
  import opened Interleaving
  import opened Serializability
  import opened Runs

  // ------------------------------------------------------------- deadlock

  // t is blocked on a section lock that u holds.
  ghost predicate WaitsFor(st: State, t: TxnId, u: TxnId) {
    t in st.txns && Wants(st.txns[t]).Some? && Wants(st.txns[t]).value in st.locks
    && st.locks[Wants(st.txns[t]).value] == u
  }

  // Whoever holds one lock and wants another wants a greater one.
  lemma WantsGreater(sections: map<SectionId, Section>, txn: Txn, s: SectionId)
    requires GoodTxn(sections, txn) && Wants(txn).Some? && s in txn.held
    ensures s < Wants(txn).value
  {
    assert BetweenLocks(sections, txn);
  }

  lemma WaitsIncrease(st: State, t: TxnId, u: TxnId)
    requires Inv(st) && WaitsFor(st, t, u) && u in st.txns && Wants(st.txns[u]).Some?
    ensures Wants(st.txns[t]).value < Wants(st.txns[u]).value
  {
    var s := Wants(st.txns[t]).value;
    assert s in st.locks && s in st.txns[u].held;
    assert GoodTxn(st.db.sections, st.txns[u]);
    hide GoodTxn, Wants;
    WantsGreater(st.db.sections, st.txns[u], s);
  }

  ghost predicate WaitChain(st: State, path: seq<TxnId>) {
    forall i | 0 <= i < |path| - 1 :: WaitsFor(st, path[i], path[i + 1])
  }

  // The waits-for relation has no cycle in any reachable state.
  lemma {:induction false} NoWaitCycle(st: State, path: seq<TxnId>)
    requires Inv(st) && |path| >= 2 && WaitChain(st, path)
    ensures path[0] != path[|path| - 1]
  {
    hide Wants, Inv;
    var n := |path| - 1;
    ChainIncreases(st, path, n - 1);
    assert WaitsFor(st, path[n - 1], path[n]);
    if path[0] == path[n] { WaitsIncrease(st, path[n - 1], path[n]); }
  }

  lemma {:induction false} ChainIncreases(st: State, path: seq<TxnId>, i: nat)
    requires Inv(st) && i < |path| - 1 && WaitChain(st, path)
    ensures WaitsFor(st, path[0], path[1]) && WaitsFor(st, path[i], path[i + 1])
    ensures Wants(st.txns[path[0]]).value <= Wants(st.txns[path[i]]).value
  {
    hide Wants, Inv;
    assert WaitsFor(st, path[0], path[1]) && WaitsFor(st, path[i], path[i + 1]);
    if i > 0 {
      ChainIncreases(st, path, i - 1);
      assert WaitsFor(st, path[i - 1], path[i]);
      WaitsIncrease(st, path[i - 1], path[i]);
    }
  }

  // A step of t's own: not a new arrival, and a rollback only after a failure.
  ghost predicate OwnStep(st: State, a: Action) {
    && !a.Begin? && Enabled(st, a)
    && (a.Rollback? ==> st.txns[a.t].pc.Failed?)
  }

  function StepOf(t: TxnId, txn: Txn): Action {
    if Wants(txn).Some? then Acquire(t)
    else if txn.pc.Ready? then Commit(t)
    else if txn.pc.Failed? then Rollback(t)
    else Statement(t, 0, false)
  }

  lemma Unblocked(st: State, t: TxnId)
    requires t in st.txns && st.txns[t].Unfinished()
    requires Wants(st.txns[t]).Some? ==> Wants(st.txns[t]).value !in st.locks
    ensures OwnStep(st, StepOf(t, st.txns[t]))
  {
  }

  lemma HolderUnfinished(st: State, s: SectionId)
    requires Inv(st) && s in st.locks
    ensures st.locks[s] in st.txns && st.txns[st.locks[s]].Unfinished() && s in st.db.sections
  {
    assert GoodTxn(st.db.sections, st.txns[st.locks[s]]);
  }

  // Some transaction can always step: follow the waits-for chain upwards.
  lemma {:induction false} SomeoneCanStep(st: State, t: TxnId, bound: nat) returns (a: Action)
    requires Inv(st) && t in st.txns && st.txns[t].Unfinished()
    requires forall s <- st.db.sections :: s < bound
    ensures OwnStep(st, a)
    decreases if Wants(st.txns[t]).Some? && Wants(st.txns[t]).value in st.locks
              then bound - Wants(st.txns[t]).value else 0
  {
    var txn := st.txns[t];
    if Wants(txn).Some? && Wants(txn).value in st.locks {
      var s := Wants(txn).value;
      HolderUnfinished(st, s);
      var u := st.locks[s];
      if Wants(st.txns[u]).Some? {
        assert WaitsFor(st, t, u);
        WaitsIncrease(st, t, u);
      }
      hide Wants, Inv;
      if Wants(st.txns[u]).Some? && Wants(st.txns[u]).value in st.locks {
        HolderUnfinished(st, Wants(st.txns[u]).value);
      }
      a := SomeoneCanStep(st, u, bound);
    } else {
      Unblocked(st, t);
      a := StepOf(t, txn);
    }
  }

  // ---------------------------------------------------------- termination

  // Statements still to run before the last lock is held.
  ghost function Ahead(t: Txn): nat {
    match t.pc
    case Enrolling(e) => if e.EnrollGate? then 2 else if e.EnrollLock? then 1 else 0
    case Dropping(d) => if d.DropRead? then 2 else if d.DropLock? then 1 else 0
    case Swapping(w) =>
      if w.SwapRead? then 4 else if w.SwapGate? then 3 else if w.SwapLock1? then 2 else if w.SwapLock2? then 1 else 0
    case Promoting(p) => if p.PromoteLock? then 1 else 0
    case Reordering(r) => if r.ReorderLock? then 1 else 0
    case Expiring(x) => if x.ExpireLock? then 1 else 0
    case Editing(u) => if u.EditLock? then 1 else 0
    case _ => 0
  }

  ghost function EnrollLeft(e: EnrollPc): nat {
    match e
    case EnrollGate => 0 case EnrollLock => 0
    case EnrollActive(_) => 12 case EnrollDup(_) => 11 case EnrollPrereq(_) => 10
    case EnrollMine(_) => 9 case EnrollOverload(_, _) => 8
    case EnrollInsert(_) => 4 case EnrollBump => 3 case EnrollAudit(_) => 2
    case QueueCount(_) => 7 case QueuePosition => 6 case QueueInsert(_) => 5 case QueueRank(_) => 4
    case QueueAudit(_, _) => 3
  }

  ghost function SwapLeft(w: SwapPc): nat {
    match w
    case SwapRead => 0 case SwapGate => 0 case SwapLock1 => 0 case SwapLock2 => 0
    case SwapReread => 13 case SwapTarget(_) => 12 case SwapDup(_) => 11 case SwapPrereq(_) => 10
    case SwapMine(_) => 9 case SwapOverload(_, _) => 8 case SwapMark(_) => 7 case SwapDec(_) => 6
    case SwapInsert(_) => 5 case SwapInc(_) => 4 case SwapAudit(_) => 3
  }

  ghost function PromoteLeft(p: PromotePc, n: nat): nat {
    match p
    case PromoteLock => 0
    case PromoteGate(_) => 4 * n + 4
    case PromotePick(_, k) => if k <= n then 4 * (n - k) + 3 else 0
    case PromoteMark(_, k, _, _) => if k < n then 4 * (n - k) + 2 else 0
    case PromoteNote(_, k, _, _) => if k < n then 4 * (n - k) + 1 else 0
    case PromoteAudit(_, k, _, _) => if k < n then 4 * (n - k) else 0
    case PromoteSave(_, _) => 2
  }

  ghost function ReorderLeft(r: ReorderPc, n: nat): nat {
    match r
    case ReorderLock => 0
    case ReorderRead => n + 4
    case ReorderWrite(_, i) => if i <= n then n - i + 3 else 0
    case ReorderAudit(_) => 2
  }

  ghost function ExpireLeft(x: ExpirePc, n: nat): nat {
    match x
    case ExpireLock => 0
    case ExpireRead => 3 * n + 3
    case ExpireMark(_, i) => if i <= n then 3 * (n - i) + 2 else 0
    case ExpireAudit(_, i) => if i < n then 3 * (n - i) + 1 else 0
    case ExpireNote(_, i) => if i < n then 3 * (n - i) else 0
  }

  // Statements still to run once it is held; waiters bounds the loops.
  ghost function Left(t: Txn, waiters: nat): nat {
    match t.pc
    case Enrolling(e) => EnrollLeft(e)
    case Dropping(d) =>
      (match d case DropReread => 5 case DropMark(_) => 4 case DropCount(_) => 3 case DropAudit(_) => 2 case _ => 0)
    case Swapping(w) => SwapLeft(w)
    case Promoting(p) => PromoteLeft(p, waiters)
    case Reordering(r) => ReorderLeft(r, if t.req.Reorder? then |t.req.order| else 0)
    case Expiring(x) => ExpireLeft(x, waiters)
    case Editing(u) => (match u case EditLock => 0 case EditWrite(_) => 4 case EditAudit(_) => 3 case EditTally(_) => 2)
    case Ready(_) => 1
    case Failed(_) => 1
    case Committed(_) => 0
    case Aborted(_) => 0
  }

  // The waitlist length a transaction's loops run over; 0 before its lock.
  ghost function Length(sections: map<SectionId, Section>, t: Txn): nat {
    if t.home in t.held && t.home in sections then |Ordered(sections[t.home].rows)| else 0
  }

  ghost predicate Shrinks(sections: map<SectionId, Section>, t: Txn, sections': map<SectionId, Section>, t': Txn) {
    || Ahead(t') < Ahead(t)
    || (Ahead(t') == Ahead(t) && Left(t', Length(sections', t')) < Left(t, Length(sections, t)))
  }

  lemma EnrollShrinks(cat: Catalog, sections: map<SectionId, Section>, t: Txn, e: EnrollPc, now: nat, hold: bool)
    requires t.req.Enroll? && t.pc == Enrolling(e) && !e.EnrollLock?
    ensures Shrinks(sections, t, sections, ExecEnroll(cat, sections, t, e, now, hold))
  {
    hide View, ViewAll, Others, OthersInTerm, DuplicateCourse, PrerequisitesMet, ClashesWith, CreditSum, Gate;
    hide HolderRow, ActiveOf, HomeOf, Length, Rank, NextPosition, AlreadyOutcome;
  }

  lemma SwapShrinks(cat: Catalog, sections: map<SectionId, Section>, t: Txn, w: SwapPc, now: nat, hold: bool)
    requires t.req.Swap? && t.pc == Swapping(w) && !w.SwapLock1? && !w.SwapLock2?
    ensures Shrinks(sections, t, sections, ExecSwap(cat, sections, t, w, now, hold))
  {
    hide ExecSwapRead, ExecSwapWrites, ExecSwapChecks;
    if w.SwapRead? { SwapReadShrinks(sections, t); }
    else if t.home !in sections || t.req.target !in sections { }
    else if SwapWriting(w) { SwapWritesShrink(sections, t, w); }
    else { SwapChecksShrink(cat, sections, t, w, now, hold); }
  }

  lemma SwapReadShrinks(sections: map<SectionId, Section>, t: Txn)
    requires t.req.Swap? && t.pc == Swapping(SwapRead)
    ensures Shrinks(sections, t, sections, ExecSwapRead(sections, t))
  {
    hide HomeOf, Length;
  }

  lemma SwapChecksShrink(cat: Catalog, sections: map<SectionId, Section>, t: Txn, w: SwapPc, now: nat, hold: bool)
    requires t.req.Swap? && t.pc == Swapping(w) && !w.SwapLock1? && !w.SwapLock2? && !w.SwapRead? && !SwapWriting(w)
    requires t.home in sections && t.req.target in sections
    ensures Shrinks(sections, t, sections, ExecSwapChecks(cat, sections, t, w, now, hold))
  {
    hide OverLimit, Seen, View, ViewAll, Others, OthersInTerm, DuplicateCourse, PrerequisitesMet, ClashesWith;
    hide CreditSum, Gate, Length;
  }

  lemma SwapWritesShrink(sections: map<SectionId, Section>, t: Txn, w: SwapPc)
    requires t.req.Swap? && t.pc == Swapping(w) && SwapWriting(w) && t.home in sections && t.req.target in sections
    ensures Shrinks(sections, t, sections, ExecSwapWrites(sections, t, w))
  {
    hide CheckHolds, Release, View, ActiveOf, Length;
  }

  lemma DropShrinks(sections: map<SectionId, Section>, t: Txn, d: DropPc)
    requires t.req.Drop? && t.pc == Dropping(d) && !d.DropLock?
    ensures Shrinks(sections, t, sections, ExecDrop(sections, t, d))
  {
    hide View, ViewAll, Others, OthersInTerm, DuplicateCourse, PrerequisitesMet, ClashesWith, CreditSum, Gate;
    hide HolderRow, ActiveOf, HomeOf, Length, Rank, NextPosition, AlreadyOutcome;
  }

  lemma EditShrinks(sections: map<SectionId, Section>, t: Txn, u: EditPc)
    requires t.req.Edit? && t.pc == Editing(u) && !u.EditLock?
    ensures Shrinks(sections, t, sections, ExecEdit(sections, t, u))
  {
    hide View, ViewAll, Others, OthersInTerm, DuplicateCourse, PrerequisitesMet, ClashesWith, CreditSum, Gate;
    hide HolderRow, ActiveOf, HomeOf, Length, Rank, NextPosition, AlreadyOutcome;
  }

  lemma PromoteShrinks(cat: Catalog, sections: map<SectionId, Section>, t: Txn, p: PromotePc, now: nat)
    requires t.req.Promote? && t.home == t.req.section && t.pc == Promoting(p) && !p.PromoteLock?
    requires t.held == {t.home} && t.home in sections && GoodPromote(sections[t.home], t.home, p, t.writes)
    ensures Shrinks(sections, t, sections, ExecPromote(cat, sections, t, p, now))
  {
    hide GoodPromote, View, Ordered, Waiting;
    PromoteFacts(sections[t.home], t.home, p, t.writes);
  }

  // What the loop counter and the view say about each other.
  lemma PromoteFacts(sec: Section, s: SectionId, p: PromotePc, ws: seq<Write>)
    requires GoodPromote(sec, s, p, ws)
    ensures var n, rows := |Ordered(sec.rows)|, View(sec, s, ws).rows;
            && (p.PromotePick? ==> p.k <= n && (p.k < n <==> Waiting(rows) != {}))
            && (p.PromoteMark? || p.PromoteNote? || p.PromoteAudit? ==> p.k < n && p.id in rows)
  {
    if p.PromotePick? { NextPick(sec.rows, p.k); }
  }

  lemma ReorderShrinks(sections: map<SectionId, Section>, t: Txn, r: ReorderPc)
    requires t.req.Reorder? && t.home == t.req.section && t.pc == Reordering(r) && !r.ReorderLock?
    requires t.home in sections && GoodReorder(sections[t.home], t.home, t.req.order, r, t.writes)
    ensures Shrinks(sections, t, sections, ExecReorder(sections, t, r))
  {
    hide View, Wrote, Ordered, EventsOf, NotesOf, Length, Waiting;
  }

  lemma ExpireShrinks(sections: map<SectionId, Section>, t: Txn, x: ExpirePc)
    requires t.req.Expire? && t.home == t.req.section && t.pc == Expiring(x) && !x.ExpireLock?
    requires t.held == {t.home} && t.home in sections && GoodExpire(sections[t.home], t.home, x, t.writes)
    ensures Shrinks(sections, t, sections, ExecExpire(sections, t, x))
  {
    hide GoodExpire, View, Ordered, Waiters;
    ExpireFacts(sections[t.home], t.home, x, t.writes);
  }

  lemma ExpireFacts(sec: Section, s: SectionId, x: ExpirePc, ws: seq<Write>)
    requires GoodExpire(sec, s, x, ws)
    ensures var n, rows := |Ordered(sec.rows)|, View(sec, s, ws).rows;
            && (x.ExpireRead? ==> |Waiters(rows)| == n)
            && (x.ExpireMark? ==> x.i <= n && |x.list| == n && (x.i < n ==> x.list[x.i].id in rows))
            && (x.ExpireAudit? || x.ExpireNote? ==> x.i < n && |x.list| == n)
  {
    NoWrites(sec, s);
    assert |Waiters(sec.rows)| == |Ordered(sec.rows)|;
  }

  // Every statement brings its own transaction closer to its end.
  lemma StatementShrinks(cat: Catalog, sections: map<SectionId, Section>, t: Txn, now: nat, hold: bool)
    requires GoodTxn(sections, t) && Stepping(t)
    ensures Shrinks(sections, t, sections, Exec(cat, sections, t, now, hold))
  {
    hide ExecEnroll, ExecDrop, ExecSwap, ExecPromote, ExecReorder, ExecExpire, ExecEdit, Shrinks, WritesIn;
    hide GoodEnroll, GoodDrop, GoodSwap, GoodPromote, GoodReorder, GoodExpire, GoodEdit;
    match t.pc
    case Enrolling(e) => EnrollShrinks(cat, sections, t, e, now, hold);
    case Dropping(d) => DropShrinks(sections, t, d);
    case Swapping(w) => SwapShrinks(cat, sections, t, w, now, hold);
    case Promoting(p) => PromoteShrinks(cat, sections, t, p, now);
    case Reordering(r) => ReorderShrinks(sections, t, r);
    case Expiring(x) => ExpireShrinks(sections, t, x);
    case Editing(u) => EditShrinks(sections, t, u);
  }

  // ---------------------------------------------------------- the whole run

  ghost function Sum(m: map<TxnId, nat>): nat
    decreases m.Keys
  {
    if m == map[] then 0 else
      var k :| k in m;
      m[k] + Sum(m - {k})
  }

  lemma {:induction false} SumRemove(m: map<TxnId, nat>, k: TxnId)
    requires k in m
    ensures Sum(m) == m[k] + Sum(m - {k})
    decreases m.Keys
  {
    var j :| j in m && Sum(m) == m[j] + Sum(m - {j});
    if j != k {
      SumRemove(m - {j}, k);
      SumRemove(m - {k}, j);
      assert m - {j} - {k} == m - {k} - {j};
    }
  }

  lemma SumUpdate(m: map<TxnId, nat>, k: TxnId, v: nat)
    requires k in m
    ensures Sum(m[k := v]) == Sum(m) - m[k] + v
  {
    SumRemove(m, k);
    SumRemove(m[k := v], k);
    assert m[k := v] - {k} == m - {k};
  }

  ghost function AllAhead(st: State): map<TxnId, nat> { map t | t in st.txns :: Ahead(st.txns[t]) }

  ghost function AllLeft(st: State): map<TxnId, nat> {
    map t | t in st.txns :: Left(st.txns[t], Length(st.db.sections, st.txns[t]))
  }

  // Only the stepping transaction's own measure changes.
  lemma OthersKeepMeasure(cat: Catalog, st: State, a: Action, u: TxnId)
    requires Inv(st) && Enabled(st, a) && !a.Begin? && u in st.txns && u != a.t
    ensures var st' := Next(cat, st, a);
            u in st'.txns && st'.txns[u] == st.txns[u]
            && Length(st'.db.sections, st'.txns[u]) == Length(st.db.sections, st.txns[u])
  {
    hide DbInvariant, IdsKnown, CommitDb, Atomic, Ordered, RowsGrow, Exec, Wants, Locked, Missing, Unlock;
    if a.Commit? {
      CommitEffect(st, a.t, st.txns[a.t]);
      TxnLocks(st, u, a.t);
    }
  }

  lemma LockShrinks(txn: Txn, s: SectionId, cols: Columns)
    requires Wants(txn) == Some(s)
    ensures Ahead(Locked(txn, s, cols)) < Ahead(txn) && Ahead(Missing(txn)) < Ahead(txn)
  {
  }

  lemma StatementOwn(cat: Catalog, st: State, a: Action, txn: Txn)
    requires Inv(st) && OwnStep(st, a) && st.txns[a.t] == txn && a.Statement?
    ensures var st' := Next(cat, st, a);
            a.t in st'.txns && Shrinks(st.db.sections, txn, st'.db.sections, st'.txns[a.t])
  {
    assert GoodTxn(st.db.sections, txn);
    hide Inv, GoodTxn, Shrinks, Exec;
    StatementShrinks(cat, st.db.sections, txn, a.now, a.hold);
  }

  lemma AcquireOwn(cat: Catalog, st: State, a: Action, txn: Txn)
    requires Inv(st) && OwnStep(st, a) && st.txns[a.t] == txn && a.Acquire?
    ensures var st' := Next(cat, st, a);
            a.t in st'.txns && Shrinks(st.db.sections, txn, st'.db.sections, st'.txns[a.t])
  {
    hide Inv, Wants, Locked, Missing, Ahead, Left, Length;
    var s := Wants(txn).value;
    LockShrinks(txn, s, if s in st.db.sections then st.db.sections[s].cols else Columns(0, 0, None));
  }

  lemma EndOwn(cat: Catalog, st: State, a: Action, txn: Txn)
    requires Inv(st) && OwnStep(st, a) && st.txns[a.t] == txn && (a.Commit? || a.Rollback?)
    ensures var st' := Next(cat, st, a);
            a.t in st'.txns && Shrinks(st.db.sections, txn, st'.db.sections, st'.txns[a.t])
  {
    hide Inv, Length, CommitDb, Unlock;
  }

  lemma OwnShrinks(cat: Catalog, st: State, a: Action, txn: Txn)
    requires Inv(st) && OwnStep(st, a) && st.txns[a.t] == txn
    ensures var st' := Next(cat, st, a);
            a.t in st'.txns && Shrinks(st.db.sections, txn, st'.db.sections, st'.txns[a.t])
  {
    hide Inv, Next, Shrinks, Enabled;
    match a
    case Statement(_, _, _) => StatementOwn(cat, st, a, txn);
    case Acquire(_) => AcquireOwn(cat, st, a, txn);
    case _ => EndOwn(cat, st, a, txn);
  }

  lemma MeasureMove(st: State, t: TxnId, st': State)
    requires t in st.txns && st'.txns.Keys == st.txns.Keys
    requires forall u <- st.txns | u != t ::
               st'.txns[u] == st.txns[u] && Length(st'.db.sections, st'.txns[u]) == Length(st.db.sections, st.txns[u])
    requires Shrinks(st.db.sections, st.txns[t], st'.db.sections, st'.txns[t])
    ensures Sum(AllAhead(st')) < Sum(AllAhead(st))
            || (Sum(AllAhead(st')) == Sum(AllAhead(st)) && Sum(AllLeft(st')) < Sum(AllLeft(st)))
  {
    hide Ahead, Left, Length;
    var ahead, left := Ahead(st'.txns[t]), Left(st'.txns[t], Length(st'.db.sections, st'.txns[t]));
    assert AllAhead(st') == AllAhead(st)[t := ahead];
    assert AllLeft(st') == AllLeft(st)[t := left];
    SumUpdate(AllAhead(st), t, ahead);
    SumUpdate(AllLeft(st), t, left);
  }

  // Every step that is not a new arrival decreases the lexicographic pair
  // (statements before locks, statements under locks), summed over all
  // transactions; so without arrivals no run goes on forever.
  lemma EveryStepDecreases(cat: Catalog, st: State, a: Action)
    requires Inv(st) && OwnStep(st, a)
    ensures var st' := Next(cat, st, a);
            Sum(AllAhead(st')) < Sum(AllAhead(st))
            || (Sum(AllAhead(st')) == Sum(AllAhead(st)) && Sum(AllLeft(st')) < Sum(AllLeft(st)))
  {
    hide Inv, Exec, CommitDb, Wants, Missing, Locked, Unlock, Shrinks, Length;
    var st' := Next(cat, st, a);
    assert st'.txns.Keys == st.txns.Keys;
    OwnShrinks(cat, st, a, st.txns[a.t]);
    hide Next;
    forall u <- st.txns | u != a.t
      ensures st'.txns[u] == st.txns[u] && Length(st'.db.sections, st'.txns[u]) == Length(st.db.sections, st.txns[u])
    {
      OthersKeepMeasure(cat, st, a, u);
    }
    hide Enabled, AllAhead, AllLeft, Length;
    MeasureMove(st, a.t, st');
  }

  ghost predicate AllDone(st: State) { forall t <- st.txns :: !st.txns[t].Unfinished() }

  // From every reachable state the transactions in flight can all be run to
  // their ends.
  lemma {:induction false} Drains(cat: Catalog, st: State, bound: nat) returns (actions: seq<Action>, st': State)
    requires Inv(st) && forall s <- st.db.sections :: s < bound
    ensures Run(cat, st, actions, st') && AllDone(st') && forall a <- actions :: !a.Begin?
    decreases Sum(AllAhead(st)), Sum(AllLeft(st))
  {
    if AllDone(st) {
      actions, st' := [], st;
    } else {
      var t :| t in st.txns && st.txns[t].Unfinished();
      var a := SomeoneCanStep(st, t, bound);
      StepKeeps(cat, st, a);
      EveryStepDecreases(cat, st, a);
      SectionsStay(cat, st, a);
      hide Inv, Next, Enabled, AllAhead, AllLeft;
      var rest;
      rest, st' := Drains(cat, Next(cat, st, a), bound);
      actions := [a] + rest;
      assert actions[1..] == rest;
    }
  }

  lemma SectionsStay(cat: Catalog, st: State, a: Action)
    requires Enabled(st, a)
    ensures Next(cat, st, a).db.sections.Keys == st.db.sections.Keys
  {
  }
}
