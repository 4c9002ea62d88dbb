// The promotion job queue beside the database: jobs coalesced by section id,
// enqueues that happen after the commit and can be lost, retries, and the
// periodic sweep that repairs lost wake-ups.
module PromotionQueue {
  import opened Registry
  import opened Waitlist
  import opened Operations
  import opened Seats
  import opened Serializability
  import opened Runs
  import opened Promotion

  const MAX_ATTEMPTS: nat := 5

  // A job known to the queue under a section's id. Active jobs are split at
  // the commit of their promotion transaction. A failed job is retained.
  datatype Job = Queued(tries: nat) | Delayed(tries: nat) | Running(tries: nat) | Done(tries: nat) | Retained {
    // It will still take the section lock and promote.
    predicate WillRun() { Queued? || Delayed? || Running? }
  }

  datatype Loss = COALESCED_AWAY | BLOCKED_BY_RETAINED | QUEUE_UNREACHABLE | RETRIES_EXHAUSTED | PROCESS_DIED

  // outstanding: enqueues due after a commit or by a sweep, not yet made.
  // losses: wake-ups lost since the section's last promotion run.
  datatype Sys = Sys(db: Db, now: nat, jobs: map<SectionId, Job>, outstanding: multiset<SectionId>,
                     losses: set<(SectionId, Loss)>)

  datatype Event =
    | Operate(req: Request, out: Outcome, after: Db)
    | Tick(later: nat)
    | Deliver(s: SectionId)
    | Lose(s: SectionId, why: Loss)
    | Sweep
    | Start(s: SectionId)
    | Run(s: SectionId)
    | Finish(s: SectionId)
    | Throw(s: SectionId)
    | Retry(s: SectionId)
    | Evict(s: SectionId)

  // queue.add with jobId = sectionId: ignored while any job has that id.
  function Added(jobs: map<SectionId, Job>, s: SectionId): map<SectionId, Job> {
    if s in jobs then jobs else jobs[s := Queued(0)]
  }

  function AddLoss(jobs: map<SectionId, Job>, s: SectionId): set<(SectionId, Loss)> {
    if s in jobs && jobs[s].Done? then {(s, COALESCED_AWAY)}
    else if s in jobs && jobs[s].Retained? then {(s, BLOCKED_BY_RETAINED)} else {}
  }

  // An open seat, a student waiting, registration not over.
  predicate Stuck(cat: Catalog, sections: map<SectionId, Section>, now: nat, s: SectionId) {
    s in sections && sections[s].cols.enrolledCount < sections[s].cols.capacity
    && Waiting(sections[s].rows) != {} && cat.closes(cat.term(s)) >= now
  }

  // The sweep's query also wants the term's own opening time to have passed.
  predicate Swept(cat: Catalog, sections: map<SectionId, Section>, now: nat, s: SectionId) {
    Stuck(cat, sections, now, s) && cat.opens(cat.term(s)) <= now
  }

  function SweptSet(cat: Catalog, sections: map<SectionId, Section>, now: nat): set<SectionId> {
    set s | s in sections && Swept(cat, sections, now, s)
  }

  // The section whose promotion is enqueued after a commit.
  function Wakes(db: Db, req: Request, out: Outcome): set<SectionId> {
    match out
    case DroppedRow(_, freed) =>
      var home := if req.Drop? then HomeOf(db.sections, req.id) else None;
      if freed && home.Some? then {home.value} else {}
    case SwappedTo(_, freed) =>
      var home := if req.Swap? then HomeOf(db.sections, req.id) else None;
      if freed && home.Some? then {home.value} else {}
    case EditedSection(increased) => if increased && req.Edit? then {req.section} else {}
    case _ => {}
  }

  ghost predicate Can(cat: Catalog, y: Sys, e: Event) {
    match e
    case Operate(req, out, after) => !req.Promote? && AtomicStep(y.db, Op(req, out), after)
    case Tick(later) => later >= y.now
    case Deliver(s) => s in y.outstanding
    case Lose(s, why) => s in y.outstanding && (why.QUEUE_UNREACHABLE? || why.PROCESS_DIED?)
    case Sweep => true
    case Start(s) => s in y.jobs && y.jobs[s].Queued?
    case Run(s) => s in y.jobs && y.jobs[s].Running?
    case Finish(s) => s in y.jobs && y.jobs[s].Done?
    case Throw(s) => s in y.jobs && (y.jobs[s].Running? || y.jobs[s].Done?)
    case Retry(s) => s in y.jobs && y.jobs[s].Delayed?
    case Evict(s) => s in y.jobs && y.jobs[s].Retained?
  }

  ghost function After(cat: Catalog, y: Sys, e: Event): Sys
    requires Can(cat, y, e)
  {
    match e
    case Operate(req, out, after) => y.(db := after, outstanding := y.outstanding + multiset(Wakes(y.db, req, out)))
    case Tick(later) => y.(now := later)
    case Deliver(s) =>
      y.(jobs := Added(y.jobs, s), outstanding := y.outstanding - multiset{s}, losses := y.losses + AddLoss(y.jobs, s))
    case Lose(s, why) => y.(outstanding := y.outstanding - multiset{s}, losses := y.losses + {(s, why)})
    case Sweep => y.(outstanding := y.outstanding + multiset(SweptSet(cat, y.db.sections, y.now)))
    case Start(s) => y.(jobs := y.jobs[s := Running(y.jobs[s].tries)])
    case Run(s) =>
      // The promotion transaction commits: it saw everything committed before it.
      y.(db := PromoteOp(cat, y.db, s, y.now).0, jobs := y.jobs[s := Done(y.jobs[s].tries)],
         losses := set l <- y.losses | l.0 != s)
    case Finish(s) => y.(jobs := y.jobs - {s})
    case Throw(s) =>
      if y.jobs[s].tries + 1 < MAX_ATTEMPTS then y.(jobs := y.jobs[s := Delayed(y.jobs[s].tries + 1)])
      else y.(jobs := y.jobs[s := Retained], losses := y.losses + {(s, RETRIES_EXHAUSTED)})
    case Retry(s) => y.(jobs := y.jobs[s := Queued(y.jobs[s].tries)])
    case Evict(s) => y.(jobs := y.jobs - {s})
  }

  // A wake-up for s is on its way, or is known to be lost.
  ghost predicate Attended(y: Sys, s: SectionId) {
    || (s in y.jobs && y.jobs[s].WillRun())
    || s in y.outstanding
    || exists why :: (s, why) in y.losses
  }

  ghost predicate QueueInv(cat: Catalog, y: Sys) {
    DbInvariant(y.db) && forall s :: Stuck(cat, y.db.sections, y.now, s) ==> Attended(y, s)
  }

  // An empty queue beside a database in order in which no section is stuck.
  ghost predicate Quiet(cat: Catalog, y: Sys) {
    && DbInvariant(y.db) && y.jobs == map[] && y.outstanding == multiset{} && y.losses == {}
    && forall s :: !Stuck(cat, y.db.sections, y.now, s)
  }

  // A promotion is enqueued for exactly the sections whose counter fell or whose
  // capacity rose.
  lemma WakesExact(db: Db, req: Request, out: Outcome, db': Db, s: SectionId)
    requires AtomicStep(db, Op(req, out), db')
    ensures s in Wakes(db, req, out) <==>
              s in db.sections && s in db'.sections
              && (db'.sections[s].cols.enrolledCount < db.sections[s].cols.enrolledCount
                  || db'.sections[s].cols.capacity > db.sections[s].cols.capacity)
  {
    hide HomeOf, Ordered, Seated, Released, Renumbered, NextPosition, Rank, Waiting, HolderRow, ActiveOf;
    hide PromotionEvents, PromotionNotes, ExpiryEvents, ExpiryNotes, WellFormed;
  }

  // --------------------------------------------- what can make a section stuck

  // An operation makes a section stuck only if it enqueues its promotion.
  ghost predicate NotWorse(sec: Section, sec': Section) {
    sec'.cols.enrolledCount < sec'.cols.capacity && Waiting(sec'.rows) != {} ==>
      sec.cols.enrolledCount < sec.cols.capacity && Waiting(sec.rows) != {}
  }

  lemma EnrollNotWorse(sec: Section, s: SectionId, x: StudentId, id: RowId)
    requires id !in sec.rows
    ensures NotWorse(sec, EnrollFx(sec, s, x, id).sec)
  {
    var fx := EnrollFx(sec, s, x, id);
    if fx.sec != sec && fx.sec.rows[id].status.ENROLLED? { assert Waiting(fx.sec.rows) == Waiting(sec.rows); }
    hide HolderRow, Rank, NextPosition;
  }

  lemma DropNotWorse(sec: Section, s: SectionId, id: RowId)
    requires id in sec.rows
    ensures DropFx(sec, s, id).out == DroppedRow(id, true) || NotWorse(sec, DropFx(sec, s, id).sec)
  {
    assert Waiting(DropFx(sec, s, id).sec.rows) <= Waiting(sec.rows);
  }

  lemma OtherNotWorse(sec: Section, s: SectionId, order: seq<RowId>, c: Option<int>, w: Option<Option<nat>>)
    requires SeatInvariant(sec)
    ensures NotWorse(sec, ReorderFx(sec, s, order).sec) && NotWorse(sec, ExpireFx(sec, s).sec)
    ensures EditFx(sec, s, c, w).out == EditedSection(true) || NotWorse(sec, EditFx(sec, s, c, w).sec)
  {
    hide SeatInvariant, Ordered, IndexOf, Released;
    ExpireKeeps(sec, s);
    assert Waiting(ReorderFx(sec, s, order).sec.rows) == Waiting(sec.rows);
  }

  lemma SwapNotWorse(db: Db, source: SectionId, req: Request, t: SectionId)
    requires req.Swap? && source in db.sections && req.target in db.sections && source != req.target && t in db.sections
    requires req.id in db.sections[source].rows && req.newId !in db.sections[req.target].rows
    ensures (t == source && db.sections[source].rows[req.id].status.ENROLLED?)
            || NotWorse(db.sections[t], SwapDb(db, source, req).sections[t])
  {
    var sec, sec' := db.sections[t], SwapDb(db, source, req).sections[t];
    if t == req.target { assert Waiting(sec'.rows) == Waiting(sec.rows); }
    if t == source { assert Waiting(sec'.rows) <= Waiting(sec.rows); }
  }

  // t is woken, or not worse off.
  ghost predicate Covered(db: Db, req: Request, out: Outcome, db': Db, t: SectionId)
    requires t in db.sections
  {
    t in Wakes(db, req, out) || (t in db'.sections && NotWorse(db.sections[t], db'.sections[t]))
  }

  lemma CoveredOne(db: Db, req: Request, s: SectionId, fx: Effect, out: Outcome, db': Db, t: SectionId)
    requires OneSection(db, s, fx, out, db') && t in db.sections
    requires s in Wakes(db, req, out) || NotWorse(db.sections[s], fx.sec)
    ensures Covered(db, req, out, db', t)
  {
    SameNotWorse(db.sections[t]);
    hide NotWorse, Wakes;
  }

  lemma CoveredNone(db: Db, req: Request, out: Outcome, t: SectionId)
    requires t in db.sections
    ensures Covered(db, req, out, db, t)
  {
  }

  lemma DropCovered(db: Db, req: Request, out: Outcome, db': Db, t: SectionId)
    requires req.Drop? && t in db.sections && HomeOf(db.sections, req.id).Some?
    requires var s := HomeOf(db.sections, req.id).value; OneSection(db, s, DropFx(db.sections[s], s, req.id), out, db')
    ensures Covered(db, req, out, db', t)
  {
    var s := HomeOf(db.sections, req.id).value;
    DropNotWorse(db.sections[s], s, req.id);
    hide NotWorse, DropFx, Covered, HomeOf;
    CoveredOne(db, req, s, DropFx(db.sections[s], s, req.id), out, db', t);
  }

  lemma SwapCovered(db: Db, req: Request, out: Outcome, db': Db, t: SectionId)
    requires req.Swap? && FreshId(db.sections, req.newId) && AtomicSwap(db, req, out, db') && t in db.sections
    ensures Covered(db, req, out, db', t)
  {
    hide NotWorse;
    if out.SameSection? {
      CoveredNone(db, req, out, t);
    } else {
      SwapNotWorse(db, HomeOf(db.sections, req.id).value, req, t);
    }
  }

  lemma SectionCovered(db: Db, req: Request, out: Outcome, db': Db, t: SectionId)
    requires DbInvariant(db) && t in db.sections && Atomic(db, req, out, db')
             && (req.Reorder? || req.Expire? || req.Edit?)
    ensures Covered(db, req, out, db', t)
  {
    DbSections(db);
    var s := req.section;
    if db' == db {
      CoveredNone(db, req, out, t);
    } else {
      OtherNotWorse(db.sections[s], s, if req.Reorder? then req.order else [], if req.Edit? then req.capacity else None,
                    if req.Edit? then req.waitlistCap else None);
      hide NotWorse, SeatInvariant, DbInvariant, ReorderFx, ExpireFx, EditFx, IdsUnique, Covered, OneSection;
      if req.Reorder? { CoveredOne(db, req, s, ReorderFx(db.sections[s], s, req.order), out, db', t); }
      else if req.Expire? { CoveredOne(db, req, s, ExpireFx(db.sections[s], s), out, db', t); }
      else {
        EditWakes(db, req, s, out, db');
        CoveredOne(db, req, s, EditFx(db.sections[s], s, req.capacity, req.waitlistCap), out, db', t);
      }
    }
  }

  lemma EditWakes(db: Db, req: Request, s: SectionId, out: Outcome, db': Db)
    requires req.Edit? && s == req.section && s in db.sections
    requires OneSection(db, s, EditFx(db.sections[s], s, req.capacity, req.waitlistCap), out, db')
    ensures EditFx(db.sections[s], s, req.capacity, req.waitlistCap).out == EditedSection(true) ==>
              s in Wakes(db, req, out)
  {
  }

  lemma OperateNotWorse(db: Db, req: Request, out: Outcome, db': Db, t: SectionId)
    requires DbInvariant(db) && !req.Promote? && AtomicStep(db, Op(req, out), db') && t in db.sections
    ensures Covered(db, req, out, db', t)
  {
    hide NotWorse, SeatInvariant, EnrollFx, DropFx, SwapDb, IdsUnique, Covered, DbInvariant;
    match req
    case Enroll(x, s, id) =>
      EnrollNotWorse(db.sections[s], s, x, id) by { assert FreshId(db.sections, id); }
      CoveredOne(db, req, s, EnrollFx(db.sections[s], s, x, id), out, db', t);
    case Drop(_) => DropCovered(db, req, out, db', t);
    case Swap(_, _, _, _) => SwapCovered(db, req, out, db', t);
    case _ => SectionCovered(db, req, out, db', t);
  }

  lemma SameNotWorse(sec: Section)
    ensures NotWorse(sec, sec)
  {
  }

  // ------------------------------------------------------------ the invariant

  lemma PromotedNotStuck(sec: Section, s: SectionId)
    requires SeatInvariant(sec)
    ensures var sec' := PromoteFx(sec, s).sec; sec'.cols.enrolledCount == sec'.cols.capacity || Waiting(sec'.rows) == {}
  {
    PromotionExact(sec, s);
    hide SeatInvariant, PromoteFx, Ordered, Waiting;
  }

  lemma RunUnsticks(cat: Catalog, db: Db, s: SectionId, now: nat)
    requires DbInvariant(db)
    ensures var db' := PromoteOp(cat, db, s, now).0;
            && DbInvariant(db') && !Stuck(cat, db'.sections, now, s)
            && forall t | t != s ::
                (t in db'.sections <==> t in db.sections) && (t in db.sections ==> db'.sections[t] == db.sections[t])
  {
    PromoteOpKeeps(cat, db, s, now);
    DbSections(db);
    hide SeatInvariant, DbInvariant, PromoteFx, Waiting, IdsUnique;
    if s in db.sections { PromotedNotStuck(db.sections[s], s); }
  }

  lemma OperateKeeps(cat: Catalog, y: Sys, e: Event)
    requires QueueInv(cat, y) && Can(cat, y, e) && e.Operate?
    ensures QueueInv(cat, After(cat, y, e))
  {
    var y' := After(cat, y, e);
    AtomicKeeps(y.db, e.req, e.out, e.after);
    assert y'.db.sections.Keys == y.db.sections.Keys;
    hide AtomicStep, DbInvariant, Waiting, Wakes, GrowsBy;
    forall s | Stuck(cat, y'.db.sections, y'.now, s)
      ensures Attended(y', s)
    {
      OperateNotWorse(y.db, e.req, e.out, e.after, s);
      if s !in Wakes(y.db, e.req, e.out) { AttendedStays(y, y', s); }
    }
  }

  lemma AttendedStays(y: Sys, y': Sys, s: SectionId)
    requires Attended(y, s) && y'.jobs == y.jobs && y.outstanding <= y'.outstanding && y.losses <= y'.losses
    ensures Attended(y', s)
  {
    if why :| (s, why) in y.losses { assert (s, why) in y'.losses; }
  }

  lemma RunKeeps(cat: Catalog, y: Sys, s: SectionId)
    requires QueueInv(cat, y) && s in y.jobs && y.jobs[s].Running?
    ensures QueueInv(cat, After(cat, y, Run(s)))
  {
    var y' := After(cat, y, Run(s));
    RunUnsticks(cat, y.db, s, y.now);
    hide DbInvariant, PromoteOp, Waiting;
    forall t | Stuck(cat, y'.db.sections, y'.now, t)
      ensures Attended(y', t)
    {
      assert t != s && Stuck(cat, y.db.sections, y.now, t) && Attended(y, t);
      if why :| (t, why) in y.losses { assert (t, why) in y'.losses; }
    }
  }

  // Every other event concerns one section's job, and leaves a wake-up in
  // place or records its loss.
  lemma JobEventAttends(cat: Catalog, y: Sys, e: Event, t: SectionId)
    requires Can(cat, y, e) && !e.Operate? && !e.Run? && Attended(y, t)
    ensures Attended(After(cat, y, e), t)
  {
    LossesStay(cat, y, e);
    if why :| (t, why) in y.losses {
      assert (t, why) in After(cat, y, e).losses;
      hide Can, After;
    } else {
      WakeUpStays(cat, y, e, t);
      hide Can, After;
    }
  }

  lemma WakeUpStays(cat: Catalog, y: Sys, e: Event, t: SectionId)
    requires Can(cat, y, e) && !e.Operate? && !e.Run? && Attended(y, t) && forall why :: (t, why) !in y.losses
    ensures Attended(After(cat, y, e), t)
  {
    hide AtomicStep, Wakes, SweptSet, PromoteOp;
    if e.Deliver? { DeliverAttends(cat, y, e, t); }
    else if e.Lose? { assert (e.s, e.why) in After(cat, y, e).losses; }
    else if e.Throw? { ThrowAttends(cat, y, e, t); }
  }

  lemma DeliverAttends(cat: Catalog, y: Sys, e: Event, t: SectionId)
    requires Can(cat, y, e) && e.Deliver? && Attended(y, t) && forall why :: (t, why) !in y.losses
    ensures Attended(After(cat, y, e), t)
  {
    if e.s == t && t in y.jobs { LossShows(y, After(cat, y, e), t); }
  }

  lemma ThrowAttends(cat: Catalog, y: Sys, e: Event, t: SectionId)
    requires Can(cat, y, e) && e.Throw? && Attended(y, t) && forall why :: (t, why) !in y.losses
    ensures Attended(After(cat, y, e), t)
  {
    assert !(y.jobs[e.s].tries + 1 < MAX_ATTEMPTS) ==> (e.s, RETRIES_EXHAUSTED) in After(cat, y, e).losses;
  }

  lemma LossesStay(cat: Catalog, y: Sys, e: Event)
    requires Can(cat, y, e) && !e.Run?
    ensures y.losses <= After(cat, y, e).losses
  {
    hide AtomicStep, Wakes, SweptSet, PromoteOp, AddLoss;
  }

  lemma LossShows(y: Sys, y': Sys, s: SectionId)
    requires s in y.jobs && y'.jobs == y.jobs && AddLoss(y.jobs, s) <= y'.losses
    ensures Attended(y', s)
  {
    if y.jobs[s].Done? { assert (s, COALESCED_AWAY) in y'.losses; }
    if y.jobs[s].Retained? { assert (s, BLOCKED_BY_RETAINED) in y'.losses; }
  }

  lemma StepAttends(cat: Catalog, y: Sys, e: Event)
    requires QueueInv(cat, y) && Can(cat, y, e)
    ensures QueueInv(cat, After(cat, y, e))
  {
    if e.Operate? { OperateKeeps(cat, y, e); }
    else if e.Run? { RunKeeps(cat, y, e.s); }
    else {
      var y' := After(cat, y, e);
      assert y'.db == y.db && y.now <= y'.now;
      hide DbInvariant, Waiting;
      forall t | Stuck(cat, y'.db.sections, y'.now, t)
        ensures Attended(y', t)
      {
        assert Stuck(cat, y.db.sections, y.now, t);
        JobEventAttends(cat, y, e, t);
      }
    }
  }

  ghost predicate History(cat: Catalog, y: Sys, events: seq<Event>, y': Sys)
    decreases |events|
  {
    if events == [] then y' == y else Can(cat, y, events[0]) && History(cat, After(cat, y, events[0]), events[1..], y')
  }

  lemma {:induction false} HistoryAttends(cat: Catalog, y: Sys, events: seq<Event>, y': Sys)
    requires QueueInv(cat, y) && History(cat, y, events, y')
    ensures QueueInv(cat, y')
    decreases |events|
  {
    if events != [] {
      StepAttends(cat, y, events[0]);
      hide QueueInv, Can, After;
      HistoryAttends(cat, After(cat, y, events[0]), events[1..], y');
    }
  }

  // No lost wake-up goes unrecorded: in every state reachable from a quiet
  // start a section with an open seat, a waiter and registration not over has a
  // job that will run, an enqueue outstanding, or a loss since its last run on
  // record.
  lemma NoSilentLoss(cat: Catalog, y: Sys, events: seq<Event>, y': Sys, s: SectionId)
    requires Quiet(cat, y) && History(cat, y, events, y')
    ensures DbInvariant(y'.db) && (Stuck(cat, y'.db.sections, y'.now, s) ==> Attended(y', s))
  {
    HistoryAttends(cat, y, events, y');
    hide DbInvariant, Stuck, Attended;
  }

  // ------------------------------------------------------------------ repair

  // The sweep finds exactly the stuck sections whose term has opened; one that
  // only a standing window opened early is left for later.
  lemma SweepFinds(cat: Catalog, y: Sys, s: SectionId)
    ensures s in After(cat, y, Sweep).outstanding - y.outstanding <==>
              Stuck(cat, y.db.sections, y.now, s) && cat.opens(cat.term(s)) <= y.now
  {
    var found := SweptSet(cat, y.db.sections, y.now);
    assert After(cat, y, Sweep).outstanding - y.outstanding == multiset(found);
  }

  // A job under s that will still take the lock and promote.
  predicate Awake(y: Sys, s: SectionId) { s in y.jobs && y.jobs[s].WillRun() }

  // A finished or a retained job holds the id, so an add is ignored.
  predicate Blocked(y: Sys, s: SectionId) { s in y.jobs && (y.jobs[s].Done? || y.jobs[s].Retained?) }

  predicate Hands(e: Event, s: SectionId) { (e.Deliver? || e.Lose?) && e.s == s }

  lemma {:induction false} StaysOutstanding(cat: Catalog, y: Sys, events: seq<Event>, y': Sys, s: SectionId)
    requires History(cat, y, events, y') && s in y.outstanding && (forall e <- events :: !Hands(e, s))
    ensures s in y'.outstanding
    decreases |events|
  {
    if events != [] {
      assert events[0] in events;
      assert s in After(cat, y, events[0]).outstanding by { hide Stuck, AtomicStep; }
      hide Can, After;
      StaysOutstanding(cat, After(cat, y, events[0]), events[1..], y', s);
    }
  }

  // How often the section's job has thrown.
  function Throws(events: seq<Event>, s: SectionId): nat {
    if events == [] then 0 else (if events[0] == Throw(s) then 1 else 0) + Throws(events[1..], s)
  }

  // A waiting job outlasts everything but its own run and its fifth throw.
  lemma {:induction false} StaysAwake(cat: Catalog, y: Sys, events: seq<Event>, y': Sys, s: SectionId)
    requires History(cat, y, events, y') && Awake(y, s) && (forall e <- events :: e != Run(s))
    requires y.jobs[s].tries + Throws(events, s) < MAX_ATTEMPTS
    ensures Awake(y', s) && y'.jobs[s].tries == y.jobs[s].tries + Throws(events, s)
    decreases |events|
  {
    if events != [] {
      assert events[0] in events && forall e <- events[1..] :: e in events;
      AwakeStep(cat, y, events[0], s);
      hide Can, After, Awake;
      StaysAwake(cat, After(cat, y, events[0]), events[1..], y', s);
    }
  }

  lemma AwakeStep(cat: Catalog, y: Sys, e: Event, s: SectionId)
    requires Can(cat, y, e) && Awake(y, s) && e != Run(s)
    requires y.jobs[s].tries + (if e == Throw(s) then 1 else 0) < MAX_ATTEMPTS
    ensures Awake(After(cat, y, e), s)
    ensures After(cat, y, e).jobs[s].tries == y.jobs[s].tries + (if e == Throw(s) then 1 else 0)
  {
    if !(e == Throw(s) || e == Start(s) || e == Retry(s)) { JobLeftAlone(cat, y, e, s); }
    hide AtomicStep, Wakes, SweptSet, AddLoss, PromoteOp, Added;
  }

  lemma JobLeftAlone(cat: Catalog, y: Sys, e: Event, s: SectionId)
    requires Can(cat, y, e) && Awake(y, s) && e !in {Run(s), Throw(s), Start(s), Retry(s)}
    ensures s in After(cat, y, e).jobs && After(cat, y, e).jobs[s] == y.jobs[s]
  {
    hide AtomicStep, Wakes, SweptSet, AddLoss, PromoteOp;
  }

  lemma RunSettles(cat: Catalog, db: Db, s: SectionId, now: nat)
    requires DbInvariant(db) && s in db.sections && cat.closes(cat.term(s)) >= now
    ensures Settled(PromoteOp(cat, db, s, now).0, s)
  {
    DbSections(db);
    hide SeatInvariant, DbInvariant, PromoteFx, Waiting, IdsUnique;
    PromotedNotStuck(db.sections[s], s);
  }

  ghost predicate Settled(db: Db, s: SectionId) {
    s in db.sections
    && (db.sections[s].cols.enrolledCount == db.sections[s].cols.capacity || Waiting(db.sections[s].rows) == {})
  }

  // What a sweep is good for. It finds s, and its enqueue is delivered, with
  // anything in between: a job that will run is then there exactly if no
  // finished or retained job holds the id. Anything may follow: the job keeps
  // its place until it runs, unless it throws five times. And whenever it runs
  // before registration is over, the section is full or its waitlist empty.
  lemma SweepRepairs(cat: Catalog, y: Sys, between: seq<Event>, y1: Sys, next: seq<Event>, y2: Sys, s: SectionId)
    requires QueueInv(cat, y) && Swept(cat, y.db.sections, y.now, s)
    requires History(cat, After(cat, y, Sweep), between, y1) && forall e <- between :: !Hands(e, s)
    ensures Can(cat, y1, Deliver(s)) && (Awake(After(cat, y1, Deliver(s)), s) <==> !Blocked(y1, s))
    ensures WaitsItsTurn(cat, After(cat, y1, Deliver(s)), next, y2, s)
            && RunsToSettle(cat, After(cat, y1, Deliver(s)), next, y2, s)
  {
    hide *;
    SweepDelivered(cat, y, between, y1, s);
    AwakeUntilRun(cat, After(cat, y1, Deliver(s)), next, y2, s);
    AnyRunSettles(cat, After(cat, y1, Deliver(s)), next, y2, s);
  }

  // After these events the job of s, if it was to run, still is.
  ghost predicate WaitsItsTurn(cat: Catalog, y: Sys, events: seq<Event>, y': Sys, s: SectionId) {
    (&& Awake(y, s) && History(cat, y, events, y') && (forall e <- events :: e != Run(s))
     && y.jobs[s].tries + Throws(events, s) < MAX_ATTEMPTS)
    ==> Awake(y', s)
  }

  // After these events a run of the job, if in time, settles the section.
  ghost predicate RunsToSettle(cat: Catalog, y: Sys, events: seq<Event>, y': Sys, s: SectionId) {
    (History(cat, y, events, y') && Can(cat, y', Run(s)) && y'.now <= cat.closes(cat.term(s)))
    ==> Settled(After(cat, y', Run(s)).db, s)
  }

  lemma SweepDelivered(cat: Catalog, y: Sys, between: seq<Event>, y1: Sys, s: SectionId)
    requires QueueInv(cat, y) && Swept(cat, y.db.sections, y.now, s)
    requires History(cat, After(cat, y, Sweep), between, y1) && forall e <- between :: !Hands(e, s)
    ensures Can(cat, y1, Deliver(s)) && (Awake(After(cat, y1, Deliver(s)), s) <==> !Blocked(y1, s))
    ensures QueueInv(cat, After(cat, y1, Deliver(s))) && s in After(cat, y1, Deliver(s)).db.sections
  {
    FoundBySweep(cat, y, s);
    hide *;
    StaysOutstanding(cat, After(cat, y, Sweep), between, y1, s);
    StepAttends(cat, y, Sweep);
    SectionsStay(cat, After(cat, y, Sweep), between, y1);
    HistoryAttends(cat, After(cat, y, Sweep), between, y1);
    DeliveredIff(cat, y1, s);
    StepAttends(cat, y1, Deliver(s));
  }

  lemma FoundBySweep(cat: Catalog, y: Sys, s: SectionId)
    requires Swept(cat, y.db.sections, y.now, s)
    ensures Can(cat, y, Sweep) && s in After(cat, y, Sweep).outstanding && s in After(cat, y, Sweep).db.sections
    ensures Blocked(After(cat, y, Sweep), s) == Blocked(y, s)
  {
    SweepFinds(cat, y, s);
    hide SweptSet, Waiting;
  }

  lemma DeliveredIff(cat: Catalog, y: Sys, s: SectionId)
    requires s in y.outstanding
    ensures Can(cat, y, Deliver(s)) && (Awake(After(cat, y, Deliver(s)), s) <==> !Blocked(y, s))
    ensures After(cat, y, Deliver(s)).db == y.db
  {
  }

  lemma AwakeUntilRun(cat: Catalog, y: Sys, events: seq<Event>, y': Sys, s: SectionId)
    ensures WaitsItsTurn(cat, y, events, y', s)
  {
    if Awake(y, s) && History(cat, y, events, y') && (forall e <- events :: e != Run(s))
       && y.jobs[s].tries + Throws(events, s) < MAX_ATTEMPTS {
      StaysAwake(cat, y, events, y', s);
    }
  }

  lemma LateRunSettles(cat: Catalog, y: Sys, s: SectionId)
    requires QueueInv(cat, y) && Can(cat, y, Run(s)) && s in y.db.sections && y.now <= cat.closes(cat.term(s))
    ensures Settled(After(cat, y, Run(s)).db, s)
  {
    assert DbInvariant(y.db);
    RunOf(cat, y, s);
    hide *;
    RunSettles(cat, y.db, s, y.now);
  }

  lemma RunOf(cat: Catalog, y: Sys, s: SectionId)
    requires Can(cat, y, Run(s))
    ensures After(cat, y, Run(s)).db == PromoteOp(cat, y.db, s, y.now).0
  {
    hide PromoteOp;
  }

  lemma AnyRunSettles(cat: Catalog, y: Sys, events: seq<Event>, y': Sys, s: SectionId)
    requires QueueInv(cat, y) && s in y.db.sections
    ensures RunsToSettle(cat, y, events, y', s)
  {
    if History(cat, y, events, y') && Can(cat, y', Run(s)) && y'.now <= cat.closes(cat.term(s)) {
      hide QueueInv, Can, After, Settled, History;
      SectionsStay(cat, y, events, y');
      HistoryAttends(cat, y, events, y');
      LateRunSettles(cat, y', s);
    }
  }

  lemma {:induction false} SectionsStay(cat: Catalog, y: Sys, events: seq<Event>, y': Sys)
    requires History(cat, y, events, y')
    ensures y'.db.sections.Keys == y.db.sections.Keys
    decreases |events|
  {
    if events != [] {
      EventSections(cat, y, events[0]);
      hide Can, After;
      SectionsStay(cat, After(cat, y, events[0]), events[1..], y');
    }
  }

  lemma EventSections(cat: Catalog, y: Sys, e: Event)
    requires Can(cat, y, e)
    ensures After(cat, y, e).db.sections.Keys == y.db.sections.Keys
  {
    hide Stuck, Waiting, EnrollFx, DropFx, PromoteFx, ReorderFx, ExpireFx, EditFx, HomeOf, Wakes, SweptSet, AddLoss;
    if e.Operate? {
      OperateSections(y.db, e.req, e.out, e.after);
      hide AtomicStep;
    } else {
      hide AtomicStep;
    }
  }

  lemma OperateSections(db: Db, req: Request, out: Outcome, db': Db)
    requires AtomicStep(db, Op(req, out), db')
    ensures db'.sections.Keys == db.sections.Keys
  {
    hide EnrollFx, DropFx, PromoteFx, ReorderFx, ExpireFx, EditFx, HomeOf;
  }

  // ------------------------------------------------- where the sweep is no use

  // A full section, a student in it and another waiting.
  ghost predicate FullWithWaiter(db: Db, s: SectionId, id: RowId) {
    && s in db.sections && db.sections[s].cols.enrolledCount == db.sections[s].cols.capacity
    && id in db.sections[s].rows && db.sections[s].rows[id].status.ENROLLED? && Waiting(db.sections[s].rows) != {}
  }

  // That student drops: the section is stuck until its job runs.
  lemma DropSticks(cat: Catalog, y: Sys, s: SectionId, id: RowId) returns (e: Event, y': Sys)
    requires Quiet(cat, y) && FullWithWaiter(y.db, s, id) && y.now <= cat.closes(cat.term(s))
    ensures Can(cat, y, e) && After(cat, y, e) == y' == Sys(y'.db, y.now, map[], multiset{s}, {})
    ensures forall t :: Stuck(cat, y'.db.sections, y'.now, t) <==> t == s
  {
    var after := Put(y.db, s, DropFx(y.db.sections[s], s, id));
    e := Operate(Drop(id), DroppedRow(id, true), after);
    y' := Sys(after, y.now, map[], multiset{s}, {});
    SeatFreed(cat, y.db, s, id, y.now);
    DropWakes(y.db, s, id);
    hide DbInvariant, Stuck, AtomicStep, Wakes, FullWithWaiter, DropFx;
    assert multiset{} + multiset({s}) == multiset{s};
  }

  lemma DropWakes(db: Db, s: SectionId, id: RowId)
    requires DbInvariant(db) && FullWithWaiter(db, s, id)
    ensures AtomicStep(db, Op(Drop(id), DroppedRow(id, true)), Put(db, s, DropFx(db.sections[s], s, id)))
    ensures Wakes(db, Drop(id), DroppedRow(id, true)) == {s}
  {
    HomeIs(db.sections, s, id);
    hide HomeOf, SeatInvariant, IdsUnique;
  }

  lemma SeatFreed(cat: Catalog, db: Db, s: SectionId, id: RowId, now: nat)
    requires FullWithWaiter(db, s, id) && now <= cat.closes(cat.term(s)) && forall t :: !Stuck(cat, db.sections, now, t)
    ensures forall t :: Stuck(cat, Put(db, s, DropFx(db.sections[s], s, id)).sections, now, t) <==> t == s
  {
    var after := Put(db, s, DropFx(db.sections[s], s, id));
    assert Waiting(after.sections[s].rows) == Waiting(db.sections[s].rows);
    hide Waiting;
    forall t
      ensures Stuck(cat, after.sections, now, t) <==> t == s
    {
      assert !Stuck(cat, db.sections, now, t);
    }
  }

  // Five throws retain the job. The section is stuck and swept, the enqueue is
  // delivered, and no job will run.
  lemma SweepBlocked(cat: Catalog, y: Sys, s: SectionId, id: RowId) returns (events: seq<Event>, y': Sys)
    requires Quiet(cat, y) && FullWithWaiter(y.db, s, id) && cat.opens(cat.term(s)) <= y.now <= cat.closes(cat.term(s))
    ensures History(cat, y, events, y') && Swept(cat, y'.db.sections, y'.now, s) && y'.outstanding == multiset{}
    ensures var swept := After(cat, y', Sweep);
            Can(cat, swept, Deliver(s)) && Blocked(swept, s) && !Awake(After(cat, swept, Deliver(s)), s)
  {
    hide Stuck, FullWithWaiter, Quiet, AtomicStep, Wakes;
    var e, y1 := DropSticks(cat, y, s, id);
    var y2 := Sys(y1.db, y1.now, map[s := Queued(0)], multiset{}, {});
    assert Can(cat, y1, Deliver(s)) && After(cat, y1, Deliver(s)) == y2;
    var rest;
    rest, y' := ThrowsOut(cat, y2, s, 0);
    events := [e, Deliver(s)] + rest;
    StuckIsSwept(cat, y', s);
    hide Can, After;
    assert events[1..][1..] == rest && History(cat, y1, events[1..], y');
  }

  // From its i-th try on the job throws every time.
  lemma {:induction false} ThrowsOut(cat: Catalog, y: Sys, s: SectionId, i: nat) returns (events: seq<Event>, y': Sys)
    requires i < MAX_ATTEMPTS && s in y.jobs && y.jobs[s] == Queued(i)
    ensures History(cat, y, events, y') && s in y'.jobs && y'.jobs[s] == Retained
    ensures y'.db == y.db && y'.now == y.now && y'.outstanding == y.outstanding
    decreases MAX_ATTEMPTS - i
  {
    var y1 := y.(jobs := y.jobs[s := Running(i)]);
    assert Can(cat, y, Start(s)) && After(cat, y, Start(s)) == y1 && Can(cat, y1, Throw(s));
    var y2 := After(cat, y1, Throw(s));
    if i + 1 < MAX_ATTEMPTS {
      assert Can(cat, y2, Retry(s));
      var rest;
      rest, y' := ThrowsOut(cat, After(cat, y2, Retry(s)), s, i + 1);
      events := [Start(s), Throw(s), Retry(s)] + rest;
      hide Can, After;
      assert events[1..][1..][1..] == rest && History(cat, y2, events[1..][1..], y')
             && History(cat, y1, events[1..], y');
    } else {
      events, y' := [Start(s), Throw(s)], y2;
      hide Can, After;
      assert History(cat, y2, events[1..][1..], y') && History(cat, y1, events[1..], y');
    }
  }

  lemma StuckIsSwept(cat: Catalog, y: Sys, s: SectionId)
    requires Stuck(cat, y.db.sections, y.now, s) && cat.opens(cat.term(s)) <= y.now && Blocked(y, s)
    ensures Swept(cat, y.db.sections, y.now, s)
    ensures var swept := After(cat, y, Sweep);
            Can(cat, swept, Deliver(s)) && Blocked(swept, s) && !Awake(After(cat, swept, Deliver(s)), s)
  {
    assert Swept(cat, y.db.sections, y.now, s);
    FoundBySweep(cat, y, s);
    DeliveredIff(cat, After(cat, y, Sweep), s);
    hide *;
  }

  // The section is open to a student by their standing's window while the term
  // itself has not opened. The enqueue is lost to an outage, and until the term
  // opens no sweep makes another.
  lemma SweepTooEarly(cat: Catalog, y: Sys, s: SectionId, id: RowId, student: StudentId)
    returns (events: seq<Event>, y': Sys)
    requires Quiet(cat, y) && FullWithWaiter(y.db, s, id)
    requires Gate(cat, student, s, y.now, false) == None && y.now < cat.opens(cat.term(s))
    ensures History(cat, y, events, y') && Stuck(cat, y'.db.sections, y'.now, s)
    ensures !Awake(y', s) && s !in y'.outstanding && (s, QUEUE_UNREACHABLE) in y'.losses
    ensures After(cat, y', Sweep) == y'
  {
    hide Stuck, FullWithWaiter, Quiet, AtomicStep, Wakes;
    var e, y1 := DropSticks(cat, y, s, id);
    var lose := Lose(s, QUEUE_UNREACHABLE);
    events, y' := [e, lose], Sys(y1.db, y1.now, map[], multiset{}, {(s, QUEUE_UNREACHABLE)});
    assert Can(cat, y1, lose) && After(cat, y1, lose) == y';
    assert SweptSet(cat, y'.db.sections, y'.now) == {};
    assert History(cat, y1, events[1..], y') by { assert History(cat, y', events[1..][1..], y'); hide Can, After; }
  }

  // Added for every section of a set.
  function AddedAll(jobs: map<SectionId, Job>, found: set<SectionId>): map<SectionId, Job> {
    map s | s in jobs.Keys + found :: if s in jobs then jobs[s] else Queued(0)
  }

  lemma AddedAllKeys(jobs: map<SectionId, Job>, found: set<SectionId>)
    ensures AddedAll(jobs, found).Keys == jobs.Keys + found
  {
  }

  lemma SweptAre(cat: Catalog, sections: map<SectionId, Section>, now: nat)
    ensures forall s :: s in SweptSet(cat, sections, now) <==>
              s in sections && sections[s].cols.enrolledCount < sections[s].cols.capacity
              && (exists id <- sections[s].rows :: sections[s].rows[id].status == WAITLISTED)
              && cat.opens(cat.term(s)) <= now <= cat.closes(cat.term(s))
  {
    forall s <- sections
      ensures Waiting(sections[s].rows) != {}
              <==> exists id <- sections[s].rows :: sections[s].rows[id].status == WAITLISTED
    {
      if id :| id in sections[s].rows && sections[s].rows[id].status == WAITLISTED {
        assert id in Waiting(sections[s].rows);
      }
    }
    hide Waiting;
  }

  lemma AddedAllNext(jobs: map<SectionId, Job>, found: set<SectionId>, s: SectionId)
    ensures AddedAll(jobs, {}) == jobs
    ensures Added(AddedAll(jobs, found), s) == AddedAll(jobs, found + {s})
  {
  }

  lemma AddedIs(before: map<SectionId, Job>, after: map<SectionId, Job>, s: SectionId)
    requires after.Keys == before.Keys + {s} && forall t <- before :: after[t] == before[t]
    requires s in before || after[s] == Queued(0)
    ensures after == Added(before, s)
  {
  }

  // ------------------------------------------------------- the service's code

  class JobQueue {
    var jobs: map<SectionId, Job>
    var enqueueFailures: nat
    var sweepRecoveries: nat

    constructor ()
      ensures jobs == map[] && enqueueFailures == 0 && sweepRecoveries == 0
    {
      jobs, enqueueFailures, sweepRecoveries := map[], 0, 0;
    }

    // An unreachable queue is counted, never raised: the commit already
    // happened. Otherwise a job is there under the id, and will run exactly if
    // no finished or retained one holds it; no other job is touched.
    method EnqueuePromotion(s: SectionId, reachable: bool)
      modifies this`jobs, this`enqueueFailures
      ensures jobs.Keys == if reachable then old(jobs).Keys + {s} else old(jobs).Keys
      ensures forall t <- old(jobs) :: jobs[t] == old(jobs)[t]
      ensures reachable ==> (jobs[s].WillRun() <==> !(s in old(jobs) && (old(jobs)[s].Done? || old(jobs)[s].Retained?)))
      ensures reachable && s !in old(jobs) ==> jobs[s] == Queued(0)
      ensures enqueueFailures == old(enqueueFailures) + if reachable then 0 else 1
    {
      if reachable {
        if s !in jobs { jobs := jobs[s := Queued(0)]; }
      } else {
        enqueueFailures := enqueueFailures + 1;
      }
    }

    // Re-enqueues every stuck section of an opened term, and nothing else.
    method SweepPromotable(cat: Catalog, sections: map<SectionId, Section>, now: nat, reachable: bool)
      modifies this
      ensures jobs == if reachable then AddedAll(old(jobs), SweptSet(cat, sections, now)) else old(jobs)
      ensures reachable ==> forall s :: s in jobs <==>
                s in old(jobs)
                || (s in sections && sections[s].cols.enrolledCount < sections[s].cols.capacity
                    && (exists id <- sections[s].rows :: sections[s].rows[id].status == WAITLISTED)
                    && cat.opens(cat.term(s)) <= now <= cat.closes(cat.term(s)))
      ensures sweepRecoveries == old(sweepRecoveries) + |SweptSet(cat, sections, now)|
      ensures enqueueFailures == old(enqueueFailures) + if reachable then 0 else |SweptSet(cat, sections, now)|
    {
      SweptAre(cat, sections, now);
      AddedAllKeys(jobs, SweptSet(cat, sections, now));
      hide *;
      var stuck := SweptSet(cat, sections, now);
      sweepRecoveries := sweepRecoveries + |stuck|;
      EnqueueAll(stuck, reachable);
    }

    method EnqueueAll(stuck: set<SectionId>, reachable: bool)
      modifies this`jobs, this`enqueueFailures
      ensures jobs == if reachable then AddedAll(old(jobs), stuck) else old(jobs)
      ensures enqueueFailures == old(enqueueFailures) + if reachable then 0 else |stuck|
    {
      hide *;
      var todo := stuck;
      AddedAllNext(jobs, {}, 0);
      assert stuck - todo == {};
      while todo != {}
        invariant todo <= stuck
        invariant jobs == if reachable then AddedAll(old(jobs), stuck - todo) else old(jobs)
        invariant enqueueFailures == old(enqueueFailures) + if reachable then 0 else |stuck| - |todo|
      {
        var s :| s in todo;
        AddedAllNext(old(jobs), stuck - todo, s);
        assert stuck - (todo - {s}) == stuck - todo + {s};
        todo := todo - {s};
        ghost var before := jobs;
        EnqueuePromotion(s, reachable);
        if reachable { AddedIs(before, jobs, s); }
      }
      assert stuck - todo == stuck;
    }
  }
}
