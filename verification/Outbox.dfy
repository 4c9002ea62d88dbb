// The audit outbox and its drain to Mongo: batches inserted one document at a
// time, unordered, by any number of overlapping drainers that may fail or die
// between any two steps; rows commit out of id order; drained rows are purged.
module Outbox {
  import opened Registry

  const BATCH_SIZE: nat := 200

  type OutboxId = nat

  // An audit_outbox row.
  datatype Stored = Stored(payload: Event, drainedAt: Option<nat>)

  datatype Doc = Doc(outboxId: OutboxId, payload: Event)

  // Between a batch read and its marking: documents tried, and whether any
  // failed for a reason other than a duplicate key.
  datatype Drainer = Idle | Inserting(batch: seq<Doc>, tried: set<nat>, failed: bool)

  // committed: every row ever committed, for reference only.
  datatype Sys = Sys(table: map<OutboxId, Stored>, mongo: seq<Doc>, drainers: map<nat, Drainer>,
                     committed: map<OutboxId, Event>)

  datatype Step =
    | CommitRow(id: OutboxId, payload: Event)
    | ReadBatch(d: nat)
    | InsertDoc(d: nat, k: nat, ok: bool)
    | MarkDrained(d: nat, now: nat)
    | GiveUp(d: nat)
    | Purge(cutoff: nat)

  function Undrained(table: map<OutboxId, Stored>): set<OutboxId> {
    set id | id in table && table[id].drainedAt.None?
  }

  // The n lowest ids, ascending.
  function LowestIds(s: set<OutboxId>, n: nat): (ids: seq<OutboxId>)
    ensures |ids| == (if n < |s| then n else |s|)
    ensures (forall id <- ids :: id in s) && Distinct(ids)
    decreases n
  {
    if n == 0 || s == {} then [] else
      var x := LeastOf(s);
      var rest := LowestIds(s - {x}, n - 1);
      assert forall id <- rest :: id in s - {x};
      [x] + rest
  }

  // The oldest undrained rows go first, in id order.
  lemma {:induction false} LowestFirst(s: set<OutboxId>, n: nat, i: nat, x: OutboxId)
    requires i < |LowestIds(s, n)| && x in s
    ensures x !in LowestIds(s, n) ==> LowestIds(s, n)[i] < x
    ensures forall j | i < j < |LowestIds(s, n)| :: LowestIds(s, n)[i] < LowestIds(s, n)[j]
    decreases n
  {
    var first := LeastOf(s);
    var rest := LowestIds(s - {first}, n - 1);
    assert LowestIds(s, n) == [first] + rest;
    if i == 0 {
      forall j | 0 < j < |LowestIds(s, n)|
        ensures first < LowestIds(s, n)[j]
      {
        assert LowestIds(s, n)[j] == rest[j - 1] && rest[j - 1] in rest && rest[j - 1] in s - {first};
      }
    } else {
      LowestFirst(s - {first}, n - 1, i - 1, if x == first then rest[i - 1] else x);
    }
  }

  // SELECT ... WHERE "drainedAt" IS NULL ORDER BY id ASC LIMIT 200, as documents.
  function Batch(table: map<OutboxId, Stored>): seq<Doc> {
    var ids := LowestIds(Undrained(table), BATCH_SIZE);
    seq(|ids|, k requires 0 <= k < |ids| => assert ids[k] in ids; Doc(ids[k], table[ids[k]].payload))
  }

  // The unique index on outboxId.
  predicate KeyTaken(mongo: seq<Doc>, id: OutboxId) { exists d <- mongo :: d.outboxId == id }

  function Marked(table: map<OutboxId, Stored>, batch: seq<Doc>, now: nat): map<OutboxId, Stored> {
    map id | id in table ::
      if exists d <- batch :: d.outboxId == id then table[id].(drainedAt := Some(now)) else table[id]
  }

  function Purged(table: map<OutboxId, Stored>, cutoff: nat): map<OutboxId, Stored> {
    map id | id in table && !(table[id].drainedAt.Some? && table[id].drainedAt.value < cutoff) :: table[id]
  }

  function Of(y: Sys, d: nat): Drainer { if d in y.drainers then y.drainers[d] else Idle }

  ghost predicate Can(y: Sys, e: Step) {
    match e
    case CommitRow(id, _) => id !in y.committed
    case ReadBatch(d) => Of(y, d).Idle? && Undrained(y.table) != {}
    case InsertDoc(d, k, _) => Of(y, d).Inserting? && k < |Of(y, d).batch| && k !in Of(y, d).tried
    case MarkDrained(d, _) =>
      // Success, or every error was a duplicate key.
      Of(y, d).Inserting? && !Of(y, d).failed && forall k | 0 <= k < |Of(y, d).batch| :: k in Of(y, d).tried
    case GiveUp(d) => Of(y, d).Inserting?
    case Purge(_) => true
  }

  ghost function After(y: Sys, e: Step): Sys
    requires Can(y, e)
  {
    match e
    case CommitRow(id, payload) =>
      y.(table := y.table[id := Stored(payload, None)], committed := y.committed[id := payload])
    case ReadBatch(d) => y.(drainers := y.drainers[d := Inserting(Batch(y.table), {}, false)])
    case InsertDoc(d, k, ok) =>
      var w := Of(y, d);
      var doc := w.batch[k];
      if KeyTaken(y.mongo, doc.outboxId) then y.(drainers := y.drainers[d := w.(tried := w.tried + {k})])
      else if ok then y.(mongo := y.mongo + [doc], drainers := y.drainers[d := w.(tried := w.tried + {k})])
      else y.(drainers := y.drainers[d := w.(tried := w.tried + {k}, failed := true)])
    case MarkDrained(d, now) => y.(table := Marked(y.table, Of(y, d).batch, now), drainers := y.drainers[d := Idle])
    case GiveUp(d) => y.(drainers := y.drainers[d := Idle])
    case Purge(cutoff) => y.(table := Purged(y.table, cutoff))
  }

  // --------------------------------------------------------------- invariant

  // Owed to Mongo and still in the table, or delivered.
  ghost predicate Accounted(y: Sys, id: OutboxId)
    requires id in y.committed
  {
    var doc := Doc(id, y.committed[id]);
    || (id in y.table && y.table[id] == Stored(y.committed[id], None))
    || (doc in y.mongo && (id in y.table ==> y.table[id].payload == y.committed[id]))
  }

  ghost predicate OncePerId(mongo: seq<Doc>) {
    forall i, j | 0 <= i < j < |mongo| :: mongo[i].outboxId != mongo[j].outboxId
  }

  ghost predicate Genuine(y: Sys, doc: Doc) {
    doc.outboxId in y.committed && doc.payload == y.committed[doc.outboxId]
  }

  ghost predicate DrainerOk(y: Sys, w: Drainer) {
    w.Inserting? ==>
      && (forall doc <- w.batch :: Genuine(y, doc))
      && (!w.failed ==> forall k | 0 <= k < |w.batch| && k in w.tried :: w.batch[k] in y.mongo)
  }

  ghost predicate Inv(y: Sys) {
    && (forall id <- y.committed :: Accounted(y, id))
    && y.table.Keys <= y.committed.Keys
    && OncePerId(y.mongo) && (forall doc <- y.mongo :: Genuine(y, doc))
    && (forall d <- y.drainers :: DrainerOk(y, y.drainers[d]))
  }

  // Some committed rows, none drained yet, and an empty collection.
  ghost function Start(rows: map<OutboxId, Event>): Sys {
    Sys(map id | id in rows :: Stored(rows[id], None), [], map[], rows)
  }

  lemma TakenIsDelivered(y: Sys, doc: Doc)
    requires Inv(y) && Genuine(y, doc) && KeyTaken(y.mongo, doc.outboxId)
    ensures doc in y.mongo
  {
    var m :| m in y.mongo && m.outboxId == doc.outboxId;
    assert Genuine(y, m);
  }

  lemma InsertKeeps(y: Sys, e: Step)
    requires Inv(y) && Can(y, e) && e.InsertDoc?
    ensures Inv(After(y, e))
  {
    var y', w := After(y, e), Of(y, e.d);
    var doc := w.batch[e.k];
    assert DrainerOk(y, w) && Genuine(y, doc);
    if KeyTaken(y.mongo, doc.outboxId) { TakenIsDelivered(y, doc); }
    assert forall m <- y.mongo :: m in y'.mongo;
    hide Batch;
    forall id <- y'.committed ensures Accounted(y', id) { assert Accounted(y, id); }
    assert OncePerId(y'.mongo) by {
      assert forall i | 0 <= i < |y.mongo| :: y.mongo[i] in y.mongo;
    }
    forall d <- y'.drainers
      ensures DrainerOk(y', y'.drainers[d])
    {
      if d in y.drainers { assert DrainerOk(y, y.drainers[d]); }
    }
  }

  lemma BatchGenuine(y: Sys)
    requires Inv(y)
    ensures forall doc <- Batch(y.table) :: Genuine(y, doc)
  {
    var ids := LowestIds(Undrained(y.table), BATCH_SIZE);
    forall k | 0 <= k < |ids| ensures Genuine(y, Batch(y.table)[k]) {
      assert ids[k] in ids && Accounted(y, ids[k]);
    }
  }

  lemma MarkKeeps(y: Sys, e: Step)
    requires Inv(y) && Can(y, e) && e.MarkDrained?
    ensures Inv(After(y, e))
  {
    var y', w := After(y, e), Of(y, e.d);
    assert DrainerOk(y, w);
    forall id <- y'.committed
      ensures Accounted(y', id)
    {
      assert Accounted(y, id);
      if d :| d in w.batch && d.outboxId == id {
        var k :| 0 <= k < |w.batch| && w.batch[k] == d;
        assert w.batch[k] in y.mongo && Genuine(y, d);
      }
    }
    forall d <- y'.drainers
      ensures DrainerOk(y', y'.drainers[d])
    {
      if d in y.drainers { assert DrainerOk(y, y.drainers[d]); }
    }
  }

  lemma OtherKeeps(y: Sys, e: Step)
    requires Inv(y) && Can(y, e) && !e.InsertDoc? && !e.MarkDrained?
    ensures Inv(After(y, e))
  {
    hide Batch, Undrained;
    var y' := After(y, e);
    if e.ReadBatch? { BatchGenuine(y); }
    forall id <- y'.committed ensures Accounted(y', id) { if id in y.committed { assert Accounted(y, id); } }
    forall doc <- y'.mongo ensures Genuine(y', doc) { assert Genuine(y, doc); }
    forall d <- y'.drainers ensures DrainerOk(y', y'.drainers[d]) {
      if d in y.drainers {
        assert DrainerOk(y, y.drainers[d]);
        assert y'.drainers[d] == y.drainers[d] || e.ReadBatch? || e.GiveUp?;
      }
    }
  }

  ghost predicate History(y: Sys, steps: seq<Step>, y': Sys)
    decreases |steps|
  {
    if steps == [] then y' == y else Can(y, steps[0]) && History(After(y, steps[0]), steps[1..], y')
  }

  lemma {:induction false} HistoryKeeps(y: Sys, steps: seq<Step>, y': Sys)
    requires Inv(y) && History(y, steps, y')
    ensures Inv(y')
    decreases |steps|
  {
    if steps != [] {
      if steps[0].InsertDoc? { InsertKeeps(y, steps[0]); }
      else if steps[0].MarkDrained? { MarkKeeps(y, steps[0]); }
      else { OtherKeeps(y, steps[0]); }
      hide Inv, Can, After;
      HistoryKeeps(After(y, steps[0]), steps[1..], y');
    }
  }

  // Exactly once at rest: from the start, after any interleaving of commits,
  // batch reads, single inserts, failures, crashes, markings and purges, every
  // committed event is undrained in the table or in Mongo, every drained or
  // purged one is in Mongo, and Mongo holds each id once and nothing else.
  lemma ExactlyOnceAtRest(rows: map<OutboxId, Event>, steps: seq<Step>, y: Sys)
    requires History(Start(rows), steps, y)
    ensures Inv(y)
    ensures forall id <- y.committed ::
              (id in y.table && y.table[id].drainedAt.None?) || Doc(id, y.committed[id]) in y.mongo
    ensures forall id <- y.committed | id !in y.table || y.table[id].drainedAt.Some? ::
            Doc(id, y.committed[id]) in y.mongo
    ensures OncePerId(y.mongo) && forall doc <- y.mongo :: Genuine(y, doc)
  {
    HistoryKeeps(Start(rows), steps, y);
    forall id <- y.committed ensures Accounted(y, id) {}
  }

  // ------------------------------------------------------ drained and purged

  // Step k marks a batch holding id, at this moment.
  ghost predicate MarksAt(y: Sys, steps: seq<Step>, k: nat, id: OutboxId, now: nat)
    decreases k
  {
    k < |steps| && Can(y, steps[0])
    && if k > 0 then MarksAt(After(y, steps[0]), steps[1..], k - 1, id, now)
       else steps[0].MarkDrained? && steps[0].now == now && exists d <- Of(y, steps[0].d).batch :: d.outboxId == id
  }

  lemma MarksLater(y: Sys, steps: seq<Step>, k: nat, id: OutboxId, now: nat)
    requires steps != [] && Can(y, steps[0]) && MarksAt(After(y, steps[0]), steps[1..], k, id, now)
    ensures MarksAt(y, steps, k + 1, id, now)
  {
  }

  lemma StampStep(y: Sys, e: Step, id: OutboxId)
    requires Can(y, e) && id in After(y, e).table && After(y, e).table[id].drainedAt.Some?
    ensures (id in y.table && y.table[id].drainedAt == After(y, e).table[id].drainedAt)
            || (e.MarkDrained? && After(y, e).table[id].drainedAt == Some(e.now)
                && exists d <- Of(y, e.d).batch :: d.outboxId == id)
  {
  }

  // A drained row's stamp is the moment of a step that marked it.
  lemma {:induction false} StampedByMark(y: Sys, steps: seq<Step>, y': Sys, id: OutboxId)
    returns (k: nat)
    requires History(y, steps, y') && id in y'.table && y'.table[id].drainedAt.Some?
    ensures (id in y.table && y.table[id].drainedAt == y'.table[id].drainedAt)
            || MarksAt(y, steps, k, id, y'.table[id].drainedAt.value)
    decreases |steps|
  {
    k := 0;
    if steps != [] {
      hide Can, After;
      var mid := After(y, steps[0]);
      k := StampedByMark(mid, steps[1..], y', id);
      if !(id in mid.table && mid.table[id].drainedAt == y'.table[id].drainedAt) {
        MarksLater(y, steps, k, id, y'.table[id].drainedAt.value);
        k := k + 1;
      } else {
        StampStep(y, steps[0], id);
        k := 0;
      }
    }
  }

  lemma GoneStep(y: Sys, e: Step, id: OutboxId)
    requires Can(y, e) && id in y.table && id !in After(y, e).table
    ensures e.Purge? && y.table[id].drainedAt.Some? && y.table[id].drainedAt.value < e.cutoff
  {
  }

  lemma CommittedStep(y: Sys, e: Step, id: OutboxId)
    requires Can(y, e) && y.table.Keys <= y.committed.Keys
    ensures After(y, e).table.Keys <= After(y, e).committed.Keys && y.committed.Keys <= After(y, e).committed.Keys
    ensures id !in y.committed && id in After(y, e).committed ==> id in After(y, e).table
  {
  }

  // A row gone from the table went at a purge step, and had been marked before
  // it at a moment below that step's cutoff.
  lemma {:induction false} GoneWasMarked(start: Sys, before: seq<Step>, y: Sys, steps: seq<Step>, y': Sys, id: OutboxId)
    returns (k: nat, l: nat, n: nat)
    requires History(start, before, y) && History(y, steps, y') && y.table.Keys <= y.committed.Keys
    requires forall i <- start.table :: start.table[i].drainedAt.None?
    requires (id in y.committed ==> id in y.table) && id in y'.committed && id !in y'.table
    ensures var all := before + steps;
            k < l < |all| && MarksAt(start, all, k, id, n) && all[l].Purge? && n < all[l].cutoff
    decreases |steps|
  {
    var e, mid, before' := steps[0], After(y, steps[0]), before + [steps[0]];
    hide Can, After;
    HistorySnoc(start, before, y, e);
    CommittedStep(y, e, id);
    assert before' + steps[1..] == before + steps;
    if id in y.table && id !in mid.table {
      GoneStep(y, e, id);
      k := StampedByMark(start, before, y, id);
      l, n := |before|, y.table[id].drainedAt.value;
      MarksPrefix(start, before, steps, k, id, n);
    } else {
      k, l, n := GoneWasMarked(start, before', mid, steps[1..], y', id);
    }
  }

  lemma {:induction false} MarksPrefix(y: Sys, steps: seq<Step>, more: seq<Step>, k: nat, id: OutboxId, now: nat)
    requires MarksAt(y, steps, k, id, now)
    ensures k < |steps| && MarksAt(y, steps + more, k, id, now)
    decreases k
  {
    assert (steps + more)[1..] == steps[1..] + more;
    hide Can, After;
    if k > 0 { MarksPrefix(After(y, steps[0]), steps[1..], more, k - 1, id, now); }
  }

  // From the start, over any history: a committed row no longer in the table was
  // marked by some step and taken by a later purge, at a moment below its cutoff.
  lemma PurgedAfterMark(rows: map<OutboxId, Event>, steps: seq<Step>, y: Sys, id: OutboxId)
    returns (k: nat, l: nat, n: nat)
    requires History(Start(rows), steps, y) && id in y.committed && id !in y.table
    ensures k < l < |steps| && MarksAt(Start(rows), steps, k, id, n) && steps[l].Purge? && n < steps[l].cutoff
  {
    k, l, n := GoneWasMarked(Start(rows), [], Start(rows), steps, y, id);
    assert [] + steps == steps;
  }

  // -------------------------------------------------------- one whole tick

  // The first k documents of a batch tried in order; faults says which inserts
  // fail for a reason of their own.
  function Attempted(mongo: seq<Doc>, batch: seq<Doc>, faults: set<OutboxId>, k: nat): seq<Doc>
    requires k <= |batch|
  {
    if k == 0 then mongo else
      var before := Attempted(mongo, batch, faults, k - 1);
      var doc := batch[k - 1];
      if KeyTaken(before, doc.outboxId) || doc.outboxId in faults then before else before + [doc]
  }

  predicate Faulty(mongo: seq<Doc>, batch: seq<Doc>, faults: set<OutboxId>, k: nat)
    requires k <= |batch|
  {
    exists i | 0 <= i < k ::
        batch[i].outboxId in faults && !KeyTaken(Attempted(mongo, batch, faults, i), batch[i].outboxId)
  }

  function Tick(table: map<OutboxId, Stored>, mongo: seq<Doc>, faults: set<OutboxId>, now: nat)
    : (map<OutboxId, Stored>, seq<Doc>)
  {
    var batch := Batch(table);
    (if Faulty(mongo, batch, faults, |batch|) then table else Marked(table, batch, now),
     Attempted(mongo, batch, faults, |batch|))
  }

  // Rows newly drained carry this moment, all others are as they were; and
  // either none is newly drained or the BATCH_SIZE lowest are.
  ghost predicate Stamped(table: map<OutboxId, Stored>, now: nat, table': map<OutboxId, Stored>) {
    var drained := Undrained(table) - Undrained(table');
    && table'.Keys == table.Keys
    && (forall id <- drained :: table'[id] == Stored(table[id].payload, Some(now)))
    && (forall id <- table | id !in drained :: table'[id] == table[id])
    && (drained == {} ||
        (|drained| == (if BATCH_SIZE < |Undrained(table)| then BATCH_SIZE else |Undrained(table)|)
         && forall i, j | i in drained && j in Undrained(table') :: i < j))
  }

  lemma TickStamps(table: map<OutboxId, Stored>, mongo: seq<Doc>, faults: set<OutboxId>, now: nat)
    ensures Stamped(table, now, Tick(table, mongo, faults, now).0)
  {
    hide Attempted, Faulty, Batch, Stamped, Marked;
    UnmarkedStamps(table, now);
    MarkedStamps(table, now);
  }

  lemma UnmarkedStamps(table: map<OutboxId, Stored>, now: nat)
    ensures Stamped(table, now, table)
  {
  }

  lemma MarkedStamps(table: map<OutboxId, Stored>, now: nat)
    ensures Stamped(table, now, Marked(table, Batch(table), now))
  {
    var ids := BatchIds(table);
    var table' := Marked(table, Batch(table), now);
    hide Batch;
    assert Undrained(table) - Undrained(table') == Elems(ids);
    DistinctCard(ids);
    forall i, j | i in Elems(ids) && j in Undrained(table')
      ensures i < j
    {
      BatchLowest(table, i, j);
    }
    hide Elems, Distinct;
  }

  lemma BatchLowest(table: map<OutboxId, Stored>, i: OutboxId, j: OutboxId)
    requires (exists d <- Batch(table) :: d.outboxId == i) && j in Undrained(table)
    requires !exists d <- Batch(table) :: d.outboxId == j
    ensures i < j
  {
    var ids, batch := LowestIds(Undrained(table), BATCH_SIZE), Batch(table);
    var k :| 0 <= k < |batch| && batch[k].outboxId == i;
    forall l | 0 <= l < |ids|
      ensures ids[l] != j
    {
      assert batch[l] in batch && batch[l].outboxId == ids[l];
    }
    hide LowestIds;
    LowestFirst(Undrained(table), BATCH_SIZE, k, j);
  }

  // The worker over its table and collection, with, for reference, what was
  // ever committed.
  class OutboxWorker {
    var table: map<OutboxId, Stored>
    var mongo: seq<Doc>
    ghost var committed: map<OutboxId, Event>
    var inFlight: bool
    var drainFailures: nat
    var rowsDrained: nat

    ghost function State(): Sys
      reads this
    {
      Sys(table, mongo, map[], committed)
    }

    ghost predicate Valid()
      reads this
    {
      Inv(State())
    }

    constructor (rows: map<OutboxId, Event>)
      ensures Valid() && State() == Start(rows) && !inFlight && drainFailures == 0 && rowsDrained == 0
    {
      table, mongo, committed := map id | id in rows :: Stored(rows[id], None), [], rows;
      inFlight, drainFailures, rowsDrained := false, 0, 0;
    }

    // drain: at most one at a time; nothing happens unless the scheduler gate
    // and Mongo allow it. What is newly marked is in Mongo.
    method Drain(enabled: bool, mongoReady: bool, faults: set<OutboxId>, now: nat)
      requires Valid()
      modifies this
      ensures Valid() && inFlight == old(inFlight) && committed == old(committed)
      ensures (table, mongo) == if enabled && mongoReady && !old(inFlight)
                                then Tick(old(table), old(mongo), faults, now) else (old(table), old(mongo))
      ensures table != old(table) ==> drainFailures == old(drainFailures)
      ensures forall id <- old(Undrained(table)) - Undrained(table) :: Doc(id, committed[id]) in mongo
      ensures table.Keys == old(table).Keys
      ensures forall id <- old(Undrained(table)) - Undrained(table) :: table[id].drainedAt == Some(now)
      ensures forall id <- old(table) ::
                && table[id].payload == old(table)[id].payload
                && (id !in old(Undrained(table)) - Undrained(table) ==> table[id] == old(table)[id])
    {
      TickStamps(table, mongo, faults, now);
      if !enabled || inFlight { return; }
      inFlight := true;
      TickKeeps(State(), faults, now);
      hide Inv, Tick;
      if mongoReady { DrainBatch(faults, now); }
      inFlight := false;
    }

    method DrainBatch(faults: set<OutboxId>, now: nat)
      modifies this
      ensures inFlight == old(inFlight) && committed == old(committed)
      ensures (table, mongo) == Tick(old(table), old(mongo), faults, now)
      ensures Stamped(old(table), now, table)
      ensures var batch := Batch(old(table));
              (drainFailures, rowsDrained) == if Faulty(old(mongo), batch, faults, |batch|)
                                              then (old(drainFailures) + 1, old(rowsDrained))
                                              else (old(drainFailures), old(rowsDrained) + |batch|)
    {
      TickStamps(table, mongo, faults, now);
      hide Batch, Stamped;
      var batch := Batch(table);
      if batch == [] {
        assert Marked(table, [], now) == table;
        return;
      }
      hide Marked;
      var otherError := false;
      for k := 0 to |batch|
        invariant table == old(table) && inFlight == old(inFlight) && committed == old(committed)
        invariant drainFailures == old(drainFailures) && rowsDrained == old(rowsDrained)
        invariant mongo == Attempted(old(mongo), batch, faults, k)
        invariant otherError <==> Faulty(old(mongo), batch, faults, k)
      {
        AttemptedNext(old(mongo), batch, faults, k);
        if KeyTaken(mongo, batch[k].outboxId) {
        } else if batch[k].outboxId in faults {
          otherError := true;
        } else {
          mongo := mongo + [batch[k]];
        }
      }
      if otherError {
        drainFailures := drainFailures + 1;
        return;
      }
      table := Marked(table, batch, now);
      rowsDrained := rowsDrained + |batch|;
    }

    // The rows that go were drained before the cutoff and are in Mongo; no
    // undrained row is among them, and the rows that stay are as they were.
    method PurgeDrainedOutbox(cutoff: nat) returns (count: nat)
      requires Valid()
      modifies this`table
      ensures Valid()
      ensures count == |old(table).Keys - table.Keys| && table.Keys <= old(table).Keys
      ensures Undrained(table) == Undrained(old(table))
      ensures forall id <- old(table) :: if id in table then table[id] == old(table)[id] else
                Doc(id, committed[id]) in mongo && old(table)[id].drainedAt.Some?
                && old(table)[id].drainedAt.value < cutoff
      ensures forall id <- table | table[id].drainedAt.Some? :: table[id].drainedAt.value >= cutoff
    {
      PurgedRows(State(), cutoff);
      hide *;
      var kept := Purged(table, cutoff);
      count := |table| - |kept|;
      table := kept;
    }
  }

  lemma PurgedRows(y: Sys, cutoff: nat)
    requires Inv(y)
    ensures var kept := Purged(y.table, cutoff);
            && Inv(y.(table := kept)) && Undrained(kept) == Undrained(y.table)
            && kept.Keys <= y.table.Keys && |y.table| - |kept| == |y.table.Keys - kept.Keys|
            && (forall id <- y.table :: id in y.committed
                  && if id in kept then kept[id] == y.table[id] else
                       Doc(id, y.committed[id]) in y.mongo && y.table[id].drainedAt.Some?
                       && y.table[id].drainedAt.value < cutoff)
            && (forall id <- kept | kept[id].drainedAt.Some? :: kept[id].drainedAt.value >= cutoff)
  {
    assert forall id <- y.table :: Accounted(y, id);
    OtherKeeps(y, Purge(cutoff));
    hide Inv;
    var kept := Purged(y.table, cutoff);
    SubsetCard(kept.Keys, y.table.Keys);
    assert |y.table.Keys - kept.Keys| == |y.table.Keys| - |kept.Keys|;
  }

  // The steps of one tick by drainer d.
  ghost function TickSteps(d: nat, batch: seq<Doc>, faults: set<OutboxId>, k: nat): seq<Step>
    requires k <= |batch|
  {
    if k == 0 then [ReadBatch(d)] else
      TickSteps(d, batch, faults, k - 1) + [InsertDoc(d, k - 1, batch[k - 1].outboxId !in faults)]
  }

  lemma {:induction false} HistorySnoc(y: Sys, steps: seq<Step>, mid: Sys, e: Step)
    requires History(y, steps, mid) && Can(mid, e)
    ensures History(y, steps + [e], After(mid, e))
    decreases |steps|
  {
    if steps != [] {
      assert (steps + [e])[1..] == steps[1..] + [e];
      hide Can, After;
      HistorySnoc(After(y, steps[0]), steps[1..], mid, e);
    }
  }

  ghost function UpTo(k: nat): (s: set<nat>)
    ensures forall i: nat :: i in s <==> i < k
  {
    if k == 0 then {} else UpTo(k - 1) + {k - 1}
  }

  lemma AttemptedNext(mongo: seq<Doc>, batch: seq<Doc>, faults: set<OutboxId>, k: nat)
    requires k < |batch|
    ensures var before, doc := Attempted(mongo, batch, faults, k), batch[k];
            && Attempted(mongo, batch, faults, k + 1)
               == (if KeyTaken(before, doc.outboxId) || doc.outboxId in faults then before else before + [doc])
            && (Faulty(mongo, batch, faults, k + 1)
                <==> Faulty(mongo, batch, faults, k) || (doc.outboxId in faults && !KeyTaken(before, doc.outboxId)))
  {
    hide KeyTaken;
  }

  // Where the drainer stands after k inserts.
  ghost function Midway(y: Sys, d: nat, faults: set<OutboxId>, k: nat): Sys
    requires k <= |Batch(y.table)|
  {
    var batch := Batch(y.table);
    y.(mongo := Attempted(y.mongo, batch, faults, k),
       drainers := y.drainers[d := Inserting(batch, UpTo(k), Faulty(y.mongo, batch, faults, k))])
  }

  lemma {:induction false} TickInserts(y: Sys, d: nat, faults: set<OutboxId>, k: nat)
    requires Of(y, d).Idle? && Undrained(y.table) != {} && k <= |Batch(y.table)|
    ensures History(y, TickSteps(d, Batch(y.table), faults, k), Midway(y, d, faults, k))
  {
    hide *;
    if k == 0 {
      TickReads(y, d, faults);
    } else {
      TickInserts(y, d, faults, k - 1);
      InsertLands(y, d, faults, k);
      TickGoesOn(y, d, faults, k);
    }
  }

  lemma TickReads(y: Sys, d: nat, faults: set<OutboxId>)
    requires Of(y, d).Idle? && Undrained(y.table) != {}
    ensures History(y, TickSteps(d, Batch(y.table), faults, 0), Midway(y, d, faults, 0))
  {
    hide Batch, Undrained;
    assert Midway(y, d, faults, 0) == After(y, ReadBatch(d));
    HistorySnoc(y, [], y, ReadBatch(d));
    assert [] + [ReadBatch(d)] == [ReadBatch(d)];
  }

  lemma TickGoesOn(y: Sys, d: nat, faults: set<OutboxId>, k: nat)
    requires 0 < k <= |Batch(y.table)|
    requires History(y, TickSteps(d, Batch(y.table), faults, k - 1), Midway(y, d, faults, k - 1))
    requires var e := InsertDoc(d, k - 1, Batch(y.table)[k - 1].outboxId !in faults);
             Can(Midway(y, d, faults, k - 1), e) && After(Midway(y, d, faults, k - 1), e) == Midway(y, d, faults, k)
    ensures History(y, TickSteps(d, Batch(y.table), faults, k), Midway(y, d, faults, k))
  {
    hide Batch, Midway, Can, After, History;
    HistorySnoc(y, TickSteps(d, Batch(y.table), faults, k - 1), Midway(y, d, faults, k - 1),
                InsertDoc(d, k - 1, Batch(y.table)[k - 1].outboxId !in faults));
  }

  lemma InsertLands(y: Sys, d: nat, faults: set<OutboxId>, k: nat)
    requires 0 < k <= |Batch(y.table)|
    ensures var batch, mid := Batch(y.table), Midway(y, d, faults, k - 1);
            var e := InsertDoc(d, k - 1, batch[k - 1].outboxId !in faults);
            Can(mid, e) && After(mid, e) == Midway(y, d, faults, k)
  {
    hide Batch, Attempted, Faulty, KeyTaken;
    var batch, mid := Batch(y.table), Midway(y, d, faults, k - 1);
    AttemptedNext(y.mongo, batch, faults, k - 1);
    var w := Of(mid, d);
    assert w == Inserting(batch, UpTo(k - 1), Faulty(y.mongo, batch, faults, k - 1))
           && UpTo(k) == UpTo(k - 1) + {k - 1};
    hide UpTo;
    var w' := Inserting(batch, UpTo(k), Faulty(y.mongo, batch, faults, k));
    assert mid.drainers[d := w'] == y.drainers[d := w'];
  }

  // A whole tick of a worker is one run of the steps above, so all they
  // guarantee holds of the worker.
  lemma TickIsHistory(y: Sys, d: nat, faults: set<OutboxId>, now: nat) returns (steps: seq<Step>)
    requires Of(y, d).Idle? && Undrained(y.table) != {}
    ensures var (table', mongo') := Tick(y.table, y.mongo, faults, now);
            History(y, steps, y.(table := table', mongo := mongo', drainers := y.drainers[d := Idle]))
  {
    hide Batch, Attempted, Faulty, KeyTaken, Marked;
    var batch := Batch(y.table);
    TickInserts(y, d, faults, |batch|);
    var mid := Midway(y, d, faults, |batch|);
    var e := if Faulty(y.mongo, batch, faults, |batch|) then GiveUp(d) else MarkDrained(d, now);
    steps := TickSteps(d, batch, faults, |batch|) + [e];
    HistorySnoc(y, TickSteps(d, batch, faults, |batch|), mid, e);
    assert y.drainers[d := Of(mid, d)][d := Idle] == y.drainers[d := Idle];
  }

  lemma TickKeeps(y: Sys, faults: set<OutboxId>, now: nat)
    requires Inv(y) && y.drainers == map[]
    ensures var (table', mongo') := Tick(y.table, y.mongo, faults, now);
            && Inv(y.(table := table', mongo := mongo'))
            && forall id <- Undrained(y.table) - Undrained(table') ::
                id in y.committed && Doc(id, y.committed[id]) in mongo'
  {
    hide Batch, Attempted, Faulty, Marked;
    var (table', mongo') := Tick(y.table, y.mongo, faults, now);
    if Undrained(y.table) == {} {
      NothingOwed(y.table, y.mongo, faults, now);
    } else {
      var steps := TickIsHistory(y, 0, faults, now);
      hide Tick;
      HistoryKeeps(y, steps, y.(table := table', mongo := mongo', drainers := y.drainers[0 := Idle]));
      hide History;
      SettledRows(y.(table := table', mongo := mongo', drainers := y.drainers[0 := Idle]));
    }
  }

  lemma SettledRows(y: Sys)
    requires Inv(y)
    ensures Inv(y.(drainers := map[]))
    ensures forall id <- y.committed | id !in Undrained(y.table) :: Doc(id, y.committed[id]) in y.mongo
  {
    var y' := y.(drainers := map[]);
    forall id <- y.committed ensures Accounted(y', id) { assert Accounted(y, id); }
    forall doc <- y.mongo ensures Genuine(y', doc) { assert Genuine(y, doc); }
  }

  lemma NothingOwed(table: map<OutboxId, Stored>, mongo: seq<Doc>, faults: set<OutboxId>, now: nat)
    requires Undrained(table) == {}
    ensures Tick(table, mongo, faults, now) == (table, mongo)
  {
    assert Batch(table) == [];
    assert Marked(table, [], now) == table;
  }

  // ------------------------------------------------------------ clean ticks

  function Ticks(table: map<OutboxId, Stored>, mongo: seq<Doc>, n: nat, now: nat): (map<OutboxId, Stored>, seq<Doc>) {
    if n == 0 then (table, mongo) else
      var (t, m) := Ticks(table, mongo, n - 1, now);
      Tick(t, m, {}, now)
  }

  function Less(a: nat, b: nat): nat { if a < b then 0 else a - b }

  lemma CleanTick(table: map<OutboxId, Stored>, mongo: seq<Doc>, now: nat)
    ensures |Undrained(Tick(table, mongo, {}, now).0)| == Less(|Undrained(table)|, BATCH_SIZE)
  {
    var owed, batch := Undrained(table), Batch(table);
    var ids := BatchIds(table);
    hide Batch, Faulty, Attempted;
    assert Undrained(Marked(table, batch, now)) == owed - Elems(ids);
    DistinctCard(ids);
    SubsetCard(Elems(ids), owed);
    assert |owed - Elems(ids)| == |owed| - |ids|;
    assert !Faulty(mongo, batch, {}, |batch|) by { NeverFaulty(mongo, batch); }
  }

  lemma NeverFaulty(mongo: seq<Doc>, batch: seq<Doc>)
    ensures !Faulty(mongo, batch, {}, |batch|)
  {
  }

  lemma BatchIds(table: map<OutboxId, Stored>) returns (ids: seq<OutboxId>)
    ensures Distinct(ids) && Elems(ids) <= Undrained(table)
    ensures |ids| == if BATCH_SIZE < |Undrained(table)| then BATCH_SIZE else |Undrained(table)|
    ensures forall id :: id in Elems(ids) <==> exists d <- Batch(table) :: d.outboxId == id
  {
    ids := LowestIds(Undrained(table), BATCH_SIZE);
    hide LowestIds;
    var batch := Batch(table);
    forall id
      ensures id in Elems(ids) <==> exists d <- batch :: d.outboxId == id
    {
      if id in ids {
        var k :| 0 <= k < |ids| && ids[k] == id;
        assert batch[k] in batch;
      }
    }
  }

  lemma NextBatch(owed: nat, n: nat)
    requires n > 0
    ensures Less(Less(owed, (n - 1) * BATCH_SIZE), BATCH_SIZE) == Less(owed, n * BATCH_SIZE)
  {
  }

  lemma CeilIff(owed: nat, n: nat)
    ensures Less(owed, n * BATCH_SIZE) == 0 <==> n >= (owed + BATCH_SIZE - 1) / BATCH_SIZE
  {
  }

  lemma EmptyIff<T>(s: set<T>)
    ensures s == {} <==> |s| == 0
  {
  }

  // n undrained rows clear in exactly ceil(n / 200) clean ticks.
  lemma {:induction false} ClearsInBatches(table: map<OutboxId, Stored>, mongo: seq<Doc>, n: nat, now: nat)
    ensures |Undrained(Ticks(table, mongo, n, now).0)| == Less(|Undrained(table)|, n * 200)
    ensures Undrained(Ticks(table, mongo, n, now).0) == {} <==> n >= (|Undrained(table)| + 199) / 200
  {
    hide Tick, Undrained;
    if n > 0 {
      ClearsInBatches(table, mongo, n - 1, now);
      var (t, m) := Ticks(table, mongo, n - 1, now);
      CleanTick(t, m, now);
      NextBatch(|Undrained(table)|, n);
    }
    EmptyIff(Undrained(Ticks(table, mongo, n, now).0));
    CeilIff(|Undrained(table)|, n);
  }
}
