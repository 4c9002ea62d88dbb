// The audit outbox is read by id, and an id is drawn at the INSERT inside the
// open transaction: rows of different sections commit out of id order. Events
// that overtook each other so concern different rows and commute, so folding
// the table by id rebuilds the database as well as folding it by commit.
module OutboxOrder {
  import opened Registry
  import opened Waitlist
  import opened Operations
  import opened Seats
  import opened Machine
  import opened LocalSteps
  import opened Interleaving
  import opened Serializability
  import opened Runs
  import opened AuditTrail

  // ------------------------------------------------------------ commutation

  // The rows an event speaks of, and the section whose limits it sets.
  function RowsOf(e: Event): set<RowId> {
    match e
    case Created(id, _, _) => {id}
    case Waitlisted(id, _, _, _) => {id}
    case Dropped(id, _) => {id}
    case WaitlistLeft(id, _) => {id}
    case Expired(id, _) => {id}
    case Promoted(id, _, _) => {id}
    case Swapped(oldId, _, _, newId, _, _) => {oldId, newId}
    case Reordered(_, _, order) => set id | id in order
    case SectionUpdated(_, _, _, _) => {}
  }

  function LimitsOf(e: Event): set<SectionId> {
    if e.SectionUpdated? then {e.section} else {}
  }

  function EntryAt(book: Book, id: RowId): Option<Entry> {
    if id in book.entries then Some(book.entries[id]) else None
  }

  function Restated(o: Option<Entry>, status: Status): Option<Entry> {
    if o.Some? then Some(Entry(o.value.section, Row(o.value.row.student, status, None))) else None
  }

  // What recording e makes of the entry of id.
  function EntryAfter(e: Event, id: RowId, o: Option<Entry>): Option<Entry> {
    if id !in RowsOf(e) then o else
      match e
      case Created(_, x, s) => Some(Entry(s, Row(x, ENROLLED, None)))
      case Waitlisted(_, x, s, p) => Some(Entry(s, Row(x, WAITLISTED, Some(p))))
      case Promoted(_, _, _) => Restated(o, ENROLLED)
      case Swapped(_, _, _, newId, x, s) =>
        if id == newId then Some(Entry(s, Row(x, ENROLLED, None))) else Restated(o, DROPPED)
      case Reordered(_, _, order) =>
        if o.Some? then Some(o.value.(row := o.value.row.(position := Some(IndexOf(order, id) + 1)))) else None
      case _ => Restated(o, DROPPED)
  }

  lemma RecordAt(book: Book, e: Event, id: RowId)
    ensures EntryAt(Record(book, e), id) == EntryAfter(e, id, EntryAt(book, id))
  {
    hide IndexOf;
  }

  lemma RecordLimits(book: Book, e: Event)
    ensures Record(book, e).limits ==
              if e.SectionUpdated? then book.limits[e.section := Limits(e.capacity, e.waitlistCap)] else book.limits
  {
    hide IndexOf;
  }

  lemma SameBook(a: Book, b: Book)
    requires a.limits == b.limits && forall id :: EntryAt(a, id) == EntryAt(b, id)
    ensures a == b
  {
    forall id
      ensures id in a.entries <==> id in b.entries
      ensures id in a.entries ==> a.entries[id] == b.entries[id]
    {
      assert EntryAt(a, id) == EntryAt(b, id);
    }
    assert a.entries == b.entries;
  }

  ghost predicate Unrelated(e: Event, f: Event) { RowsOf(e) !! RowsOf(f) && LimitsOf(e) !! LimitsOf(f) }

  // Events of different rows and different limits can be recorded in either order.
  lemma RecordsCommute(book: Book, e: Event, f: Event)
    requires Unrelated(e, f)
    ensures Record(Record(book, e), f) == Record(Record(book, f), e)
  {
    var ef, fe := Record(Record(book, e), f), Record(Record(book, f), e);
    RecordLimits(book, e);
    RecordLimits(book, f);
    RecordLimits(Record(book, e), f);
    RecordLimits(Record(book, f), e);
    hide Record;
    if e.SectionUpdated? && f.SectionUpdated? {
      assert e.section in LimitsOf(e) && f.section in LimitsOf(f);
    }
    forall id
      ensures EntryAt(ef, id) == EntryAt(fe, id)
    {
      EntriesCommute(book, e, f, id);
    }
    SameBook(ef, fe);
  }

  lemma EntriesCommute(book: Book, e: Event, f: Event, id: RowId)
    requires Unrelated(e, f)
    ensures EntryAt(Record(Record(book, e), f), id) == EntryAt(Record(Record(book, f), e), id)
  {
    RecordAt(book, e, id);
    RecordAt(book, f, id);
    RecordAt(Record(book, e), f, id);
    RecordAt(Record(book, f), e, id);
    assert id !in RowsOf(e) || id !in RowsOf(f);
    hide Record, RowsOf, Restated, EntryAt;
  }

  // --------------------------------------------------------------- by id

  // A committed outbox row; held: the sections its transaction had locked, for
  // reference only.
  datatype Logged = Logged(id: nat, event: Event, held: set<SectionId>)

  function EventsIn(log: seq<Logged>): seq<Event> { seq(|log|, k requires 0 <= k < |log| => log[k].event) }

  function Placed(sorted: seq<Logged>, r: Logged): seq<Logged> {
    if sorted == [] || sorted[|sorted| - 1].id <= r.id then sorted + [r]
    else Placed(sorted[..|sorted| - 1], r) + [sorted[|sorted| - 1]]
  }

  // ORDER BY id.
  function ById(log: seq<Logged>): seq<Logged> {
    if log == [] then [] else Placed(ById(log[..|log| - 1]), log[|log| - 1])
  }

  ghost predicate Ascending(log: seq<Logged>) { forall i, j | 0 <= i < j < |log| :: log[i].id <= log[j].id }

  lemma {:induction false} PlacedSorts(sorted: seq<Logged>, r: Logged)
    requires Ascending(sorted)
    ensures Ascending(Placed(sorted, r)) && multiset(Placed(sorted, r)) == multiset(sorted) + multiset{r}
    ensures forall x <- Placed(sorted, r) :: x in sorted || x == r
  {
    if sorted != [] && sorted[|sorted| - 1].id > r.id {
      var rest, last := sorted[..|sorted| - 1], sorted[|sorted| - 1];
      assert sorted == rest + [last];
      PlacedSorts(rest, r);
      forall x <- Placed(rest, r) ensures x.id <= last.id {}
      hide Placed;
      EndAscends(Placed(rest, r), last);
    } else {
      EndAscends(sorted, r);
    }
  }

  lemma EndAscends(sorted: seq<Logged>, last: Logged)
    requires Ascending(sorted)
             && (sorted != [] ==> forall x <- sorted :: x.id <= last.id || sorted[|sorted| - 1].id <= last.id)
    ensures Ascending(sorted + [last])
  {
    forall i | 0 <= i < |sorted|
      ensures sorted[i].id <= last.id
    {
      assert sorted[i] in sorted && sorted[i].id <= sorted[|sorted| - 1].id;
      assert sorted[|sorted| - 1] in sorted;
    }
  }

  lemma {:induction false} ByIdSorts(log: seq<Logged>)
    ensures Ascending(ById(log)) && multiset(ById(log)) == multiset(log)
    ensures forall x <- ById(log) :: x in log
  {
    if log != [] {
      var rest, last := log[..|log| - 1], log[|log| - 1];
      assert log == rest + [last];
      ByIdSorts(rest);
      PlacedSorts(ById(rest), last);
    }
  }

  lemma EventsSnoc(log: seq<Logged>, r: Logged)
    ensures EventsIn(log + [r]) == EventsIn(log) + [r.event]
  {
  }

  lemma ReplaySnoc(book: Book, log: seq<Logged>, r: Logged)
    ensures Replayed(book, EventsIn(log + [r])) == Record(Replayed(book, EventsIn(log)), r.event)
  {
    EventsSnoc(log, r);
    var events := EventsIn(log + [r]);
    assert events[..|events| - 1] == EventsIn(log);
    hide Record;
  }

  // Moving a row past rows it has nothing to do with.
  lemma {:induction false} PlacedReplays(book: Book, sorted: seq<Logged>, r: Logged)
    requires forall x <- sorted | x.id > r.id :: Unrelated(x.event, r.event)
    ensures Replayed(book, EventsIn(Placed(sorted, r))) == Record(Replayed(book, EventsIn(sorted)), r.event)
  {
    hide Record, Replayed, EventsIn, Unrelated;
    if sorted == [] || sorted[|sorted| - 1].id <= r.id {
      ReplaySnoc(book, sorted, r);
    } else {
      var rest, last := sorted[..|sorted| - 1], sorted[|sorted| - 1];
      assert sorted == rest + [last] && last in sorted;
      PlacedReplays(book, rest, r);
      ReplaySnoc(book, Placed(rest, r), last);
      ReplaySnoc(book, rest, last);
      RecordsCommute(Replayed(book, EventsIn(rest)), last.event, r.event);
    }
  }

  // Whatever overtook whatever has nothing to do with it.
  ghost predicate OvertakesFreely(log: seq<Logged>) {
    forall i, j | 0 <= i < j < |log| && log[i].id > log[j].id :: Unrelated(log[i].event, log[j].event)
  }

  lemma {:induction false} ByIdReplays(book: Book, log: seq<Logged>)
    requires OvertakesFreely(log)
    ensures Replayed(book, EventsIn(ById(log))) == Replayed(book, EventsIn(log))
  {
    hide Record, Replayed, EventsIn, Unrelated;
    if log != [] {
      var rest, last := log[..|log| - 1], log[|log| - 1];
      assert log == rest + [last];
      ByIdReplays(book, rest);
      ByIdSorts(rest);
      forall x <- ById(rest) | x.id > last.id
        ensures Unrelated(x.event, last.event)
      {
        var i :| 0 <= i < |rest| && rest[i] == x;
        assert log[i] == x;
      }
      PlacedReplays(book, ById(rest), last);
      ReplaySnoc(book, rest, last);
    }
  }

  // ------------------------------------------------------ the machine, numbered

  // next: the sequence behind the id column; drawn: the ids of a transaction's
  // uncommitted outbox rows; log: the committed ones, in commit order.
  datatype Numbered = Numbered(st: State, next: nat, drawn: map<TxnId, seq<nat>>, log: seq<Logged>)

  function DrawnBy(y: Numbered, t: TxnId): seq<nat> { if t in y.drawn then y.drawn[t] else [] }

  function Rows(ids: seq<nat>, events: seq<Event>, held: set<SectionId>): seq<Logged>
    requires |ids| == |events|
  {
    seq(|ids|, k requires 0 <= k < |ids| => Logged(ids[k], events[k], held))
  }

  // An INSERT draws an id at once; a rollback does not give it back.
  ghost function NumberedNext(cat: Catalog, y: Numbered, a: Action): Numbered
    requires Enabled(y.st, a)
  {
    var st' := Next(cat, y.st, a);
    match a
    case Statement(t, _, _) =>
      if |EventsOf(st'.txns[t].writes)| > |EventsOf(y.st.txns[t].writes)|
      then Numbered(st', y.next + 1, y.drawn[t := DrawnBy(y, t) + [y.next]], y.log) else y.(st := st')
    case Commit(t) =>
      var txn, ids := y.st.txns[t], DrawnBy(y, t);
      var events := EventsOf(txn.writes);
      Numbered(st', y.next, y.drawn[t := []], y.log + if |ids| == |events| then Rows(ids, events, txn.held) else [])
    case Rollback(t) => y.(st := st', drawn := y.drawn[t := []])
    case _ => y.(st := st')
  }

  ghost predicate NumberedRun(cat: Catalog, y: Numbered, actions: seq<Action>, y': Numbered)
    decreases |actions|
  {
    if actions == [] then y' == y else
      Enabled(y.st, actions[0]) && NumberedRun(cat, NumberedNext(cat, y, actions[0]), actions[1..], y')
  }

  ghost predicate Starts(y: Numbered) { Initial(y.st) && y.drawn == map[] && y.log == [] }

  // --------------------------------------------------------------- invariant

  // One id for each uncommitted outbox row, all different and all below next.
  ghost predicate Counted(y: Numbered) {
    && (forall t <- y.st.txns :: |DrawnBy(y, t)| == |EventsOf(y.st.txns[t].writes)|)
    && (forall t | t !in y.st.txns :: DrawnBy(y, t) == [])
    && (forall t, n | t in y.st.txns && 0 <= n < |DrawnBy(y, t)| :: DrawnBy(y, t)[n] < y.next)
    && (forall i | 0 <= i < |y.log| :: y.log[i].id < y.next)
  }

  ghost predicate Apart(y: Numbered) {
    && (forall t, m, n | t in y.st.txns && 0 <= m < n < |DrawnBy(y, t)| :: DrawnBy(y, t)[m] < DrawnBy(y, t)[n])
    && (forall t, u, m, n | t in y.st.txns && u in y.st.txns && t != u && 0 <= m < |DrawnBy(y, t)|
        && 0 <= n < |DrawnBy(y, u)| ::
          DrawnBy(y, t)[m] != DrawnBy(y, u)[n])
    && (forall t, n, i | t in y.st.txns && 0 <= n < |DrawnBy(y, t)| && 0 <= i < |y.log| ::
        DrawnBy(y, t)[n] != y.log[i].id)
    && (forall i, j | 0 <= i < j < |y.log| :: y.log[i].id != y.log[j].id)
  }

  // A section's lock orders the ids of its rows: what is committed came before
  // what the holder of the lock has drawn since.
  ghost predicate Behind(y: Numbered, t: TxnId)
    requires t in y.st.txns
  {
    forall i, n | 0 <= i < |y.log| && 0 <= n < |DrawnBy(y, t)| ::
      y.log[i].held !! y.st.txns[t].held || y.log[i].id < DrawnBy(y, t)[n]
  }

  ghost predicate LockOrder(y: Numbered) {
    && (forall t <- y.st.txns :: Behind(y, t))
    && (forall i, j | 0 <= i < j < |y.log| :: y.log[i].held !! y.log[j].held || y.log[i].id < y.log[j].id)
  }

  // The rows an event speaks of lie in sections its transaction had locked.
  ghost predicate Housed(sections: map<SectionId, Section>, e: Event, held: set<SectionId>) {
    && (forall id <- RowsOf(e) :: exists s <- held :: s in sections && id in sections[s].rows)
    && LimitsOf(e) <= held
  }

  ghost predicate NumberedInv(y: Numbered) {
    && Inv(y.st) && Counted(y) && Apart(y) && LockOrder(y)
    && forall i | 0 <= i < |y.log| :: Housed(y.st.db.sections, y.log[i].event, y.log[i].held)
  }

  // -------------------------------------------------------------- statements

  ghost predicate OneWrite(t: Txn, t': Txn) {
    t'.held == t.held && (t'.writes == t.writes || exists w :: t'.writes == t.writes + [w])
  }

  lemma EnrollWrites(cat: Catalog, sections: map<SectionId, Section>, t: Txn, e: EnrollPc, now: nat, hold: bool)
    requires t.req.Enroll?
    ensures OneWrite(t, ExecEnroll(cat, sections, t, e, now, hold))
  {
    hide View, ViewAll, Others, OthersInTerm, DuplicateCourse, PrerequisitesMet, ClashesWith, CreditSum, Gate;
    hide HolderRow, ActiveOf;
    hide Waiting, NextPosition, Rank, CheckHolds;
  }

  lemma SwapWrites(cat: Catalog, sections: map<SectionId, Section>, t: Txn, w: SwapPc, now: nat, hold: bool)
    requires t.req.Swap?
    ensures OneWrite(t, ExecSwap(cat, sections, t, w, now, hold))
  {
    hide View, ViewAll, Others, OthersInTerm, DuplicateCourse, PrerequisitesMet, ClashesWith, CreditSum, Gate, HomeOf;
    hide ActiveOf, CheckHolds;
  }

  lemma DropWrites(sections: map<SectionId, Section>, t: Txn, d: DropPc)
    requires t.req.Drop?
    ensures OneWrite(t, ExecDrop(sections, t, d))
  {
    hide View, HomeOf, CheckHolds;
  }

  lemma PromoteWrites(cat: Catalog, sections: map<SectionId, Section>, t: Txn, p: PromotePc, now: nat)
    requires t.req.Promote?
    ensures OneWrite(t, ExecPromote(cat, sections, t, p, now))
  {
    hide View, Waiting, CheckHolds;
  }

  lemma OtherWrites(sections: map<SectionId, Section>, t: Txn)
    ensures t.req.Reorder? ==> forall r :: OneWrite(t, ExecReorder(sections, t, r))
    ensures t.req.Expire? ==> forall x :: OneWrite(t, ExecExpire(sections, t, x))
    ensures t.req.Edit? ==> forall u :: OneWrite(t, ExecEdit(sections, t, u))
  {
    hide View, Ordered, Waiting, Waiters, CheckHolds;
  }

  lemma ExecAppends(cat: Catalog, sections: map<SectionId, Section>, t: Txn, now: nat, hold: bool)
    ensures OneWrite(t, Exec(cat, sections, t, now, hold))
  {
    OtherWrites(sections, t);
    hide ExecEnroll, ExecDrop, ExecSwap, ExecPromote, ExecReorder, ExecExpire, ExecEdit;
    match t.pc
    case Enrolling(e) => if t.req.Enroll? { EnrollWrites(cat, sections, t, e, now, hold); }
    case Dropping(d) => if t.req.Drop? { DropWrites(sections, t, d); }
    case Swapping(w) => if t.req.Swap? { SwapWrites(cat, sections, t, w, now, hold); }
    case Promoting(p) => if t.req.Promote? { PromoteWrites(cat, sections, t, p, now); }
    case _ =>
  }

  lemma OneEvent(ws: seq<Write>, w: Write)
    ensures |EventsOf(ws)| <= |EventsOf(ws + [w])| <= |EventsOf(ws)| + 1
  {
    assert (ws + [w])[..|ws|] == ws;
  }

  lemma StatementEvents(cat: Catalog, st: State, a: Action)
    requires a.Statement? && Enabled(st, a)
    ensures var st' := Next(cat, st, a);
            && st'.db == st.db && st'.txns.Keys == st.txns.Keys && st'.txns[a.t].held == st.txns[a.t].held
            && (forall u <- st.txns | u != a.t :: st'.txns[u] == st.txns[u])
            && var before, after := |EventsOf(st.txns[a.t].writes)|, |EventsOf(st'.txns[a.t].writes)|;
               before <= after <= before + 1
  {
    ExecAppends(cat, st.db.sections, st.txns[a.t], a.now, a.hold);
    hide Exec, EventsOf;
    var t' := Exec(cat, st.db.sections, st.txns[a.t], a.now, a.hold);
    if w :| t'.writes == st.txns[a.t].writes + [w] { OneEvent(st.txns[a.t].writes, w); }
  }

  // Nothing changes but what transaction t has drawn: one id more.
  ghost predicate DrewOne(y: Numbered, y': Numbered, t: TxnId) {
    && t in y.st.txns && y'.log == y.log && y'.st.txns.Keys == y.st.txns.Keys
    && y'.next == y.next + 1 && y'.drawn == y.drawn[t := DrawnBy(y, t) + [y.next]]
    && (forall u <- y.st.txns :: y'.st.txns[u].held == y.st.txns[u].held)
    && (forall u <- y.st.txns | u != t :: y'.st.txns[u] == y.st.txns[u])
    && |EventsOf(y'.st.txns[t].writes)| == |EventsOf(y.st.txns[t].writes)| + 1
  }

  lemma DrawnMore(y: Numbered, y': Numbered, t: TxnId)
    requires DrewOne(y, y', t) && Counted(y)
    ensures Counted(y') && (Apart(y) ==> Apart(y')) && (LockOrder(y) ==> LockOrder(y'))
  {
    hide EventsOf;
    DrawnIs(y, y', t);
    assert Counted(y');
    hide DrawnBy;
    if Apart(y) { DrawnApart(y, y', t); }
    if LockOrder(y) { DrawnOrder(y, y', t); }
  }

  lemma DrawnIs(y: Numbered, y': Numbered, t: TxnId)
    requires DrewOne(y, y', t)
    ensures DrawnBy(y', t) == DrawnBy(y, t) + [y.next] && forall u | u != t :: DrawnBy(y', u) == DrawnBy(y, u)
  {
  }

  lemma DrawnApart(y: Numbered, y': Numbered, t: TxnId)
    requires DrewOne(y, y', t) && Counted(y) && Apart(y)
    requires DrawnBy(y', t) == DrawnBy(y, t) + [y.next] && forall u | u != t :: DrawnBy(y', u) == DrawnBy(y, u)
    ensures Apart(y')
  {
    hide DrawnBy, EventsOf;
  }

  lemma DrawnOrder(y: Numbered, y': Numbered, t: TxnId)
    requires DrewOne(y, y', t) && Counted(y) && LockOrder(y)
    requires DrawnBy(y', t) == DrawnBy(y, t) + [y.next] && forall u | u != t :: DrawnBy(y', u) == DrawnBy(y, u)
    ensures LockOrder(y')
  {
    hide DrawnBy, EventsOf;
    forall u <- y'.st.txns ensures Behind(y', u) { assert Behind(y, u); }
  }

  // Nothing is drawn: what is left of what was is as it was.
  ghost predicate DrewNone(y: Numbered, y': Numbered) {
    && y'.log == y.log && y'.next == y.next && y.st.txns.Keys <= y'.st.txns.Keys
    && (forall t <- y'.st.txns :: |DrawnBy(y', t)| == |EventsOf(y'.st.txns[t].writes)|)
    && (forall t :: DrawnBy(y', t) == []
                    || (t in y.st.txns && DrawnBy(y', t) == DrawnBy(y, t) && y'.st.txns[t].held == y.st.txns[t].held))
  }

  lemma DrawnSame(y: Numbered, y': Numbered)
    requires DrewNone(y, y') && Counted(y) && Apart(y) && LockOrder(y)
    ensures Counted(y') && Apart(y') && LockOrder(y')
  {
    hide DrawnBy, EventsOf;
    assert Counted(y') by { hide Apart, LockOrder; }
    assert Apart(y') by { hide LockOrder; }
    forall u <- y'.st.txns ensures Behind(y', u) { if u in y.st.txns { assert Behind(y, u); } }
  }

  // ------------------------------------------------------ what events speak of

  ghost predicate Covers(sec: Section, s: SectionId, events: seq<Event>) {
    forall e <- events :: RowsOf(e) <= sec.rows.Keys && LimitsOf(e) <= {s}
  }

  lemma EnrollCovers(sec: Section, s: SectionId, x: StudentId, id: RowId)
    ensures Covers(EnrollFx(sec, s, x, id).sec, s, EnrollFx(sec, s, x, id).events)
  {
    hide HolderRow, NextPosition, Rank, Waiting;
  }

  lemma DropCovers(sec: Section, s: SectionId, id: RowId)
    requires id in sec.rows
    ensures Covers(DropFx(sec, s, id).sec, s, DropFx(sec, s, id).events)
  {
  }

  lemma PromoteCovers(sec: Section, s: SectionId)
    ensures Covers(PromoteFx(sec, s).sec, s, PromoteFx(sec, s).events)
  {
    OrderedInRows(sec.rows);
    hide Ordered, Waiting;
    var ids, fx := Promotable(sec), PromoteFx(sec, s);
    forall e <- fx.events
      ensures RowsOf(e) <= fx.sec.rows.Keys && LimitsOf(e) <= {s}
    {
      var k :| 0 <= k < |ids| && fx.events[k] == e;
      assert ids[k] in ids && ids[k] in sec.rows;
    }
  }

  lemma ExpireCovers(sec: Section, s: SectionId)
    ensures Covers(ExpireFx(sec, s).sec, s, ExpireFx(sec, s).events)
  {
    OrderedInRows(sec.rows);
    hide Ordered, Waiting;
    var ids, fx := Ordered(sec.rows), ExpireFx(sec, s);
    forall e <- fx.events
      ensures RowsOf(e) <= fx.sec.rows.Keys && LimitsOf(e) <= {s}
    {
      var k :| 0 <= k < |ids| && fx.events[k] == e;
      assert ids[k] in sec.rows;
    }
  }

  lemma ReorderCovers(sec: Section, s: SectionId, order: seq<RowId>)
    ensures Covers(ReorderFx(sec, s, order).sec, s, ReorderFx(sec, s, order).events)
  {
    OrderedInRows(sec.rows);
    var fx := ReorderFx(sec, s, order);
    hide Ordered, IndexOf;
    if fx.events != [] { assert forall id <- order :: id in Waiting(sec.rows); }
  }

  lemma EditCovers(sec: Section, s: SectionId, c: Option<int>, w: Option<Option<nat>>)
    ensures Covers(EditFx(sec, s, c, w).sec, s, EditFx(sec, s, c, w).events)
  {
  }

  lemma CoversUnderLock(sections: map<SectionId, Section>, t: Txn)
    requires UnderLock(sections, t) && t.pc.Ready?
    ensures Covers(View(sections[t.home], t.home, t.writes), t.home, EventsOf(t.writes))
  {
    hide Covers, EnrollFx, DropFx, PromoteFx, ExpireFx, ReorderFx, EditFx, View, EventsOf, NotesOf;
    var s, sec := t.home, sections[t.home];
    match t.req {
      case Enroll(x, _, id) => EnrollCovers(sec, s, x, id);
      case Drop(id) => DropCovers(sec, s, id);
      case Promote(_) => PromoteCovers(sec, s); NothingCovers(sec, s);
      case Reorder(_, order) => ReorderCovers(sec, s, order);
      case Expire(_) => ExpireCovers(sec, s);
      case Edit(_, c, w) => EditCovers(sec, s, c, w);
    }
  }

  lemma NothingCovers(sec: Section, s: SectionId)
    ensures Covers(View(sec, s, []), s, EventsOf([]))
  {
  }

  lemma EventsHoused(db: Db, t: Txn)
    requires GoodTxn(db.sections, t) && t.pc.Ready?
    ensures forall e <- EventsOf(t.writes) :: Housed(CommitDb(db, t.writes).sections, e, t.held)
  {
    hide WritesIn, View, GoodEnrollPc, GoodDropPc, GoodPromotePc, GoodReorderPc, GoodExpirePc, GoodEditPc, GoodSwapPc;
    var sections, s := db.sections, t.home;
    if UnderLock(sections, t) {
      CoversUnderLock(sections, t);
      hide UnderLock, BeforeLock, BetweenLocks, UnderBothLocks, EventsOf, RowsOf, LimitsOf;
      forall e <- EventsOf(t.writes)
        ensures Housed(CommitDb(db, t.writes).sections, e, t.held)
      {
        assert s in t.held;
      }
    } else if UnderBothLocks(sections, t) {
      SwapHoused(db, t);
    }
  }

  lemma SwapHoused(db: Db, t: Txn)
    requires UnderBothLocks(db.sections, t) && t.pc.Ready?
    ensures forall e <- EventsOf(t.writes) :: Housed(CommitDb(db, t.writes).sections, e, t.held)
  {
    var s, u := t.home, t.req.target;
    assert SwapMatches(db.sections[s], db.sections[u], s, t.req, t.writes, t.pc.out);
    hide EventsOf, NotesOf, View, GoodSwap;
    var e := Swapped(t.req.id, s, db.sections[s].rows[t.req.id].status, t.req.newId, t.req.student, u);
    assert EventsOf(t.writes) == [e];
    assert s in t.held && u in t.held;
    forall id <- RowsOf(e)
      ensures exists h <- t.held ::
              h in CommitDb(db, t.writes).sections && id in CommitDb(db, t.writes).sections[h].rows
    {
      if id == t.req.id { assert id in CommitDb(db, t.writes).sections[s].rows; }
      else { assert id in CommitDb(db, t.writes).sections[u].rows; }
    }
  }

  // ----------------------------------------------------------------- commits

  // Transaction t's rows join the log.
  ghost predicate LogsRows(y: Numbered, y': Numbered, t: TxnId) {
    && t in y.st.txns && |DrawnBy(y, t)| == |EventsOf(y.st.txns[t].writes)|
    && y'.log == y.log + Rows(DrawnBy(y, t), EventsOf(y.st.txns[t].writes), y.st.txns[t].held)
    && y'.next == y.next && y'.st.txns.Keys == y.st.txns.Keys
    && DrawnBy(y', t) == [] && EventsOf(y'.st.txns[t].writes) == []
    && (forall u | u != t :: DrawnBy(y', u) == DrawnBy(y, u))
    && (forall u <- y.st.txns | u != t :: y'.st.txns[u] == y.st.txns[u])
  }

  lemma LogCounted(y: Numbered, y': Numbered, t: TxnId)
    requires LogsRows(y, y', t) && Counted(y)
    ensures Counted(y') && (Apart(y) ==> Apart(y'))
  {
    hide EventsOf, DrawnBy;
  }

  lemma LogOrdered(y: Numbered, y': Numbered, t: TxnId)
    requires LogsRows(y, y', t) && Counted(y) && Apart(y) && LockOrder(y)
    requires forall u <- y.st.txns | u != t :: y.st.txns[u].held !! y.st.txns[t].held
    ensures LockOrder(y')
  {
    hide EventsOf, DrawnBy;
    forall u <- y'.st.txns
      ensures Behind(y', u)
    {
      if u != t { assert Behind(y, u); }
    }
    assert Behind(y, t);
    assert Apart(y);
  }

  lemma HeldApart(st: State, t: TxnId)
    requires Inv(st) && t in st.txns
    ensures forall u <- st.txns | u != t :: st.txns[u].held !! st.txns[t].held
  {
    hide DbInvariant, TxnsGood, IdsKnown;
    assert LocksAgree(st);
    forall u <- st.txns | u != t
      ensures st.txns[u].held !! st.txns[t].held
    {
      assert forall s <- st.txns[u].held :: s in st.locks && st.locks[s] == u;
      assert forall s <- st.txns[t].held :: s in st.locks && st.locks[s] == t;
    }
  }

  lemma StillHoused(sections: map<SectionId, Section>, sections': map<SectionId, Section>, ids: set<RowId>,
                    log: seq<Logged>)
    requires GrowsBy(sections, sections', ids)
    requires forall i | 0 <= i < |log| :: Housed(sections, log[i].event, log[i].held)
    ensures forall i | 0 <= i < |log| :: Housed(sections', log[i].event, log[i].held)
  {
    hide RowsOf, LimitsOf;
    forall i | 0 <= i < |log|
      ensures Housed(sections', log[i].event, log[i].held)
    {
      assert Housed(sections, log[i].event, log[i].held);
      forall id <- RowsOf(log[i].event)
        ensures exists s <- log[i].held :: s in sections' && id in sections'[s].rows
      {
        var s :| s in log[i].held && s in sections && id in sections[s].rows;
        assert RowsGrow(sections[s].rows, sections'[s].rows, ids);
      }
    }
  }

  lemma CommitIs(cat: Catalog, y: Numbered, t: TxnId)
    requires Counted(y) && Enabled(y.st, Commit(t))
    ensures var y' := NumberedNext(cat, y, Commit(t));
            LogsRows(y, y', t) && y'.st.db == CommitDb(y.st.db, y.st.txns[t].writes)
            && y'.st == Next(cat, y.st, Commit(t))
  {
    hide CommitDb, Unlock;
  }

  lemma CommitNumbered(cat: Catalog, y: Numbered, t: TxnId)
    requires NumberedInv(y) && Enabled(y.st, Commit(t))
    ensures NumberedInv(NumberedNext(cat, y, Commit(t)))
  {
    hide Inv, Counted, Apart, LockOrder, Next, NumberedNext, GoodTxn, CommitDb, LogsRows, Housed, DbInvariant;
    var txn, y' := y.st.txns[t], NumberedNext(cat, y, Commit(t));
    var db' := CommitDb(y.st.db, txn.writes);
    TxnGood(y.st, t);
    assert txn.pc.Ready?;
    hide Enabled;
    CommitIs(cat, y, t);
    StepKeeps(cat, y.st, Commit(t));
    HeldApart(y.st, t);
    LogCounted(y, y', t);
    LogOrdered(y, y', t);
    CommitEffect(y.st, t, txn);
    StillHoused(y.st.db.sections, db'.sections, NewIds(txn.req), y.log);
    EventsHoused(y.st.db, txn);
    LogHoused(y, y', t, db'.sections);
  }

  lemma LogHoused(y: Numbered, y': Numbered, t: TxnId, sections: map<SectionId, Section>)
    requires LogsRows(y, y', t)
    requires forall i | 0 <= i < |y.log| :: Housed(sections, y.log[i].event, y.log[i].held)
    requires forall e <- EventsOf(y.st.txns[t].writes) :: Housed(sections, e, y.st.txns[t].held)
    ensures forall i | 0 <= i < |y'.log| :: Housed(sections, y'.log[i].event, y'.log[i].held)
  {
    hide Housed, EventsOf, DrawnBy;
    var events := EventsOf(y.st.txns[t].writes);
    forall i | 0 <= i < |y'.log|
      ensures Housed(sections, y'.log[i].event, y'.log[i].held)
    {
      if i >= |y.log| { assert y'.log[i].event == events[i - |y.log|] && events[i - |y.log|] in events; }
    }
  }

  // ------------------------------------------------------------- every step

  // A transaction that waits for a lock has written nothing.
  lemma WaitingUnwritten(sections: map<SectionId, Section>, t: Txn)
    requires GoodTxn(sections, t) && Wants(t).Some?
    ensures t.writes == []
  {
  }

  // A begin, a lock or a rollback leaves its transaction with nothing written.
  lemma QuietNext(cat: Catalog, st: State, a: Action)
    requires Inv(st) && Enabled(st, a) && !a.Commit? && !a.Statement?
    ensures var st' := Next(cat, st, a);
            && st'.db == st.db && st'.txns.Keys == st.txns.Keys + {a.t} && st'.txns[a.t].writes == []
            && forall u <- st.txns | u != a.t :: st'.txns[u] == st.txns[u]
  {
    hide Inv, Unlock, Wants, AfterLock, GoodTxn, CanBegin, Start, Locked, Missing, Exec, CommitDb;
    match a
    case Begin(_, req) => StartUnwritten(req);
    case Acquire(t) =>
      TxnGood(st, t);
      WaitingUnwritten(st.db.sections, st.txns[t]);
      LockUnwritten(st.txns[t]);
    case Rollback(_) =>
  }

  lemma StartUnwritten(req: Request)
    ensures Start(req).writes == []
  {
  }

  lemma LockUnwritten(t: Txn)
    ensures Missing(t).writes == t.writes && forall s, cols :: Locked(t, s, cols).writes == t.writes
  {
    hide AfterLock;
  }

  lemma QuietIs(cat: Catalog, y: Numbered, a: Action)
    requires Enabled(y.st, a) && !a.Commit? && !a.Statement?
    ensures var y' := NumberedNext(cat, y, a);
            && y'.st == Next(cat, y.st, a) && y'.log == y.log && y'.next == y.next
            && y'.drawn == if a.Rollback? then y.drawn[a.t := []] else y.drawn
  {
    hide Enabled, Next;
  }

  lemma QuietStep(cat: Catalog, y: Numbered, a: Action)
    requires Inv(y.st) && Counted(y) && Enabled(y.st, a) && !a.Commit? && !a.Statement?
    ensures DrewNone(y, NumberedNext(cat, y, a)) && NumberedNext(cat, y, a).st.db == y.st.db
  {
    hide Inv, Enabled, Next, NumberedNext, EventsOf, DrewNone, Counted, DrawnBy;
    if !a.Rollback? { NothingDrawn(y, a); }
    QuietNext(cat, y.st, a);
    QuietIs(cat, y, a);
    NoneDrawn(y, NumberedNext(cat, y, a), a.t, a.Rollback?);
  }

  lemma NoneDrawn(y: Numbered, y': Numbered, t: TxnId, reset: bool)
    requires Counted(y) && y'.log == y.log && y'.next == y.next
             && y'.drawn == (if reset then y.drawn[t := []] else y.drawn)
    requires reset || DrawnBy(y, t) == []
    requires y'.st.txns.Keys == y.st.txns.Keys + {t} && y'.st.txns[t].writes == []
    requires forall u <- y.st.txns | u != t :: y'.st.txns[u] == y.st.txns[u]
    ensures DrewNone(y, y')
  {
    assert EventsOf([]) == [];
    hide EventsOf;
  }

  // Before a begin or a lock nothing has been drawn.
  lemma NothingDrawn(y: Numbered, a: Action)
    requires Inv(y.st) && Counted(y) && Enabled(y.st, a) && (a.Begin? || a.Acquire?)
    ensures DrawnBy(y, a.t) == []
  {
    hide Inv, Wants, GoodTxn, CanBegin;
    if a.Acquire? {
      TxnGood(y.st, a.t);
      WaitingUnwritten(y.st.db.sections, y.st.txns[a.t]);
      assert EventsOf([]) == [];
    } else {
      assert a.t !in y.st.txns by { BeginsNew(y.st, a); }
    }
    hide EventsOf;
  }

  lemma BeginsNew(st: State, a: Action)
    requires Enabled(st, a) && a.Begin?
    ensures a.t !in st.txns
  {
  }

  lemma StatementStep(cat: Catalog, y: Numbered, a: Action)
    requires Counted(y) && Enabled(y.st, a) && a.Statement?
    ensures var y' := NumberedNext(cat, y, a);
            (DrewNone(y, y') || DrewOne(y, y', a.t)) && y'.st.db == y.st.db
  {
    hide EventsOf, Next, Enabled, NumberedNext, Counted, DrewNone, DrewOne;
    StatementEvents(cat, y.st, a);
    StatementIs(cat, y, a);
    var y' := NumberedNext(cat, y, a);
    if |EventsOf(y'.st.txns[a.t].writes)| == |EventsOf(y.st.txns[a.t].writes)| {
      SameDrawn(y, y', a.t);
    } else {
      OneDrawn(y, y', a.t);
    }
  }

  lemma SameDrawn(y: Numbered, y': Numbered, t: TxnId)
    requires Counted(y) && t in y.st.txns && y'.log == y.log && y'.next == y.next && y'.drawn == y.drawn
    requires y'.st.txns.Keys == y.st.txns.Keys && y'.st.txns[t].held == y.st.txns[t].held
    requires forall u <- y.st.txns | u != t :: y'.st.txns[u] == y.st.txns[u]
    requires |EventsOf(y'.st.txns[t].writes)| == |EventsOf(y.st.txns[t].writes)|
    ensures DrewNone(y, y')
  {
    hide EventsOf;
  }

  lemma OneDrawn(y: Numbered, y': Numbered, t: TxnId)
    requires t in y.st.txns && y'.log == y.log && y'.next == y.next + 1
             && y'.drawn == y.drawn[t := DrawnBy(y, t) + [y.next]]
    requires y'.st.txns.Keys == y.st.txns.Keys && y'.st.txns[t].held == y.st.txns[t].held
    requires forall u <- y.st.txns | u != t :: y'.st.txns[u] == y.st.txns[u]
    requires |EventsOf(y'.st.txns[t].writes)| == |EventsOf(y.st.txns[t].writes)| + 1
    ensures DrewOne(y, y', t)
  {
    hide EventsOf;
  }

  lemma StatementIs(cat: Catalog, y: Numbered, a: Action)
    requires Enabled(y.st, a) && a.Statement?
    ensures var y', st' := NumberedNext(cat, y, a), Next(cat, y.st, a);
            && a.t in y.st.txns && a.t in st'.txns && y'.st == st' && y'.log == y.log
            && if |EventsOf(st'.txns[a.t].writes)| > |EventsOf(y.st.txns[a.t].writes)|
               then y'.next == y.next + 1 && y'.drawn == y.drawn[a.t := DrawnBy(y, a.t) + [y.next]]
               else y'.next == y.next && y'.drawn == y.drawn
  {
    hide EventsOf, Exec;
  }

  lemma NumberedKeeps(cat: Catalog, y: Numbered, a: Action)
    requires NumberedInv(y) && Enabled(y.st, a)
    ensures NumberedInv(NumberedNext(cat, y, a)) && NumberedNext(cat, y, a).st == Next(cat, y.st, a)
  {
    hide Inv, Counted, Apart, LockOrder, Housed, Enabled, Next;
    StepKeeps(cat, y.st, a);
    var y' := NumberedNext(cat, y, a);
    assert y'.st == Next(cat, y.st, a);
    if a.Commit? {
      CommitNumbered(cat, y, a.t);
    } else {
      assert y'.log == y.log;
      hide NumberedNext;
      if a.Statement? { StatementStep(cat, y, a); } else { QuietStep(cat, y, a); }
      hide DrewNone, DrewOne;
      if DrewNone(y, y') { DrawnSame(y, y'); } else { DrawnMore(y, y', a.t); }
    }
  }

  lemma {:induction false} NumberedRuns(cat: Catalog, y: Numbered, actions: seq<Action>, y': Numbered)
    requires NumberedInv(y) && NumberedRun(cat, y, actions, y')
    ensures NumberedInv(y') && Run(cat, y.st, actions, y'.st)
    ensures y.log <= y'.log && y.st.db.outbox <= y'.st.db.outbox
    ensures EventsIn(y'.log[|y.log|..]) == y'.st.db.outbox[|y.st.db.outbox|..]
    decreases |actions|
  {
    if actions != [] {
      hide *;
      NumberedKeeps(cat, y, actions[0]);
      LogIsOutbox(cat, y, actions[0]);
      NumberedRuns(cat, NumberedNext(cat, y, actions[0]), actions[1..], y');
      LogsJoin(y, NumberedNext(cat, y, actions[0]), y');
    }
  }

  lemma LogsJoin(y: Numbered, mid: Numbered, y': Numbered)
    requires y.log <= mid.log <= y'.log && y.st.db.outbox <= mid.st.db.outbox <= y'.st.db.outbox
    requires EventsIn(mid.log[|y.log|..]) == mid.st.db.outbox[|y.st.db.outbox|..]
    requires EventsIn(y'.log[|mid.log|..]) == y'.st.db.outbox[|mid.st.db.outbox|..]
    ensures EventsIn(y'.log[|y.log|..]) == y'.st.db.outbox[|y.st.db.outbox|..]
  {
    hide EventsIn;
    EventsJoin(mid.log[|y.log|..], y'.log[|mid.log|..]);
    assert y'.log[|y.log|..] == mid.log[|y.log|..] + y'.log[|mid.log|..];
    var a, b, c := y.st.db.outbox, mid.st.db.outbox, y'.st.db.outbox;
    assert c[|a|..] == b[|a|..] + c[|b|..];
  }

  lemma EventsJoin(a: seq<Logged>, b: seq<Logged>)
    ensures EventsIn(a + b) == EventsIn(a) + EventsIn(b)
  {
  }

  lemma LogIsOutbox(cat: Catalog, y: Numbered, a: Action)
    requires NumberedInv(y) && Enabled(y.st, a)
    ensures var y' := NumberedNext(cat, y, a);
            && y.log <= y'.log && y.st.db.outbox <= y'.st.db.outbox
            && EventsIn(y'.log[|y.log|..]) == y'.st.db.outbox[|y.st.db.outbox|..]
  {
    hide Inv, Apart, LockOrder, Housed, Exec, ViewAll, NotesOf, EventsOf, Unlock, Wants;
    var y' := NumberedNext(cat, y, a);
    if a.Commit? {
      var events, txn := EventsOf(y.st.txns[a.t].writes), y.st.txns[a.t];
      var more := Rows(DrawnBy(y, a.t), events, txn.held);
      assert y'.log[|y.log|..] == more && EventsIn(more) == events;
      assert y'.st.db.outbox[|y.st.db.outbox|..] == events;
    }
  }

  // ---------------------------------------------------------------- by id

  lemma Overtakers(y: Numbered)
    requires NumberedInv(y)
    ensures OvertakesFreely(y.log)
  {
    assert IdsUnique(y.st.db.sections) by {
      DbSections(y.st.db);
      hide Counted, Apart, LockOrder, Housed, TxnsGood, LocksAgree, IdsKnown;
    }
    hide Inv, Counted, Apart, RowsOf, LimitsOf;
    forall i, j | 0 <= i < j < |y.log| && y.log[i].id > y.log[j].id
      ensures Unrelated(y.log[i].event, y.log[j].event)
    {
      assert y.log[i].held !! y.log[j].held;
      DisjointHomes(y.st.db.sections, y.log[i], y.log[j]);
    }
  }

  lemma DisjointHomes(sections: map<SectionId, Section>, p: Logged, q: Logged)
    requires IdsUnique(sections) && p.held !! q.held
    requires Housed(sections, p.event, p.held) && Housed(sections, q.event, q.held)
    ensures Unrelated(p.event, q.event)
  {
    hide RowsOf, LimitsOf;
    forall id | id in RowsOf(p.event)
      ensures id !in RowsOf(q.event)
    {
      var s :| s in p.held && s in sections && id in sections[s].rows;
    }
  }

  // After any interleaved run the ids of the committed outbox rows are all
  // different, and folding the rows in the order of their ids, which is not the
  // order of the commits, rebuilds the sections: any sections in order that the
  // result fits are the database's.
  lemma IdOrderRebuilds(cat: Catalog, y: Numbered, actions: seq<Action>, y': Numbered, book: Book,
                        sections: map<SectionId, Section>)
    requires Starts(y) && NumberedRun(cat, y, actions, y') && Reflects(book, y.st.db.sections)
    ensures Run(cat, y.st, actions, y'.st)
    ensures y.st.db.outbox <= y'.st.db.outbox && EventsIn(y'.log) == y'.st.db.outbox[|y.st.db.outbox|..]
    ensures Ascending(ById(y'.log)) && multiset(ById(y'.log)) == multiset(y'.log)
    ensures forall i, j | 0 <= i < j < |y'.log| :: y'.log[i].id != y'.log[j].id
    ensures var rebuilt := Replayed(book, EventsIn(ById(y'.log)));
            && Reflects(rebuilt, y'.st.db.sections)
            && (Reflects(rebuilt, sections) && (forall s <- sections :: SeatInvariant(sections[s])) ==>
                sections == y'.st.db.sections)
  {
    StartsNumbered(y);
    assert y'.log[|y.log|..] == y'.log;
    hide NumberedRun, Run, Reflects, SeatInvariant, Replayed, EventsIn, ById, Initial, Inv, Counted, LockOrder, Housed;
    hide OvertakesFreely;
    NumberedRuns(cat, y, actions, y');
    ByIdSorts(y'.log);
    Overtakers(y');
    ByIdReplays(book, y'.log);
    OutboxRebuilds(cat, y.st, actions, y'.st, book, sections);
  }

  lemma StartsNumbered(y: Numbered)
    requires Starts(y)
    ensures NumberedInv(y) && Initial(y.st)
  {
    InitialInv(y.st);
    hide DbInvariant, Inv;
  }
}
