// The audit outbox as a complete log: folding its events, in commit order,
// rebuilds every row and every section's capacity and cap; a row leaves once.
module AuditTrail {
  import opened Registry
  import opened Waitlist
  import opened Operations
  import opened Seats
  import opened Machine
  import opened Serializability
  import opened Runs

  // ---------------------------------------------------------------- replay

  datatype Entry = Entry(section: SectionId, row: Row)
  datatype Limits = Limits(capacity: int, waitlistCap: Option<nat>)

  // What a reader of the log knows.
  datatype Book = Book(entries: map<RowId, Entry>, limits: map<SectionId, Limits>)

  function Opened(book: Book, id: RowId, s: SectionId, row: Row): Book {
    book.(entries := book.entries[id := Entry(s, row)])
  }

  function Changed(book: Book, id: RowId, status: Status): Book {
    if id in book.entries
    then Opened(book, id, book.entries[id].section, Row(book.entries[id].row.student, status, None)) else book
  }

  function Renumber(entries: map<RowId, Entry>, order: seq<RowId>): map<RowId, Entry> {
    map id | id in entries ::
      if id in order then entries[id].(row := entries[id].row.(position := Some(IndexOf(order, id) + 1)))
      else entries[id]
  }

  function Record(book: Book, e: Event): Book {
    match e
    case Created(id, student, s) => Opened(book, id, s, Row(student, ENROLLED, None))
    case Waitlisted(id, student, s, p) => Opened(book, id, s, Row(student, WAITLISTED, Some(p)))
    case Dropped(id, _) => Changed(book, id, DROPPED)
    case WaitlistLeft(id, _) => Changed(book, id, DROPPED)
    case Expired(id, _) => Changed(book, id, DROPPED)
    case Promoted(id, _, _) => Changed(book, id, ENROLLED)
    case Swapped(oldId, _, _, newId, student, s) =>
      Opened(Changed(book, oldId, DROPPED), newId, s, Row(student, ENROLLED, None))
    case Reordered(_, _, order) => book.(entries := Renumber(book.entries, order))
    case SectionUpdated(s, _, capacity, cap) => book.(limits := book.limits[s := Limits(capacity, cap)])
  }

  function Replayed(book: Book, events: seq<Event>): Book {
    if events == [] then book else Record(Replayed(book, events[..|events| - 1]), events[|events| - 1])
  }

  lemma {:induction false} ReplayedConcat(book: Book, a: seq<Event>, b: seq<Event>)
    ensures Replayed(book, a + b) == Replayed(Replayed(book, a), b)
  {
    if b == [] {
      assert a + b == a;
    } else {
      var n := |b| - 1;
      assert (a + b)[..|a + b| - 1] == a + b[..n] && (a + b)[|a + b| - 1] == b[n];
      ReplayedConcat(book, a, b[..n]);
    }
  }

  ghost predicate EntryFits(e: Entry, sections: map<SectionId, Section>, id: RowId) {
    e.section in sections && id in sections[e.section].rows
  }

  ghost predicate SectionFits(book: Book, s: SectionId, sec: Section) {
    && (forall id <- sec.rows :: id in book.entries && book.entries[id] == Entry(s, sec.rows[id]))
    && s in book.limits && book.limits[s] == Limits(sec.cols.capacity, sec.cols.waitlistCap)
  }

  // The book describes exactly these sections.
  ghost predicate Reflects(book: Book, sections: map<SectionId, Section>) {
    && (forall id <- book.entries :: EntryFits(book.entries[id], sections, id))
    && (forall s <- sections :: SectionFits(book, s, sections[s]))
    && book.limits.Keys == sections.Keys
  }

  lemma BookSection(book: Book, a: map<SectionId, Section>, b: map<SectionId, Section>, s: SectionId)
    requires Reflects(book, a) && Reflects(book, b) && s in a
    ensures a.Keys == b.Keys && a[s].rows == b[s].rows
    ensures a[s].cols.capacity == b[s].cols.capacity && a[s].cols.waitlistCap == b[s].cols.waitlistCap
  {
    assert s in b;
    assert SectionFits(book, s, a[s]) && SectionFits(book, s, b[s]);
    forall id
      ensures id in a[s].rows <==> id in b[s].rows
      ensures id in a[s].rows ==> a[s].rows[id] == b[s].rows[id]
    {
      if id in a[s].rows || id in b[s].rows {
        assert EntryFits(book.entries[id], a, id) && EntryFits(book.entries[id], b, id);
      }
    }
  }

  // Under the seat invariant the book leaves nothing open: enrolledCount is
  // the number of ENROLLED entries.
  lemma BookDetermines(book: Book, a: map<SectionId, Section>, b: map<SectionId, Section>)
    requires Reflects(book, a) && Reflects(book, b)
    requires (forall s <- a :: SeatInvariant(a[s])) && (forall s <- b :: SeatInvariant(b[s]))
    ensures a == b
  {
    hide SeatInvariant, EntryFits, SectionFits;
    assert a.Keys == b.Keys;
    hide Reflects;
    forall s <- a
      ensures s in b && a[s] == b[s]
    {
      BookSection(book, a, b, s);
      SameCount(a[s], b[s]);
    }
  }

  lemma SameCount(a: Section, b: Section)
    requires SeatInvariant(a) && SeatInvariant(b) && a.rows == b.rows
    ensures a.cols.enrolledCount == b.cols.enrolledCount
  {
  }

  // ------------------------------------------------------------- one section

  // The id is this section's, or nobody's.
  ghost predicate Placed(book: Book, id: RowId, s: SectionId) {
    id in book.entries ==> book.entries[id].section == s
  }

  lemma PlacedIn(book: Book, sections: map<SectionId, Section>, s: SectionId, id: RowId)
    requires Reflects(book, sections) && s in sections
    requires id in sections[s].rows || FreshId(sections, id)
    ensures Placed(book, id, s)
    ensures id in sections[s].rows ==> id in book.entries && book.entries[id] == Entry(s, sections[s].rows[id])
    ensures FreshId(sections, id) ==> id !in book.entries
  {
    assert SectionFits(book, s, sections[s]);
    if id in book.entries { assert EntryFits(book.entries[id], sections, id); }
  }

  lemma RowElsewhere(book: Book, sections: map<SectionId, Section>, s: SectionId, id: RowId, row: Row, t: SectionId)
    requires t in sections && SectionFits(book, t, sections[t]) && t != s && Placed(book, id, s)
    ensures SectionFits(Opened(book, id, s, row), t, sections[t])
  {
  }

  lemma RowHere(book: Book, s: SectionId, sec: Section, id: RowId, row: Row, sec': Section)
    requires SectionFits(book, s, sec) && sec'.rows == sec.rows[id := row]
    requires sec'.cols.capacity == sec.cols.capacity && sec'.cols.waitlistCap == sec.cols.waitlistCap
    ensures SectionFits(Opened(book, id, s, row), s, sec')
  {
  }

  lemma RowWritten(book: Book, sections: map<SectionId, Section>, s: SectionId, id: RowId, row: Row, sec: Section)
    requires Reflects(book, sections) && s in sections && Placed(book, id, s)
    requires sec.rows == sections[s].rows[id := row]
    requires sec.cols.capacity == sections[s].cols.capacity && sec.cols.waitlistCap == sections[s].cols.waitlistCap
    ensures Reflects(Opened(book, id, s, row), sections[s := sec])
  {
    hide SectionFits;
    var book', sections' := Opened(book, id, s, row), sections[s := sec];
    forall i <- book'.entries
      ensures EntryFits(book'.entries[i], sections', i)
    {
      if i != id { assert EntryFits(book.entries[i], sections, i); }
    }
    hide Placed, EntryFits;
    forall t <- sections'
      ensures SectionFits(book', t, sections'[t])
    {
      assert SectionFits(book, t, sections[t]);
      if t == s { RowHere(book, s, sections[s], id, row, sec); } else { RowElsewhere(book, sections, s, id, row, t); }
    }
  }

  lemma ChangedIs(book: Book, sections: map<SectionId, Section>, s: SectionId, id: RowId, status: Status)
    requires Reflects(book, sections) && s in sections && id in sections[s].rows
    ensures Changed(book, id, status) == Opened(book, id, s, Row(sections[s].rows[id].student, status, None))
  {
    PlacedIn(book, sections, s, id);
  }

  // enrolledCount is derived, not logged.
  lemma CountFree(book: Book, sections: map<SectionId, Section>, s: SectionId, sec: Section, n: int)
    requires s in sections && Reflects(book, sections[s := sec])
    ensures Reflects(book, sections[s := sec.(cols := sec.cols.(enrolledCount := n))])
  {
    var before, after := sections[s := sec], sections[s := sec.(cols := sec.cols.(enrolledCount := n))];
    forall id <- book.entries
      ensures EntryFits(book.entries[id], after, id)
    {
      assert EntryFits(book.entries[id], before, id);
    }
    forall t <- after
      ensures SectionFits(book, t, after[t])
    {
      assert SectionFits(book, t, before[t]);
    }
  }

  // One more row of s closed or seated, one more event replayed.
  lemma ReplayNext(book: Book, events: seq<Event>, e: Event, sections: map<SectionId, Section>, s: SectionId,
                   sec: Section,
               id: RowId, status: Status, sec': Section)
    requires s in sections && Reflects(Replayed(book, events), sections[s := sec])
    requires id in sec.rows && sec' == Section(sec.cols, sec.rows[id := Row(sec.rows[id].student, status, None)])
    requires Record(Replayed(book, events), e) == Changed(Replayed(book, events), id, status)
    ensures Reflects(Replayed(book, events + [e]), sections[s := sec'])
  {
    assert (events + [e])[..|events|] == events;
    var now := sections[s := sec];
    ChangedIs(Replayed(book, events), now, s, id, status);
    PlacedIn(Replayed(book, events), now, s, id);
    RowWritten(Replayed(book, events), now, s, id, sec'.rows[id], sec');
    assert now[s := sec'] == sections[s := sec'];
    hide Reflects, Changed;
  }

  lemma NoneChanged(rows: map<RowId, Row>)
    ensures Seated(rows, []) == rows && Released(rows, []) == rows
  {
  }

  lemma PromotionNext(book: Book, rows: map<RowId, Row>, s: SectionId, ids: seq<RowId>, k: nat)
    requires 0 < k <= |ids| && forall id <- ids :: id in rows
    ensures var events, before, id := PromotionEvents(rows, s, ids), Seated(rows, ids[..k - 1]), ids[k - 1];
            && |events| == |ids| && events[..k] == events[..k - 1] + [events[k - 1]]
            && Record(book, events[k - 1]) == Changed(book, id, ENROLLED)
            && id in before && Seated(rows, ids[..k]) == before[id := Row(before[id].student, ENROLLED, None)]
  {
    assert ids[..k] == ids[..k - 1] + [ids[k - 1]];
    SeatedSnoc(rows, ids[..k - 1], ids[k - 1]);
  }

  lemma {:induction false} PromotionReplay(book: Book, sections: map<SectionId, Section>, s: SectionId, ids: seq<RowId>,
                                           k: nat)
    requires Reflects(book, sections) && s in sections && k <= |ids|
    requires forall id <- ids :: id in sections[s].rows
    ensures |PromotionEvents(sections[s].rows, s, ids)| == |ids|
    ensures Reflects(Replayed(book, PromotionEvents(sections[s].rows, s, ids)[..k]),
                     sections[s := Section(sections[s].cols, Seated(sections[s].rows, ids[..k]))])
  {
    hide Reflects, Record, Changed, Seated;
    var rows, cols := sections[s].rows, sections[s].cols;
    var events := PromotionEvents(rows, s, ids);
    if k == 0 {
      NoneChanged(rows);
      assert ids[..0] == [] && sections[s := Section(cols, rows)] == sections;
    } else {
      PromotionReplay(book, sections, s, ids, k - 1);
      PromotionNext(Replayed(book, events[..k - 1]), rows, s, ids, k);
      hide *;
      ReplayNext(book, events[..k - 1], events[k - 1], sections, s, Section(cols, Seated(rows, ids[..k - 1])),
                 ids[k - 1], ENROLLED, Section(cols, Seated(rows, ids[..k])));
    }
  }

  lemma ExpiryNext(book: Book, rows: map<RowId, Row>, s: SectionId, ids: seq<RowId>, k: nat)
    requires 0 < k <= |ids| && forall id <- ids :: id in rows
    ensures var events, before, id := ExpiryEvents(rows, ids), Released(rows, ids[..k - 1]), ids[k - 1];
            && |events| == |ids| && events[..k] == events[..k - 1] + [events[k - 1]]
            && Record(book, events[k - 1]) == Changed(book, id, DROPPED)
            && id in before && Released(rows, ids[..k]) == before[id := Row(before[id].student, DROPPED, None)]
  {
    assert ids[..k] == ids[..k - 1] + [ids[k - 1]];
    ReleasedSnoc(rows, ids[..k - 1], ids[k - 1]);
  }

  lemma {:induction false} ExpiryReplay(book: Book, sections: map<SectionId, Section>, s: SectionId, ids: seq<RowId>,
                                        k: nat)
    requires Reflects(book, sections) && s in sections && k <= |ids|
    requires forall id <- ids :: id in sections[s].rows
    ensures |ExpiryEvents(sections[s].rows, ids)| == |ids|
    ensures Reflects(Replayed(book, ExpiryEvents(sections[s].rows, ids)[..k]),
                     sections[s := Section(sections[s].cols, Released(sections[s].rows, ids[..k]))])
  {
    hide Reflects, Record, Changed, Released;
    var rows, cols := sections[s].rows, sections[s].cols;
    var events := ExpiryEvents(rows, ids);
    if k == 0 {
      NoneChanged(rows);
      assert ids[..0] == [] && sections[s := Section(cols, rows)] == sections;
    } else {
      ExpiryReplay(book, sections, s, ids, k - 1);
      ExpiryNext(Replayed(book, events[..k - 1]), rows, s, ids, k);
      hide *;
      ReplayNext(book, events[..k - 1], events[k - 1], sections, s, Section(cols, Released(rows, ids[..k - 1])),
                 ids[k - 1], DROPPED, Section(cols, Released(rows, ids[..k])));
    }
  }

  lemma PromoteReplay(book: Book, sections: map<SectionId, Section>, s: SectionId)
    requires Reflects(book, sections) && s in sections
    ensures var fx := PromoteFx(sections[s], s);
            Reflects(Replayed(book, fx.events), sections[s := fx.sec])
  {
    hide Reflects, Replayed, Seated, Ordered;
    var sec := sections[s];
    var ids := Promotable(sec);
    OrderedInRows(sec.rows);
    PromotionReplay(book, sections, s, ids, |ids|);
    var events := PromotionEvents(sec.rows, s, ids);
    assert ids[..|ids|] == ids && events[..|ids|] == events;
    hide PromotionEvents, Promotable;
    CountFree(Replayed(book, events), sections, s, Section(sec.cols, Seated(sec.rows, ids)),
              sec.cols.enrolledCount + |ids|);
  }

  lemma ExpireReplay(book: Book, sections: map<SectionId, Section>, s: SectionId)
    requires Reflects(book, sections) && s in sections
    ensures var fx := ExpireFx(sections[s], s);
            Reflects(Replayed(book, fx.events), sections[s := fx.sec])
  {
    hide Reflects, Replayed, Released, Ordered;
    var sec := sections[s];
    var ids := Ordered(sec.rows);
    OrderedInRows(sec.rows);
    ExpiryReplay(book, sections, s, ids, |ids|);
    var events := ExpiryEvents(sec.rows, ids);
    assert ids[..|ids|] == ids && events[..|ids|] == events;
  }

  lemma ReplayOne(book: Book, e: Event)
    ensures Replayed(book, [e]) == Record(book, e) && Replayed(book, []) == book
  {
    assert [e][..0] == [];
  }

  lemma ReplayNone(book: Book)
    ensures Replayed(book, []) == book
  {
  }

  lemma EnrollReplay(book: Book, sections: map<SectionId, Section>, s: SectionId, x: StudentId, id: RowId)
    requires Reflects(book, sections) && s in sections && FreshId(sections, id)
    ensures var fx := EnrollFx(sections[s], s, x, id);
            Reflects(Replayed(book, fx.events), sections[s := fx.sec])
  {
    var sec := sections[s];
    var fx := EnrollFx(sec, s, x, id);
    if fx.events == [] {
      assert sections[s := sec] == sections;
    } else {
      ReplayOne(book, fx.events[0]);
      PlacedIn(book, sections, s, id);
      hide Reflects, Replayed, FreshId, Placed, HolderRow, Rank, NextPosition, Waiting;
      RowWritten(book, sections, s, id, fx.sec.rows[id], fx.sec);
    }
  }

  lemma DropReplay(book: Book, sections: map<SectionId, Section>, s: SectionId, id: RowId)
    requires Reflects(book, sections) && s in sections && id in sections[s].rows
    ensures var fx := DropFx(sections[s], s, id);
            Reflects(Replayed(book, fx.events), sections[s := fx.sec])
  {
    var sec := sections[s];
    var fx := DropFx(sec, s, id);
    if fx.events == [] {
      assert sections[s := sec] == sections;
    } else {
      ReplayOne(book, fx.events[0]);
      ChangedIs(book, sections, s, id, DROPPED);
      PlacedIn(book, sections, s, id);
      hide Reflects, Replayed, Placed;
      RowWritten(book, sections, s, id, fx.sec.rows[id], fx.sec);
    }
  }

  lemma SwapOutReplay(book: Book, sections: map<SectionId, Section>, source: SectionId, id: RowId)
    requires Reflects(book, sections) && source in sections && id in sections[source].rows
    ensures Reflects(Changed(book, id, DROPPED), sections[source := SwapOut(sections[source], id)])
  {
    ChangedIs(book, sections, source, id, DROPPED);
    PlacedIn(book, sections, source, id);
    hide Reflects, Placed, Changed;
    RowWritten(book, sections, source, id, Release(sections[source].rows[id]), SwapOut(sections[source], id));
  }

  lemma SwapInReplay(book: Book, sections: map<SectionId, Section>, target: SectionId, x: StudentId, newId: RowId)
    requires Reflects(book, sections) && target in sections && FreshId(sections, newId)
    ensures Reflects(Opened(book, newId, target, Row(x, ENROLLED, None)),
                     sections[target := SwapIn(sections[target], x, newId)])
  {
    PlacedIn(book, sections, target, newId);
    hide Reflects, Placed, FreshId;
    RowWritten(book, sections, target, newId, Row(x, ENROLLED, None), SwapIn(sections[target], x, newId));
  }

  lemma SwapReplay(book: Book, db: Db, source: SectionId, req: Request)
    requires Reflects(book, db.sections) && req.Swap? && FreshId(db.sections, req.newId)
    requires source in db.sections && req.target in db.sections && source != req.target
             && req.id in db.sections[source].rows
    ensures Reflects(Replayed(book, SwapDb(db, source, req).outbox[|db.outbox|..]), SwapDb(db, source, req).sections)
  {
    hide Reflects, Replayed, Changed, Opened;
    var sections := db.sections;
    var e := Swapped(req.id, source, sections[source].rows[req.id].status, req.newId, req.student, req.target);
    assert SwapDb(db, source, req).outbox[|db.outbox|..] == [e];
    ReplayOne(book, e);
    var out := SwapOut(sections[source], req.id);
    assert FreshId(sections[source := out], req.newId) by { hide Reflects, Replayed; }
    hide Reflects, FreshId, Replayed, Changed, Opened, SwapOut, SwapIn;
    SwapOutReplay(book, sections, source, req.id);
    SwapInReplay(Changed(book, req.id, DROPPED), sections[source := out], req.target, req.student, req.newId);
  }

  // order lists rows of s only.
  lemma RenumberFits(book: Book, sections: map<SectionId, Section>, s: SectionId, order: seq<RowId>, t: SectionId)
    requires s in sections && t in sections && SectionFits(book, t, sections[t])
    requires forall id <- order :: id in sections[s].rows && id in book.entries && book.entries[id].section == s
    ensures SectionFits(book.(entries := Renumber(book.entries, order)), t,
                        if t == s then Section(sections[s].cols, Renumbered(sections[s].rows, order)) else sections[t])
  {
    hide IndexOf;
  }

  lemma RenumberEntries(book: Book, sections: map<SectionId, Section>, s: SectionId, order: seq<RowId>, id: RowId)
    requires s in sections && id in book.entries && EntryFits(book.entries[id], sections, id)
    ensures EntryFits(Renumber(book.entries, order)[id],
                      sections[s := Section(sections[s].cols, Renumbered(sections[s].rows, order))], id)
  {
    hide IndexOf;
  }

  lemma OrderPlaced(book: Book, sections: map<SectionId, Section>, s: SectionId, order: seq<RowId>)
    requires Reflects(book, sections) && s in sections && forall id <- order :: id in sections[s].rows
    ensures forall id <- order :: id in book.entries && book.entries[id].section == s
  {
    assert SectionFits(book, s, sections[s]);
  }

  lemma RenumberReflects(book: Book, sections: map<SectionId, Section>, s: SectionId, order: seq<RowId>)
    requires Reflects(book, sections) && s in sections && forall id <- order :: id in sections[s].rows
    ensures Reflects(book.(entries := Renumber(book.entries, order)),
                     sections[s := Section(sections[s].cols, Renumbered(sections[s].rows, order))])
  {
    OrderPlaced(book, sections, s, order);
    var book', sections' := book.(entries := Renumber(book.entries, order)),
                            sections[s := Section(sections[s].cols, Renumbered(sections[s].rows, order))];
    hide Renumbered;
    assert book'.entries.Keys == book.entries.Keys;
    hide SectionFits, EntryFits, Renumber;
    forall i <- book'.entries
      ensures EntryFits(book'.entries[i], sections', i)
    {
      RenumberEntries(book, sections, s, order, i);
    }
    forall t <- sections'
      ensures SectionFits(book', t, sections'[t])
    {
      RenumberFits(book, sections, s, order, t);
    }
  }

  lemma ReorderReplay(book: Book, sections: map<SectionId, Section>, s: SectionId, order: seq<RowId>)
    requires Reflects(book, sections) && s in sections
    ensures var fx := ReorderFx(sections[s], s, order);
            Reflects(Replayed(book, fx.events), sections[s := fx.sec])
  {
    hide Reflects, Replayed, Ordered, Renumbered, Renumber;
    var sec := sections[s];
    var fx := ReorderFx(sec, s, order);
    if fx.events == [] {
      ReplayNone(book);
      assert sections[s := sec] == sections;
    } else {
      ReplayOne(book, fx.events[0]);
      assert forall id <- order :: id in Waiting(sec.rows);
      RenumberReflects(book, sections, s, order);
    }
  }

  lemma EditReplay(book: Book, sections: map<SectionId, Section>, s: SectionId, c: Option<int>, w: Option<Option<nat>>)
    requires Reflects(book, sections) && s in sections
    ensures var fx := EditFx(sections[s], s, c, w);
            Reflects(Replayed(book, fx.events), sections[s := fx.sec])
  {
    hide Replayed;
    var sec := sections[s];
    var fx := EditFx(sec, s, c, w);
    ReplayNone(book);
    if fx.events == [] {
      assert sections[s := sec] == sections;
    } else {
      ReplayOne(book, fx.events[0]);
    }
  }

  // ------------------------------------------------------------ whole runs

  // The log only grows, and its new events describe exactly what changed.
  ghost predicate LogsFrom(book: Book, db: Db, db': Db) {
    db.outbox <= db'.outbox && Reflects(Replayed(book, db'.outbox[|db.outbox|..]), db'.sections)
  }

  lemma OneLogged(book: Book, db: Db, s: SectionId, fx: Effect, out: Outcome, db': Db)
    requires OneSection(db, s, fx, out, db') && Reflects(Replayed(book, fx.events), db.sections[s := fx.sec])
    ensures LogsFrom(book, db, db')
  {
    hide Reflects, Replayed;
    assert (db.outbox + fx.events)[|db.outbox|..] == fx.events;
  }

  lemma NothingLogged(book: Book, db: Db)
    requires Reflects(book, db.sections)
    ensures LogsFrom(book, db, db)
  {
    assert db.outbox[|db.outbox|..] == [];
  }

  lemma SwapLogged(book: Book, db: Db, req: Request, out: Outcome, db': Db)
    requires req.Swap? && FreshId(db.sections, req.newId) && AtomicSwap(db, req, out, db')
    requires Reflects(book, db.sections)
    ensures LogsFrom(book, db, db')
  {
    hide Reflects, Replayed;
    if out.SameSection? {
      NothingLogged(book, db);
    } else {
      SwapReplay(book, db, HomeOf(db.sections, req.id).value, req);
    }
  }

  // Every atomic operation logs exactly its change.
  lemma AtomicLogged(book: Book, db: Db, req: Request, out: Outcome, db': Db)
    requires WellFormed(db, req) && Atomic(db, req, out, db') && Reflects(book, db.sections)
    ensures LogsFrom(book, db, db')
  {
    hide Reflects, Replayed, LogsFrom, OneSection, AtomicSwap, EnrollFx, DropFx, PromoteFx, ReorderFx, ExpireFx, EditFx;
    hide FreshId;
    NothingLogged(book, db);
    var sections := db.sections;
    match req {
      case Enroll(x, s, id) =>
        EnrollReplay(book, sections, s, x, id);
        OneLogged(book, db, s, EnrollFx(sections[s], s, x, id), out, db');
      case Drop(id) =>
        var s := HomeOf(sections, id).value;
        DropReplay(book, sections, s, id);
        OneLogged(book, db, s, DropFx(sections[s], s, id), out, db');
      case Swap(_, _, _, _) => SwapLogged(book, db, req, out, db');
      case Promote(s) =>
        if db' != db { PromoteReplay(book, sections, s); OneLogged(book, db, s, PromoteFx(sections[s], s), out, db'); }
      case Reorder(s, order) =>
        ReorderReplay(book, sections, s, order);
        OneLogged(book, db, s, ReorderFx(sections[s], s, order), out, db');
      case Expire(s) =>
        if db' != db { ExpireReplay(book, sections, s); OneLogged(book, db, s, ExpireFx(sections[s], s), out, db'); }
      case Edit(s, c, w) =>
        EditReplay(book, sections, s, c, w);
        OneLogged(book, db, s, EditFx(sections[s], s, c, w), out, db');
    }
  }

  lemma LogsCompose(book: Book, db: Db, mid: Db, db': Db)
    requires LogsFrom(book, db, mid) && LogsFrom(Replayed(book, mid.outbox[|db.outbox|..]), mid, db')
    ensures LogsFrom(book, db, db')
  {
    hide Reflects, Replayed;
    var a, b := mid.outbox[|db.outbox|..], db'.outbox[|mid.outbox|..];
    assert db'.outbox[|db.outbox|..] == a + b;
    ReplayedConcat(book, a, b);
  }

  // The log rebuilds the database after any serial run.
  lemma {:induction false} SerialLogged(book: Book, db: Db, ops: seq<Op>, db': Db)
    requires DbInvariant(db) && Serial(db, ops, db') && Reflects(book, db.sections)
    ensures DbInvariant(db') && LogsFrom(book, db, db')
    decreases |ops|
  {
    if ops == [] {
      NothingLogged(book, db);
    } else {
      var mid :| AtomicStep(db, ops[0], mid) && Serial(mid, ops[1..], db');
      DbSections(db);
      AtomicLogged(book, db, ops[0].req, ops[0].out, mid);
      AtomicKeeps(db, ops[0].req, ops[0].out, mid);
      hide Atomic, WellFormed, DbInvariant, GrowsBy, Replayed, Reflects;
      var book' := Replayed(book, mid.outbox[|db.outbox|..]);
      assert Reflects(book', mid.sections);
      SerialLogged(book', mid, ops[1..], db');
      hide LogsFrom;
      LogsCompose(book, db, mid, db');
    }
  }

  // After any interleaved run, folding the outbox events of the run, in commit
  // order, over the initial state gives the sections as they are: any sections
  // in order that the book fits are the database's.
  lemma OutboxRebuilds(cat: Catalog, st: State, actions: seq<Action>, st': State, book: Book,
                       sections: map<SectionId, Section>)
    requires Initial(st) && Run(cat, st, actions, st') && Reflects(book, st.db.sections)
    ensures st.db.outbox <= st'.db.outbox
    ensures var rebuilt := Replayed(book, st'.db.outbox[|st.db.outbox|..]);
            && Reflects(rebuilt, st'.db.sections)
            && (Reflects(rebuilt, sections) && (forall s <- sections :: SeatInvariant(sections[s])) ==>
                sections == st'.db.sections)
  {
    InitialInv(st);
    RunRefines(cat, st, actions, st');
    SerialLogged(book, st.db, Commits(cat, st, actions), st'.db);
    DbSections(st'.db);
    hide Run, Serial, Commits, Reflects, SeatInvariant, DbInvariant, Replayed, TxnsGood, LocksAgree, IdsKnown;
    var rebuilt := Replayed(book, st'.db.outbox[|st.db.outbox|..]);
    if Reflects(rebuilt, sections) && forall s <- sections :: SeatInvariant(sections[s]) {
      BookDetermines(rebuilt, sections, st'.db.sections);
    }
  }

  // An enroll that finds its student already in changes and logs nothing.
  lemma IdempotentEnroll(cat: Catalog, db: Db, req: Request, now: nat, hold: bool)
    requires req.Enroll? && req.section in db.sections && ActiveOf(db.sections[req.section].rows, req.student) != {}
    ensures EnrollOp(cat, db, req, now, hold).0 == db
    ensures Gate(cat, req.student, req.section, now, hold).None? ==> EnrollOp(cat, db, req, now, hold).1.Already?
  {
    var sec := db.sections[req.section];
    assert db.sections[req.section := sec] == db.sections;
    hide Verdict, Gate, ActiveSeats;
  }
}
