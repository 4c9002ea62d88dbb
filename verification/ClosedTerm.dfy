// Runs of whole operations with a clock: once a term's registration is over
// its sections only lose rows, and one expiry pass empties exactly the
// waitlists of the terms that are over.
module ClosedTerm {
  import opened Registry
  import opened Waitlist
  import opened Operations
  import opened Seats
  import opened Machine
  import opened Serializability
  import opened Lifecycle

  datatype Call = Call(req: Request, now: nat, hold: bool)

  ghost predicate Calls(cat: Catalog, db: Db, calls: seq<Call>, db': Db)
    decreases |calls|
  {
    if calls == [] then db' == db else
      && WellFormed(db, calls[0].req)
      && Calls(cat, Apply(cat, db, calls[0].req, calls[0].now, calls[0].hold).0, calls[1..], db')
  }

  lemma PutNothing(db: Db, s: SectionId, out: Outcome)
    requires s in db.sections
    ensures Put(db, s, Nothing(db.sections[s], out)) == db
  {
    assert db.sections[s := db.sections[s]] == db.sections;
  }

  lemma EnrollErrs(cat: Catalog, db: Db, req: Request, now: nat, hold: bool)
    requires req.Enroll? && EnrollOp(cat, db, req, now, hold).1.Error?
    ensures EnrollOp(cat, db, req, now, hold).0 == db
  {
    hide Verdict, Gate, Rank, NextPosition, ActiveSeats;
    if req.section in db.sections { PutNothing(db, req.section, EnrollOp(cat, db, req, now, hold).1); }
  }

  // An operation run alone, with every check, is one atomic operation or an
  // error that changes nothing.
  lemma ApplyIsAtomic(cat: Catalog, db: Db, req: Request, now: nat, hold: bool)
    ensures var (db', out) := Apply(cat, db, req, now, hold);
            if out.Error? then db' == db else Atomic(db, req, out, db')
  {
    hide EnrollFx, ReorderFx, EditFx, Seated, Released, Ordered, Promotable, PromotionEvents, ExpiryEvents, Verdict;
    hide Gate, ActiveSeats, SwapDb;
    match req
    case Enroll(_, s, _) => if EnrollOp(cat, db, req, now, hold).1.Error? { EnrollErrs(cat, db, req, now, hold); }
    case Drop(id) =>
      var home := HomeOf(db.sections, id);
      if home.Some? { PutNothing(db, home.value, Error(ALREADY_DROPPED)); }
    case Reorder(s, order) =>
      if s in db.sections { ReorderErrs(db.sections[s], s, order); PutNothing(db, s, Error(WAITLIST_CHANGED)); }
    case Edit(s, c, w) =>
      if s in db.sections { EditErrs(db.sections[s], s, c, w); PutNothing(db, s, Error(CAPACITY_BELOW_ENROLLED)); }
    case _ =>
  }

  lemma ReorderErrs(sec: Section, s: SectionId, order: seq<RowId>)
    ensures ReorderFx(sec, s, order).out.Error? ==> ReorderFx(sec, s, order) == Nothing(sec, Error(WAITLIST_CHANGED))
  {
  }

  lemma EditErrs(sec: Section, s: SectionId, c: Option<int>, w: Option<Option<nat>>)
    ensures EditFx(sec, s, c, w).out.Error? ==> EditFx(sec, s, c, w) == Nothing(sec, Error(CAPACITY_BELOW_ENROLLED))
  {
  }

  // ------------------------------------------------------------ after closing

  ghost predicate OnlyShrinks(sec: Section, sec': Section) {
    sec'.rows.Keys == sec.rows.Keys && Enrolled(sec'.rows) <= Enrolled(sec.rows)
    && Waiting(sec'.rows) <= Waiting(sec.rows)
  }

  // With registration over, enroll, swap-in and promotion leave the section alone.
  lemma ClosedGate(cat: Catalog, db: Db, req: Request, now: nat, hold: bool, s: SectionId)
    requires s in db.sections && cat.closes(cat.term(s)) < now
    requires (req.Enroll? && req.section == s) || (req.Swap? && req.target == s) || (req.Promote? && req.section == s)
    ensures Apply(cat, db, req, now, hold).0 == db
  {
    hide Verdict, EnrollFx, PromoteFx, SwapDb;
  }

  lemma ClosedStep(cat: Catalog, db: Db, req: Request, now: nat, hold: bool, s: SectionId)
    requires WellFormed(db, req) && s in db.sections && cat.closes(cat.term(s)) < now
    ensures var db' := Apply(cat, db, req, now, hold).0;
            s in db'.sections && OnlyShrinks(db.sections[s], db'.sections[s])
  {
    var (db', out) := Apply(cat, db, req, now, hold);
    ApplyIsAtomic(cat, db, req, now, hold);
    if (req.Enroll? && req.section == s) || (req.Swap? && req.target == s) || (req.Promote? && req.section == s) {
      ClosedGate(cat, db, req, now, hold, s);
    } else if !out.Error? {
      AtomicMoves(db, req, out, db');
      hide Apply, Atomic, WellFormed;
      assert SectionMoves(req, s, db.sections[s], db'.sections[s]);
      ShrinksBy(req, s, db.sections[s], db'.sections[s]);
    }
  }

  lemma ShrinksBy(req: Request, s: SectionId, sec: Section, sec': Section)
    requires SectionMoves(req, s, sec, sec')
    requires !((req.Enroll? && req.section == s) || (req.Swap? && req.target == s)
               || (req.Promote? && req.section == s))
    ensures OnlyShrinks(sec, sec')
  {
    forall id <- sec'.rows
      ensures id in sec.rows
      ensures sec'.rows[id].status.ENROLLED? ==> sec.rows[id].status.ENROLLED?
      ensures sec'.rows[id].status.WAITLISTED? ==> sec.rows[id].status.WAITLISTED?
    {
      if id in sec.rows { assert Moves(req, s, sec.rows[id], sec'.rows[id]); } else { assert false; }
    }
  }

  // After a term closes its sections gain no ENROLLED and no WAITLISTED row,
  // whatever is called.
  lemma {:induction false} ClosedSectionsOnlyShrink(cat: Catalog, db: Db, calls: seq<Call>, db': Db, s: SectionId)
    requires Calls(cat, db, calls, db') && s in db.sections
    requires forall c <- calls :: cat.closes(cat.term(s)) < c.now
    ensures s in db'.sections && OnlyShrinks(db.sections[s], db'.sections[s])
    decreases |calls|
  {
    if calls != [] {
      var c := calls[0];
      assert c in calls && forall d <- calls[1..] :: d in calls;
      ClosedStep(cat, db, c.req, c.now, c.hold, s);
      hide Apply, WellFormed;
      ClosedSectionsOnlyShrink(cat, Apply(cat, db, c.req, c.now, c.hold).0, calls[1..], db', s);
    }
  }

  // -------------------------------------------------------------- expiry pass

  // The sections expireClosedWaitlists selects.
  predicate Affected(cat: Catalog, sections: map<SectionId, Section>, now: nat, s: SectionId) {
    s in sections && cat.closes(cat.term(s)) < now && Waiting(sections[s].rows) != {}
  }

  function ExpirePass(db: Db, list: seq<SectionId>): Db {
    if list == [] then db else ExpireOp(ExpirePass(db, list[..|list| - 1]), list[|list| - 1]).0
  }

  // One EXPIRED event and one notification per waiting row, section by section.
  function PassEvents(sections: map<SectionId, Section>, list: seq<SectionId>): seq<Event> {
    if list == [] then [] else
      var s := list[|list| - 1];
      PassEvents(sections, list[..|list| - 1]) + (if s in sections then ExpireFx(sections[s], s).events else [])
  }

  function PassNotes(sections: map<SectionId, Section>, list: seq<SectionId>): seq<Note> {
    if list == [] then [] else
      var s := list[|list| - 1];
      PassNotes(sections, list[..|list| - 1]) + (if s in sections then ExpireFx(sections[s], s).notes else [])
  }

  function Emptied(sec: Section): Section { Section(sec.cols, Released(sec.rows, Ordered(sec.rows))) }

  function EmptiedAll(sections: map<SectionId, Section>, list: seq<SectionId>): map<SectionId, Section> {
    map s | s in sections :: if s in list then Emptied(sections[s]) else sections[s]
  }

  lemma EmptiedNext(sections: map<SectionId, Section>, done: seq<SectionId>, s: SectionId)
    requires s !in done
    ensures var mid := EmptiedAll(sections, done);
            && EmptiedAll(sections, done + [s]) == (if s in sections then mid[s := Emptied(sections[s])] else mid)
            && mid.Keys == sections.Keys && (s in sections ==> mid[s] == sections[s])
  {
    hide Emptied;
    assert forall t :: t in done + [s] <==> t in done || t == s;
  }

  lemma ExpireStep(db: Db, mid: Db, s: SectionId)
    requires s in mid.sections <==> s in db.sections
    requires s in db.sections ==> mid.sections[s] == db.sections[s]
    ensures ExpireOp(mid, s).0 ==
              if s in db.sections
              then Db(mid.sections[s := Emptied(db.sections[s])], mid.outbox + ExpireFx(db.sections[s], s).events,
                      mid.notes + ExpireFx(db.sections[s], s).notes)
              else mid
  {
    hide Released, Ordered;
  }

  lemma PassNext(db: Db, done: seq<SectionId>, s: SectionId)
    ensures ExpirePass(db, done + [s]) == ExpireOp(ExpirePass(db, done), s).0
    ensures PassEvents(db.sections, done + [s])
         == PassEvents(db.sections, done) + (if s in db.sections then ExpireFx(db.sections[s], s).events else [])
    ensures PassNotes(db.sections, done + [s])
         == PassNotes(db.sections, done) + (if s in db.sections then ExpireFx(db.sections[s], s).notes else [])
  {
    assert (done + [s])[..|done + [s]| - 1] == done;
    hide ExpireOp, ExpireFx;
  }

  lemma {:induction false} ExpirePassIs(db: Db, list: seq<SectionId>)
    requires Distinct(list)
    ensures ExpirePass(db, list) == Db(EmptiedAll(db.sections, list), db.outbox + PassEvents(db.sections, list),
                                       db.notes + PassNotes(db.sections, list))
  {
    hide ExpireFx, ExpireOp, Emptied;
    if list == [] {
      assert EmptiedAll(db.sections, list) == db.sections;
    } else {
      var done, s := list[..|list| - 1], list[|list| - 1];
      assert Distinct(done) && s !in done && list == done + [s];
      hide *;
      ExpirePassIs(db, done);
      PassOn(db, done, s);
    }
  }

  lemma PassOn(db: Db, done: seq<SectionId>, s: SectionId)
    requires s !in done
    requires ExpirePass(db, done) == Db(EmptiedAll(db.sections, done), db.outbox + PassEvents(db.sections, done),
                                        db.notes + PassNotes(db.sections, done))
    ensures ExpirePass(db, done + [s])
            == Db(EmptiedAll(db.sections, done + [s]), db.outbox + PassEvents(db.sections, done + [s]),
                                             db.notes + PassNotes(db.sections, done + [s]))
  {
    hide *;
    EmptiedNext(db.sections, done, s);
    PassNext(db, done, s);
    ExpireStep(db, ExpirePass(db, done), s);
    if s in db.sections {
      Regroup(db.outbox, PassEvents(db.sections, done), ExpireFx(db.sections[s], s).events);
      Regroup(db.notes, PassNotes(db.sections, done), ExpireFx(db.sections[s], s).notes);
    } else {
      assert PassEvents(db.sections, done) + [] == PassEvents(db.sections, done);
      assert PassNotes(db.sections, done) + [] == PassNotes(db.sections, done);
    }
  }

  lemma Regroup<T>(a: seq<T>, b: seq<T>, c: seq<T>)
    ensures a + b + c == a + (b + c)
  {
  }

  // e tells that the row id, waiting in s, expired from its place; n tells its student.
  predicate TellsExpiry(sections: map<SectionId, Section>, s: SectionId, id: RowId, e: Event) {
    s in sections && id in Waiting(sections[s].rows) && e == Expired(id, sections[s].rows[id].position)
  }

  predicate NotesExpiry(sections: map<SectionId, Section>, s: SectionId, id: RowId, n: Note) {
    s in sections && id in Waiting(sections[s].rows) && n == ExpiredNote(sections[s].rows[id].student, id, s)
  }

  // The expiry writes one event and one notification per listed row.
  lemma ExpiryListed(rows: map<RowId, Row>, cols: Columns, s: SectionId)
    requires PositionsOk(rows)
    ensures var fx, o := ExpireFx(Section(cols, rows), s), Ordered(rows);
            && Distinct(o) && (forall id :: id in o <==> id in Waiting(rows)) && |fx.events| == |fx.notes| == |o|
            && forall k | 0 <= k < |o| ::
                 o[k] in rows && fx.events[k] == Expired(o[k], rows[o[k]].position)
                 && fx.notes[k] == ExpiredNote(rows[o[k]].student, o[k], s)
  {
    OrderedFacts(rows);
    OrderedInRows(rows);
    OrderedMembers(rows);
    hide Ordered, Waiting, PositionsOk;
  }

  lemma EventsTold(sections: map<SectionId, Section>, s: SectionId)
    requires s in sections && PositionsOk(sections[s].rows)
    ensures var events := ExpireFx(sections[s], s).events;
            Distinct(events) && forall e :: e in events <==> exists id :: TellsExpiry(sections, s, id, e)
  {
    hide Ordered, Waiting, PositionsOk, ExpireFx;
    var rows, events, o := sections[s].rows, ExpireFx(sections[s], s).events, Ordered(sections[s].rows);
    ExpiryListed(rows, sections[s].cols, s);
    forall e
      ensures e in events <==> exists id :: TellsExpiry(sections, s, id, e)
    {
      if id :| TellsExpiry(sections, s, id, e) {
        var k :| 0 <= k < |o| && o[k] == id;
        assert events[k] == e;
      }
      if e in events {
        var k :| 0 <= k < |o| && events[k] == e;
        assert TellsExpiry(sections, s, o[k], e);
      }
    }
  }

  lemma NotesTold(sections: map<SectionId, Section>, s: SectionId)
    requires s in sections && PositionsOk(sections[s].rows)
    ensures var notes := ExpireFx(sections[s], s).notes;
            Distinct(notes) && forall n :: n in notes <==> exists id :: NotesExpiry(sections, s, id, n)
  {
    hide Ordered, Waiting, PositionsOk, ExpireFx;
    var rows, notes, o := sections[s].rows, ExpireFx(sections[s], s).notes, Ordered(sections[s].rows);
    ExpiryListed(rows, sections[s].cols, s);
    forall n
      ensures n in notes <==> exists id :: NotesExpiry(sections, s, id, n)
    {
      if id :| NotesExpiry(sections, s, id, n) {
        var k :| 0 <= k < |o| && o[k] == id;
        assert notes[k] == n;
      }
      if n in notes {
        var k :| 0 <= k < |o| && notes[k] == n;
        assert NotesExpiry(sections, s, o[k], n);
      }
    }
  }

  // Appending distinct elements that are not among the first.
  lemma DistinctAppend<T>(a: seq<T>, b: seq<T>)
    requires Distinct(a) && Distinct(b) && forall x <- b :: x !in a
    ensures Distinct(a + b) && forall x :: x in a + b <==> x in a || x in b
  {
    forall i, j | 0 <= i < j < |a + b|
      ensures (a + b)[i] != (a + b)[j]
    {
      if i < |a| <= j { assert b[j - |a|] in b && a[i] in a; }
    }
  }

  // e is told of some row waiting in a listed section.
  ghost predicate ToldAmong(sections: map<SectionId, Section>, list: seq<SectionId>, e: Event) {
    exists s, id :: s in list && TellsExpiry(sections, s, id, e)
  }

  ghost predicate NotedAmong(sections: map<SectionId, Section>, list: seq<SectionId>, n: Note) {
    exists s, id :: s in list && NotesExpiry(sections, s, id, n)
  }

  lemma {:induction false} PassTold(sections: map<SectionId, Section>, list: seq<SectionId>)
    requires Distinct(list) && IdsUnique(sections) && forall s <- sections :: PositionsOk(sections[s].rows)
    ensures Distinct(PassEvents(sections, list)) && Distinct(PassNotes(sections, list))
    ensures forall e :: e in PassEvents(sections, list) <==> ToldAmong(sections, list, e)
    ensures forall n :: n in PassNotes(sections, list) <==> NotedAmong(sections, list, n)
  {
    if list != [] {
      var done, s := list[..|list| - 1], list[|list| - 1];
      assert list == done + [s] && Distinct(done) && s !in done;
      PassTold(sections, done);
      if s in sections { EventsTold(sections, s); NotesTold(sections, s); }
      TellsOfOne(sections);
      hide *;
      PassEventsTold(sections, done, s);
      PassNotesTold(sections, done, s);
    }
  }

  lemma TellsOfOne(sections: map<SectionId, Section>)
    requires IdsUnique(sections)
    ensures forall s, t, id, jd, e :: TellsExpiry(sections, s, id, e) && TellsExpiry(sections, t, jd, e) ==> s == t
    ensures forall s, t, id, jd, n :: NotesExpiry(sections, s, id, n) && NotesExpiry(sections, t, jd, n) ==> s == t
    ensures forall s, id, e :: TellsExpiry(sections, s, id, e) ==> s in sections
    ensures forall s, id, n :: NotesExpiry(sections, s, id, n) ==> s in sections
  {
  }

  lemma PassEventsTold(sections: map<SectionId, Section>, done: seq<SectionId>, s: SectionId)
    requires s !in done && Distinct(PassEvents(sections, done))
    requires forall e :: e in PassEvents(sections, done) <==> ToldAmong(sections, done, e)
    requires s in sections ==> var events := ExpireFx(sections[s], s).events;
               Distinct(events) && forall e :: e in events <==> exists id :: TellsExpiry(sections, s, id, e)
    requires forall t, u, id, jd, e :: TellsExpiry(sections, t, id, e) && TellsExpiry(sections, u, jd, e) ==> t == u
    requires forall t, id, e :: TellsExpiry(sections, t, id, e) ==> t in sections
    ensures var all := PassEvents(sections, done + [s]);
            Distinct(all) && forall e :: e in all <==> ToldAmong(sections, done + [s], e)
  {
    hide TellsExpiry, ExpireFx;
    assert (done + [s])[..|done|] == done;
    if s in sections { DistinctAppend(PassEvents(sections, done), ExpireFx(sections[s], s).events); }
    hide Distinct;
    forall e
      ensures ToldAmong(sections, done + [s], e)
              <==> ToldAmong(sections, done, e) || exists id :: TellsExpiry(sections, s, id, e)
    {
      assert forall t :: t in done + [s] <==> t in done || t == s;
    }
  }

  lemma PassNotesTold(sections: map<SectionId, Section>, done: seq<SectionId>, s: SectionId)
    requires s !in done && Distinct(PassNotes(sections, done))
    requires forall n :: n in PassNotes(sections, done) <==> NotedAmong(sections, done, n)
    requires s in sections ==> var notes := ExpireFx(sections[s], s).notes;
               Distinct(notes) && forall n :: n in notes <==> exists id :: NotesExpiry(sections, s, id, n)
    requires forall t, u, id, jd, n :: NotesExpiry(sections, t, id, n) && NotesExpiry(sections, u, jd, n) ==> t == u
    requires forall t, id, n :: NotesExpiry(sections, t, id, n) ==> t in sections
    ensures var all := PassNotes(sections, done + [s]);
            Distinct(all) && forall n :: n in all <==> NotedAmong(sections, done + [s], n)
  {
    hide NotesExpiry, ExpireFx;
    assert (done + [s])[..|done|] == done;
    if s in sections { DistinctAppend(PassNotes(sections, done), ExpireFx(sections[s], s).notes); }
    hide Distinct;
    forall n
      ensures NotedAmong(sections, done + [s], n)
              <==> NotedAmong(sections, done, n) || exists id :: NotesExpiry(sections, s, id, n)
    {
      assert forall t :: t in done + [s] <==> t in done || t == s;
    }
  }

  // What one pass makes of a section.
  ghost predicate PassedOver(cat: Catalog, now: nat, s: SectionId, sec: Section, sec': Section) {
    if cat.closes(cat.term(s)) < now
    then sec'.cols == sec.cols && sec'.rows.Keys == sec.rows.Keys
         && forall id <- sec.rows ::
              sec'.rows[id] == if id in Waiting(sec.rows) then Row(sec.rows[id].student, DROPPED, None)
                  else sec.rows[id]
    else sec' == sec
  }

  // One pass over the affected sections drops every row waiting in a term that
  // is over and touches no other row and no counter. Each of those rows is told
  // of by one event, with the place it held, and by one notification; nothing
  // else is written.
  lemma ExpiryPassExact(cat: Catalog, db: Db, now: nat, list: seq<SectionId>)
    returns (events: seq<Event>, notes: seq<Note>)
    requires DbInvariant(db) && Distinct(list) && forall s :: s in list <==> Affected(cat, db.sections, now, s)
    ensures var db' := ExpirePass(db, list);
            && db'.outbox == db.outbox + events && db'.notes == db.notes + notes
            && db'.sections.Keys == db.sections.Keys
            && forall s <- db.sections :: PassedOver(cat, now, s, db.sections[s], db'.sections[s])
    ensures Distinct(events) && Distinct(notes)
    ensures forall e :: e in events <==> ToldOver(cat, db.sections, now, e)
    ensures forall n :: n in notes <==> NotedOver(cat, db.sections, now, n)
  {
    hide *;
    events, notes := PassEvents(db.sections, list), PassNotes(db.sections, list);
    OrderFacts(db);
    PassedAll(cat, db, now, list);
    AffectedTell(cat, db, now, list);
    PassTold(db.sections, list);
  }

  // e is told of some row waiting in a term that is over.
  ghost predicate ToldOver(cat: Catalog, sections: map<SectionId, Section>, now: nat, e: Event) {
    exists s, id :: cat.closes(cat.term(s)) < now && TellsExpiry(sections, s, id, e)
  }

  ghost predicate NotedOver(cat: Catalog, sections: map<SectionId, Section>, now: nat, n: Note) {
    exists s, id :: cat.closes(cat.term(s)) < now && NotesExpiry(sections, s, id, n)
  }

  lemma OrderFacts(db: Db)
    requires DbInvariant(db)
    ensures IdsUnique(db.sections) && forall s <- db.sections :: PositionsOk(db.sections[s].rows)
  {
    DbSections(db);
    hide IdsUnique, PositionsOk;
  }

  lemma AffectedTell(cat: Catalog, db: Db, now: nat, list: seq<SectionId>)
    requires forall s :: s in list <==> Affected(cat, db.sections, now, s)
    ensures forall e :: ToldAmong(db.sections, list, e) <==> ToldOver(cat, db.sections, now, e)
    ensures forall n :: NotedAmong(db.sections, list, n) <==> NotedOver(cat, db.sections, now, n)
  {
    assert forall s, id, e | TellsExpiry(db.sections, s, id, e) :: s in list <==> cat.closes(cat.term(s)) < now;
    assert forall s, id, n | NotesExpiry(db.sections, s, id, n) :: s in list <==> cat.closes(cat.term(s)) < now;
    hide TellsExpiry, NotesExpiry, Affected;
  }

  lemma PassedAll(cat: Catalog, db: Db, now: nat, list: seq<SectionId>)
    requires DbInvariant(db) && Distinct(list) && forall s :: s in list <==> Affected(cat, db.sections, now, s)
    ensures var db' := ExpirePass(db, list);
            && db'.outbox == db.outbox + PassEvents(db.sections, list)
            && db'.notes == db.notes + PassNotes(db.sections, list)
            && db'.sections.Keys == db.sections.Keys
            && forall s <- db.sections :: PassedOver(cat, now, s, db.sections[s], db'.sections[s])
  {
    hide SeatInvariant, PassedOver, DbInvariant, ExpirePass, PassEvents, PassNotes, Emptied;
    ExpirePassIs(db, list);
    forall s <- db.sections
      ensures PassedOver(cat, now, s, db.sections[s], EmptiedAll(db.sections, list)[s])
    {
      PassedOne(cat, now, s, db.sections[s]);
    }
  }

  lemma PassedOne(cat: Catalog, now: nat, s: SectionId, sec: Section)
    ensures cat.closes(cat.term(s)) < now && Waiting(sec.rows) != {} ==> PassedOver(cat, now, s, sec, Emptied(sec))
    ensures cat.closes(cat.term(s)) >= now || Waiting(sec.rows) == {} ==> PassedOver(cat, now, s, sec, sec)
  {
    OrderedMembers(sec.rows);
    hide Ordered;
  }

  lemma OrderedMembers(rows: map<RowId, Row>)
    ensures forall id :: id in Ordered(rows) <==> id in Waiting(rows)
  {
    OrderOfSorted(rows, Waiting(rows));
    assert forall id :: id in Ordered(rows) <==> id in Elems(Ordered(rows));
  }
}
