// What operations undo, conserve and leave alone.
module Conservation {
  import opened Registry
  import opened Waitlist
  import opened Operations
  import opened Seats

  // Dropping what one just joined puts seats and queue back exactly; only the
  // spent row stays behind.
  lemma DropUndoesJoin(sec: Section, s: SectionId, x: StudentId, id: RowId)
    requires SeatInvariant(sec) && id !in sec.rows && ActiveOf(sec.rows, x) == {} && !Join(sec, s, x, id).out.Error?
    ensures var joined := Join(sec, s, x, id);
            var left := DropFx(joined.sec, s, id);
            && left.sec.cols == sec.cols && left.sec.rows == sec.rows[id := Row(x, DROPPED, None)]
            && Enrolled(left.sec.rows) == Enrolled(sec.rows) && Ordered(left.sec.rows) == Ordered(sec.rows)
            && left.out == DroppedRow(id, joined.out.EnrolledAs?)
  {
    var joined := Join(sec, s, x, id);
    var left := DropFx(joined.sec, s, id);
    assert left.sec.rows == sec.rows[id := Row(x, DROPPED, None)] by { hide Rank, NextPosition, Waiting; }
    assert Waiting(left.sec.rows) == Waiting(sec.rows);
    assert Enrolled(left.sec.rows) == Enrolled(sec.rows);
    OrderOfFrame(sec.rows, left.sec.rows, Waiting(sec.rows));
    hide Join, DropFx, OrderOf, PositionsOk, OneActive, Enrolled;
    assert left.sec.cols == sec.cols by { JoinedThenLeft(sec, s, x, id); }
    assert left.out == DroppedRow(id, joined.out.EnrolledAs?) by { JoinedThenLeft(sec, s, x, id); }
  }

  lemma JoinedThenLeft(sec: Section, s: SectionId, x: StudentId, id: RowId)
    requires !Join(sec, s, x, id).out.Error?
    ensures var joined := Join(sec, s, x, id);
            id in joined.sec.rows && DropFx(joined.sec, s, id).sec.cols == sec.cols
            && DropFx(joined.sec, s, id).out == DroppedRow(id, joined.out.EnrolledAs?)
  {
    hide Rank, NextPosition, Waiting;
  }

  // A swap moves one seat: the student's active rows change by exactly the old
  // and the new one, nobody else's change, and the seats taken in the two
  // sections together grow only if the source was a waitlist place.
  lemma SwapConserves(db: Db, source: SectionId, req: Request, y: StudentId)
    requires DbInvariant(db) && req.Swap? && FreshId(db.sections, req.newId)
    requires source in db.sections && req.target in db.sections && source != req.target
             && req.id in db.sections[source].rows
    requires var row := db.sections[source].rows[req.id]; row.Active() && row.student == req.student
    ensures var db', enrolled := SwapDb(db, source, req), db.sections[source].rows[req.id].status.ENROLLED?;
            && db'.sections[source].cols.enrolledCount + db'.sections[req.target].cols.enrolledCount
               == db.sections[source].cols.enrolledCount + db.sections[req.target].cols.enrolledCount
                   + (if enrolled then 0 else 1)
            && ActiveSeats(db'.sections, y) ==
                 (if y == req.student
                  then ActiveSeats(db.sections, y) - {(source, req.id)} + {(req.target, req.newId)}
                      else ActiveSeats(db.sections, y))
            && |ActiveSeats(db'.sections, y)| == |ActiveSeats(db.sections, y)|
  {
    SwapSeats(db, source, req, y);
    var seats := ActiveSeats(db.sections, y);
    assert (req.target, req.newId) !in seats;
    if y == req.student { assert (source, req.id) in seats; }
    hide ActiveSeats, DbInvariant, FreshId;
  }

  lemma SwapSeats(db: Db, source: SectionId, req: Request, y: StudentId)
    requires req.Swap? && FreshId(db.sections, req.newId)
    requires source in db.sections && req.target in db.sections && source != req.target
             && req.id in db.sections[source].rows
    requires var row := db.sections[source].rows[req.id]; row.Active() && row.student == req.student
    ensures ActiveSeats(SwapDb(db, source, req).sections, y) ==
              if y == req.student
              then ActiveSeats(db.sections, y) - {(source, req.id)} + {(req.target, req.newId)}
                  else ActiveSeats(db.sections, y)
  {
    var db' := SwapDb(db, source, req);
    forall p: RowKey
      ensures p in ActiveSeats(db'.sections, y) <==>
                if y == req.student
                then p in ActiveSeats(db.sections, y) - {(source, req.id)} + {(req.target, req.newId)}
                else p in ActiveSeats(db.sections, y)
    {
      if p.0 in db.sections && p.0 != source && p.0 != req.target { assert db'.sections[p.0] == db.sections[p.0]; }
    }
  }

  // Promotion turns waiters into enrolled students one for one.
  lemma PromotionConserves(sec: Section, s: SectionId)
    ensures var rows, rows' := sec.rows, PromoteFx(sec, s).sec.rows;
            && Enrolled(rows') + Waiting(rows') == Enrolled(rows) + Waiting(rows)
            && |Enrolled(rows')| + |Waiting(rows')| == |Enrolled(rows)| + |Waiting(rows)|
  {
    hide Ordered;
    var rows, ids := sec.rows, Promotable(sec);
    OrderedInRows(rows);
    assert forall id <- ids :: id in Waiting(rows);
    var rows' := Seated(rows, ids);
    hide Promotable;
    assert Enrolled(rows') + Waiting(rows') == Enrolled(rows) + Waiting(rows);
    DisjointCard(rows);
    DisjointCard(rows');
  }

  lemma DisjointCard(rows: map<RowId, Row>)
    ensures |Enrolled(rows) + Waiting(rows)| == |Enrolled(rows)| + |Waiting(rows)|
  {
    assert Enrolled(rows) !! Waiting(rows);
  }
}
