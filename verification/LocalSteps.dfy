// What a transaction that holds its section locks has read and written so
// far, statement by statement, in terms of the committed sections it locked:
// at the end its writes are exactly the one-step effect of Operations.
module LocalSteps {
  import opened Registry
  import opened Waitlist
  import opened Operations
  import opened Machine

  // With the writes ws, section s reads as v, and these events and notes are pending.
  ghost predicate Wrote(sec: Section, s: SectionId, ws: seq<Write>, v: Section, events: seq<Event>, notes: seq<Note>) {
    View(sec, s, ws) == v && EventsOf(ws) == events && NotesOf(ws) == notes
  }

  lemma NoWrites(sec: Section, s: SectionId)
    ensures Wrote(sec, s, [], sec, [], [])
  {
  }

  lemma Snoc(sec: Section, s: SectionId, ws: seq<Write>, w: Write, v: Section, events: seq<Event>, notes: seq<Note>)
    requires Wrote(sec, s, ws, v, events, notes)
    ensures Wrote(sec, s, ws + [w], Overwrite(v, s, w),
                  events + (if w.Emit? then [w.event] else []), notes + (if w.Notify? then [w.note] else []))
  {
    assert (ws + [w])[..|ws|] == ws;
  }

  ghost predicate Matches(sec: Section, s: SectionId, ws: seq<Write>, fx: Effect, out: Outcome) {
    Wrote(sec, s, ws, fx.sec, fx.events, fx.notes) && out == fx.out && !out.Error?
  }

  // Failures that only the database constraints can raise.
  predicate Constraint(code: Code) { code.CHECK_VIOLATION? || code.UNIQUE_VIOLATION? }

  // ---------------------------------------------------------------- enroll

  predicate Full(cols: Columns) { cols.enrolledCount >= cols.capacity }

  predicate WaitlistOpen(sec: Section) {
    !(sec.cols.waitlistCap.Some? && |Waiting(sec.rows)| >= sec.cols.waitlistCap.value)
  }

  ghost predicate GoodEnroll(sec: Section, req: Request, e: EnrollPc, ws: seq<Write>)
    requires req.Enroll?
  {
    var s, x, id := req.section, req.student, req.newId;
    var free := HolderRow(sec.rows, x).None?;
    var joined := Join(sec, s, x, id).sec;
    match e
    case EnrollActive(live) => live == sec.cols && ws == []
    case EnrollDup(live) => live == sec.cols && ws == [] && free
    case EnrollPrereq(live) => live == sec.cols && ws == [] && free
    case EnrollMine(live) => live == sec.cols && ws == [] && free
    case EnrollOverload(live, _) => live == sec.cols && ws == [] && free
    case EnrollInsert(live) => ws == [] && free && !Full(sec.cols)
    case EnrollBump =>
      free && !Full(sec.cols) && Wrote(sec, s, ws, Section(sec.cols, sec.rows[id := Row(x, ENROLLED, None)]), [], [])
    case EnrollAudit(cols) => free && !Full(sec.cols) && cols == joined.cols && Wrote(sec, s, ws, joined, [], [])
    case QueueCount(live) => live == sec.cols && ws == [] && free && Full(sec.cols)
    case QueuePosition => ws == [] && free && Full(sec.cols) && WaitlistOpen(sec)
    case QueueInsert(p) => ws == [] && free && Full(sec.cols) && WaitlistOpen(sec) && p == NextPosition(sec.rows)
    case QueueRank(p) =>
      free && Full(sec.cols) && WaitlistOpen(sec) && p == NextPosition(sec.rows) && Wrote(sec, s, ws, joined, [], [])
    case QueueAudit(p, rank) =>
      free && Full(sec.cols) && WaitlistOpen(sec) && p == NextPosition(sec.rows) && rank == Rank(joined.rows, p)
      && Wrote(sec, s, ws, joined, [], [])
    case _ => false
  }

  ghost predicate GoodEnrollPc(sec: Section, req: Request, pc: Pc, ws: seq<Write>)
    requires req.Enroll?
  {
    match pc
    case Enrolling(e) => GoodEnroll(sec, req, e, ws)
    case Ready(out) => Matches(sec, req.section, ws, EnrollFx(sec, req.section, req.student, req.newId), out)
    case Failed(code) => !Constraint(code)
    case _ => false
  }

  lemma EnrollChecks(cat: Catalog, sections: map<SectionId, Section>, t: Txn, e: EnrollPc, now: nat, hold: bool,
               s: SectionId, sec: Section, t': Txn)
    requires t.req.Enroll? && t.req.section == s && s in sections && sections[s] == sec
    requires GoodEnroll(sec, t.req, e, t.writes)
    requires EnrollChecking(e) && t' == ExecEnrollChecks(cat, sections, t, e, now, hold)
    ensures GoodEnrollPc(sec, t.req, t'.pc, t'.writes)
  {
    NoWrites(sec, s);
    hide ViewAll, ActiveSeats, SameTerm, DuplicateCourse, PrerequisitesMet, ClashesWith, CreditSum, SeatsOutside;
    hide SeatsExcept, Gate, Others;
    hide View, EventsOf, NotesOf, ActiveOf, First, Rank, NextPosition;
  }

  lemma SeatInserts(sections: map<SectionId, Section>, t: Txn, e: EnrollPc, s: SectionId, sec: Section, t': Txn)
    requires t.req.Enroll? && t.req.section == s && s in sections && sections[s] == sec
    requires GoodEnroll(sec, t.req, e, t.writes) && t' == ExecEnrollWrites(sections, t, e)
    requires e.EnrollInsert?
    ensures GoodEnrollPc(sec, t.req, t'.pc, t'.writes)
  {
    NoWrites(sec, s);
    hide View, EventsOf, NotesOf, ActiveOf, First, Rank, NextPosition, Waiting;
    Snoc(sec, s, t.writes, PutRow(s, t.req.newId, Row(t.req.student, ENROLLED, None)), sec, [], []);
    hide Wrote;
  }

  lemma SeatBumps(sections: map<SectionId, Section>, t: Txn, e: EnrollPc, s: SectionId, sec: Section, t': Txn)
    requires t.req.Enroll? && t.req.section == s && s in sections && sections[s] == sec
    requires GoodEnroll(sec, t.req, e, t.writes) && t' == ExecEnrollWrites(sections, t, e)
    requires CheckHolds(sec.cols) && e.EnrollBump?
    ensures GoodEnrollPc(sec, t.req, t'.pc, t'.writes)
  {
    hide View, EventsOf, NotesOf, ActiveOf, First, Rank, NextPosition, Waiting, HolderRow;
    var seated := Section(sec.cols, sec.rows[t.req.newId := Row(t.req.student, ENROLLED, None)]);
    Snoc(sec, s, t.writes, PutCols(s, sec.cols.(enrolledCount := sec.cols.enrolledCount + 1)), seated, [], []);
    assert View(sec, s, t.writes) == seated;
    hide Wrote;
  }

  lemma SeatAudits(sections: map<SectionId, Section>, t: Txn, e: EnrollPc, s: SectionId, sec: Section, t': Txn)
    requires t.req.Enroll? && t.req.section == s && s in sections && sections[s] == sec
    requires GoodEnroll(sec, t.req, e, t.writes) && t' == ExecEnrollWrites(sections, t, e)
    requires e.EnrollAudit?
    ensures GoodEnrollPc(sec, t.req, t'.pc, t'.writes)
  {
    hide View, EventsOf, NotesOf, ActiveOf, First, Rank, NextPosition, Waiting;
    Snoc(sec, s, t.writes, Emit(Created(t.req.newId, t.req.student, s)), Join(sec, s, t.req.student, t.req.newId).sec,
         [], []);
    hide Wrote;
  }

  lemma QueueReads(cat: Catalog, sections: map<SectionId, Section>, t: Txn, e: EnrollPc, now: nat, hold: bool,
               s: SectionId, sec: Section, t': Txn)
    requires t.req.Enroll? && t.req.section == s && s in sections && sections[s] == sec
    requires GoodEnroll(sec, t.req, e, t.writes)
    requires (e.QueueCount? || e.QueuePosition? || e.QueueRank?) && t' == ExecEnrollWrites(sections, t, e)
    ensures GoodEnrollPc(sec, t.req, t'.pc, t'.writes)
  {
    NoWrites(sec, s);
    assert !e.QueueRank? ==> View(sec, s, t.writes) == sec;
    assert e.QueueRank? ==> View(sec, s, t.writes) == Join(sec, s, t.req.student, t.req.newId).sec;
    hide View, EventsOf, NotesOf, ActiveOf, First, Rank, NextPosition, Wrote;
  }

  lemma QueueInserts(cat: Catalog, sections: map<SectionId, Section>, t: Txn, e: EnrollPc, now: nat, hold: bool,
               s: SectionId, sec: Section, t': Txn)
    requires t.req.Enroll? && t.req.section == s && s in sections && sections[s] == sec
    requires GoodEnroll(sec, t.req, e, t.writes)
    requires e.QueueInsert? && t' == ExecEnrollWrites(sections, t, e)
    ensures GoodEnrollPc(sec, t.req, t'.pc, t'.writes)
  {
    NoWrites(sec, s);
    var row := Row(t.req.student, WAITLISTED, Some(e.p));
    assert View(sec, s, t.writes) == sec && ActiveOf(sec.rows, row.student) == {};
    assert Join(sec, s, t.req.student, t.req.newId).sec == Section(sec.cols, sec.rows[t.req.newId := row]);
    Snoc(sec, s, t.writes, PutRow(s, t.req.newId, row), sec, [], []);
    hide Join, Waiting, WaitlistOpen, HolderRow;
    hide View, EventsOf, NotesOf, ActiveOf, First, Rank, NextPosition, Wrote;
  }

  lemma QueueAudits(cat: Catalog, sections: map<SectionId, Section>, t: Txn, e: EnrollPc, now: nat, hold: bool,
               s: SectionId, sec: Section, t': Txn)
    requires t.req.Enroll? && t.req.section == s && s in sections && sections[s] == sec
    requires GoodEnroll(sec, t.req, e, t.writes)
    requires e.QueueAudit? && t' == ExecEnrollWrites(sections, t, e)
    ensures GoodEnrollPc(sec, t.req, t'.pc, t'.writes)
  {
    hide View, EventsOf, NotesOf, ActiveOf, First, Rank, NextPosition, Waiting;
    var fx := Join(sec, s, t.req.student, t.req.newId);
    Snoc(sec, s, t.writes, Emit(Waitlisted(t.req.newId, t.req.student, s, e.p)), fx.sec, [], []);
    hide Wrote;
  }

  lemma EnrollStep(cat: Catalog, sections: map<SectionId, Section>, t: Txn, e: EnrollPc, now: nat, hold: bool,
               s: SectionId, sec: Section, t': Txn)
    requires t.req.Enroll? && t.req.section == s && s in sections && sections[s] == sec
    requires GoodEnroll(sec, t.req, e, t.writes)
    requires CheckHolds(sec.cols) && t' == ExecEnroll(cat, sections, t, e, now, hold)
    ensures GoodEnrollPc(sec, t.req, t'.pc, t'.writes)
  {
    hide ExecEnrollChecks, ExecEnrollWrites, Wrote;
    if EnrollChecking(e) { EnrollChecks(cat, sections, t, e, now, hold, s, sec, t'); }
    else if e.EnrollInsert? { SeatInserts(sections, t, e, s, sec, t'); }
    else if e.EnrollBump? { SeatBumps(sections, t, e, s, sec, t'); }
    else if e.EnrollAudit? { SeatAudits(sections, t, e, s, sec, t'); }
    else if e.QueueInsert? { QueueInserts(cat, sections, t, e, now, hold, s, sec, t'); }
    else if e.QueueAudit? { QueueAudits(cat, sections, t, e, now, hold, s, sec, t'); }
    else { QueueReads(cat, sections, t, e, now, hold, s, sec, t'); }
  }

  // ------------------------------------------------------------------ drop

  // Taking an ENROLLED row away leaves a counter the CHECK accepts.
  lemma LeaveChecked(sec: Section, id: RowId)
    requires SeatInvariant(sec) && id in sec.rows
    ensures sec.rows[id].status.ENROLLED? ==> CheckHolds(sec.cols.(enrolledCount := sec.cols.enrolledCount - 1))
  {
    if sec.rows[id].status.ENROLLED? {
      assert Enrolled(sec.rows) != {} by { assert id in Enrolled(sec.rows); }
    }
  }

  ghost predicate GoodDrop(sec: Section, s: SectionId, id: RowId, d: DropPc, ws: seq<Write>)
    requires id in sec.rows
  {
    var now := sec.rows[id];
    match d
    case DropReread => ws == []
    case DropMark(row) => ws == [] && row == now && now.Active()
    case DropCount(row) =>
      row == now && now.Active() && Wrote(sec, s, ws, Section(sec.cols, sec.rows[id := Release(now)]), [], [])
    case DropAudit(row) => row == now && now.Active() && Wrote(sec, s, ws, DropFx(sec, s, id).sec, [], [])
    case _ => false
  }

  ghost predicate GoodDropPc(sec: Section, s: SectionId, id: RowId, pc: Pc, ws: seq<Write>)
    requires id in sec.rows
  {
    match pc
    case Dropping(d) => GoodDrop(sec, s, id, d, ws)
    case Ready(out) => Matches(sec, s, ws, DropFx(sec, s, id), out)
    case Failed(code) => !Constraint(code)
    case _ => false
  }

  lemma DropReads(sections: map<SectionId, Section>, t: Txn, d: DropPc, s: SectionId, sec: Section, id: RowId, t': Txn)
    requires t.req == Drop(id) && t.home == s && s in sections && sections[s] == sec && id in sec.rows
    requires GoodDrop(sec, s, id, d, t.writes) && d.DropReread? && t' == ExecDrop(sections, t, d)
    ensures GoodDropPc(sec, s, id, t'.pc, t'.writes)
  {
    assert View(sec, s, t.writes) == sec;
    hide View, EventsOf, NotesOf, HomeOf, Wrote;
  }

  lemma DropStep(sections: map<SectionId, Section>, t: Txn, d: DropPc, s: SectionId, sec: Section, id: RowId, t': Txn)
    requires t.req == Drop(id) && t.home == s && s in sections && sections[s] == sec && id in sec.rows
    requires GoodDrop(sec, s, id, d, t.writes) && SeatInvariant(sec) && t' == ExecDrop(sections, t, d)
    ensures GoodDropPc(sec, s, id, t'.pc, t'.writes)
  {
    hide SeatInvariant, HomeOf, EventsOf, NotesOf;
    var row := sec.rows[id];
    var gone := Section(sec.cols, sec.rows[id := Release(row)]);
    var fx := DropFx(sec, s, id);
    if d.DropReread? {
      DropReads(sections, t, d, s, sec, id, t');
    } else if d.DropMark? {
      NoWrites(sec, s);
      assert View(sec, s, t.writes) == sec;
      hide View, Wrote;
      Snoc(sec, s, t.writes, PutRow(s, id, Release(row)), sec, [], []);
    } else if d.DropCount? {
      LeaveChecked(sec, id);
      assert View(sec, s, t.writes) == gone;
      hide View, Wrote;
      Snoc(sec, s, t.writes, PutCols(s, fx.sec.cols), gone, [], []);
    } else {
      hide View, Wrote;
      Snoc(sec, s, t.writes, Emit(fx.events[0]), fx.sec, [], []);
    }
  }

  // ------------------------------------------------------------------ swap

  ghost predicate GoodSwap(src: Section, tgt: Section, s: SectionId, req: Request, w: SwapPc, ws: seq<Write>)
    requires req.Swap? && req.id in src.rows
  {
    var now := src.rows[req.id];
    var out := SwapOut(src, req.id);
    var ready := now.Active() && !Full(tgt.cols);
    var unheld := ActiveOf(tgt.rows, req.student) == {};
    match w
    case SwapReread => ws == []
    case SwapTarget(row) => ws == [] && row == now && now.Active()
    case SwapDup(row) => ws == [] && row == now && ready
    case SwapPrereq(row) => ws == [] && row == now && ready
    case SwapMine(row) => ws == [] && row == now && ready
    case SwapOverload(row, _) => ws == [] && row == now && ready
    case SwapMark(row) => ws == [] && row == now && ready
    case SwapDec(row) =>
      row == now && ready && Wrote(src, s, ws, Section(src.cols, src.rows[req.id := Release(now)]), [], [])
      && Wrote(tgt, req.target, ws, tgt, [], [])
    case SwapInsert(row) =>
      row == now && ready && Wrote(src, s, ws, out, [], []) && Wrote(tgt, req.target, ws, tgt, [], [])
    case SwapInc(row) =>
      row == now && ready && unheld && Wrote(src, s, ws, out, [], [])
      && Wrote(tgt, req.target, ws, Section(tgt.cols, tgt.rows[req.newId := Row(req.student, ENROLLED, None)]), [], [])
    case SwapAudit(row) =>
      row == now && ready && unheld && Wrote(src, s, ws, out, [], [])
      && Wrote(tgt, req.target, ws, SwapIn(tgt, req.student, req.newId), [], [])
    case _ => false
  }

  ghost predicate SwapMatches(src: Section, tgt: Section, s: SectionId, req: Request, ws: seq<Write>, out: Outcome)
    requires req.Swap? && req.id in src.rows
  {
    var now := src.rows[req.id];
    var events := [Swapped(req.id, s, now.status, req.newId, req.student, req.target)];
    && now.Active() && !Full(tgt.cols) && ActiveOf(tgt.rows, req.student) == {}
    && out == SwappedTo(req.newId, now.status.ENROLLED?)
    && Wrote(src, s, ws, SwapOut(src, req.id), events, [])
    && Wrote(tgt, req.target, ws, SwapIn(tgt, req.student, req.newId), events, [])
  }

  // The unique index can still refuse a swap (see SwapNeverRefused in Eligibility).
  ghost predicate GoodSwapPc(src: Section, tgt: Section, s: SectionId, req: Request, pc: Pc, ws: seq<Write>)
    requires req.Swap? && req.id in src.rows
  {
    match pc
    case Swapping(w) => GoodSwap(src, tgt, s, req, w, ws)
    case Ready(out) => SwapMatches(src, tgt, s, req, ws, out)
    case Failed(code) => !code.CHECK_VIOLATION?
    case _ => false
  }

  lemma SwapChecks(cat: Catalog, sections: map<SectionId, Section>, t: Txn, w: SwapPc, now: nat, hold: bool,
               src: Section, tgt: Section, t': Txn)
    requires t.req.Swap? && t.home in sections && t.req.target in sections && t.home != t.req.target
    requires sections[t.home] == src && sections[t.req.target] == tgt && t.req.id in src.rows
    requires GoodSwap(src, tgt, t.home, t.req, w, t.writes)
    requires !SwapWriting(w) && t' == ExecSwapChecks(cat, sections, t, w, now, hold)
    ensures GoodSwapPc(src, tgt, t.home, t.req, t'.pc, t'.writes)
  {
    NoWrites(src, t.home);
    NoWrites(tgt, t.req.target);
    assert View(src, t.home, t.writes) == src && View(tgt, t.req.target, t.writes) == tgt;
    hide ViewAll, ActiveSeats, SameTerm, DuplicateCourse, PrerequisitesMet, ClashesWith, CreditSum, SeatsOutside;
    hide SeatsExcept, Gate, Others;
    hide View, EventsOf, NotesOf, ActiveOf, Wrote, SwapOut, SwapIn;
  }

  lemma SwapMarks(cat: Catalog, sections: map<SectionId, Section>, t: Txn, w: SwapPc, now: nat, hold: bool,
               src: Section, tgt: Section, t': Txn)
    requires t.req.Swap? && t.home in sections && t.req.target in sections && t.home != t.req.target
    requires sections[t.home] == src && sections[t.req.target] == tgt && t.req.id in src.rows
    requires GoodSwap(src, tgt, t.home, t.req, w, t.writes)
    requires w.SwapMark? && t' == ExecSwapWrites(sections, t, w)
    ensures GoodSwapPc(src, tgt, t.home, t.req, t'.pc, t'.writes)
  {
    NoWrites(src, t.home);
    NoWrites(tgt, t.req.target);
    var write := PutRow(t.home, t.req.id, Release(src.rows[t.req.id]));
    assert View(src, t.home, t.writes) == src && View(tgt, t.req.target, t.writes) == tgt;
    Snoc(src, t.home, t.writes, write, src, [], []);
    Snoc(tgt, t.req.target, t.writes, write, tgt, [], []);
    hide View, EventsOf, NotesOf, ActiveOf, SeatInvariant, Wrote;
  }

  lemma SwapDecs(cat: Catalog, sections: map<SectionId, Section>, t: Txn, w: SwapPc, now: nat, hold: bool,
               src: Section, tgt: Section, t': Txn)
    requires t.req.Swap? && t.home in sections && t.req.target in sections && t.home != t.req.target
    requires sections[t.home] == src && sections[t.req.target] == tgt && t.req.id in src.rows
    requires GoodSwap(src, tgt, t.home, t.req, w, t.writes)
    requires w.SwapDec? && SeatInvariant(src) && t' == ExecSwapWrites(sections, t, w)
    ensures GoodSwapPc(src, tgt, t.home, t.req, t'.pc, t'.writes)
  {
    LeaveChecked(src, t.req.id);
    var gone := Section(src.cols, src.rows[t.req.id := Release(src.rows[t.req.id])]);
    var write := PutCols(t.home, SwapOut(src, t.req.id).cols);
    assert View(src, t.home, t.writes) == gone && View(tgt, t.req.target, t.writes) == tgt;
    Snoc(src, t.home, t.writes, write, gone, [], []);
    Snoc(tgt, t.req.target, t.writes, write, tgt, [], []);
    hide View, EventsOf, NotesOf, ActiveOf, SeatInvariant, Wrote;
  }

  lemma SwapInserts(cat: Catalog, sections: map<SectionId, Section>, t: Txn, w: SwapPc, now: nat, hold: bool,
               src: Section, tgt: Section, t': Txn)
    requires t.req.Swap? && t.home in sections && t.req.target in sections && t.home != t.req.target
    requires sections[t.home] == src && sections[t.req.target] == tgt && t.req.id in src.rows
    requires GoodSwap(src, tgt, t.home, t.req, w, t.writes)
    requires w.SwapInsert? && t' == ExecSwapWrites(sections, t, w)
    ensures GoodSwapPc(src, tgt, t.home, t.req, t'.pc, t'.writes)
  {
    var out := SwapOut(src, t.req.id);
    var write := PutRow(t.req.target, t.req.newId, Row(t.req.student, ENROLLED, None));
    assert View(src, t.home, t.writes) == out && View(tgt, t.req.target, t.writes) == tgt;
    Snoc(src, t.home, t.writes, write, out, [], []);
    Snoc(tgt, t.req.target, t.writes, write, tgt, [], []);
    hide View, EventsOf, NotesOf, ActiveOf, SeatInvariant, Wrote;
  }

  lemma SwapIncs(cat: Catalog, sections: map<SectionId, Section>, t: Txn, w: SwapPc, now: nat, hold: bool,
               src: Section, tgt: Section, t': Txn)
    requires t.req.Swap? && t.home in sections && t.req.target in sections && t.home != t.req.target
    requires sections[t.home] == src && sections[t.req.target] == tgt && t.req.id in src.rows
    requires GoodSwap(src, tgt, t.home, t.req, w, t.writes)
    requires w.SwapInc? && CheckHolds(tgt.cols) && t' == ExecSwapWrites(sections, t, w)
    ensures GoodSwapPc(src, tgt, t.home, t.req, t'.pc, t'.writes)
  {
    var out := SwapOut(src, t.req.id);
    var added := Section(tgt.cols, tgt.rows[t.req.newId := Row(t.req.student, ENROLLED, None)]);
    var write := PutCols(t.req.target, SwapIn(tgt, t.req.student, t.req.newId).cols);
    assert View(src, t.home, t.writes) == out && View(tgt, t.req.target, t.writes) == added;
    Snoc(src, t.home, t.writes, write, out, [], []);
    Snoc(tgt, t.req.target, t.writes, write, added, [], []);
    hide View, EventsOf, NotesOf, ActiveOf, SeatInvariant, Wrote;
  }

  lemma SwapAudits(cat: Catalog, sections: map<SectionId, Section>, t: Txn, w: SwapPc, now: nat, hold: bool,
               src: Section, tgt: Section, t': Txn)
    requires t.req.Swap? && t.home in sections && t.req.target in sections && t.home != t.req.target
    requires sections[t.home] == src && sections[t.req.target] == tgt && t.req.id in src.rows
    requires GoodSwap(src, tgt, t.home, t.req, w, t.writes)
    requires w.SwapAudit? && t' == ExecSwapWrites(sections, t, w)
    ensures GoodSwapPc(src, tgt, t.home, t.req, t'.pc, t'.writes)
  {
    var out, inn := SwapOut(src, t.req.id), SwapIn(tgt, t.req.student, t.req.newId);
    var write := Emit(Swapped(t.req.id, t.home, src.rows[t.req.id].status, t.req.newId, t.req.student, t.req.target));
    assert View(src, t.home, t.writes) == out && View(tgt, t.req.target, t.writes) == inn;
    Snoc(src, t.home, t.writes, write, out, [], []);
    Snoc(tgt, t.req.target, t.writes, write, inn, [], []);
    hide View, EventsOf, NotesOf, ActiveOf, SeatInvariant, Wrote;
  }

  lemma SwapStep(cat: Catalog, sections: map<SectionId, Section>, t: Txn, w: SwapPc, now: nat, hold: bool,
               src: Section, tgt: Section, t': Txn)
    requires t.req.Swap? && t.home in sections && t.req.target in sections && t.home != t.req.target
    requires sections[t.home] == src && sections[t.req.target] == tgt && t.req.id in src.rows
    requires GoodSwap(src, tgt, t.home, t.req, w, t.writes)
    requires SeatInvariant(src) && CheckHolds(tgt.cols) && t' == ExecSwap(cat, sections, t, w, now, hold)
    ensures GoodSwapPc(src, tgt, t.home, t.req, t'.pc, t'.writes)
  {
    hide ExecSwapRead, ExecSwapChecks, ExecSwapWrites, Wrote, SeatInvariant;
    match w
    case SwapMark(_) => SwapMarks(cat, sections, t, w, now, hold, src, tgt, t');
    case SwapDec(_) => SwapDecs(cat, sections, t, w, now, hold, src, tgt, t');
    case SwapInsert(_) => SwapInserts(cat, sections, t, w, now, hold, src, tgt, t');
    case SwapInc(_) => SwapIncs(cat, sections, t, w, now, hold, src, tgt, t');
    case SwapAudit(_) => SwapAudits(cat, sections, t, w, now, hold, src, tgt, t');
    case _ => SwapChecks(cat, sections, t, w, now, hold, src, tgt, t');
  }

  // --------------------------------------------------------------- promote

  ghost predicate SeatedSoFar(sec: Section, s: SectionId, ws: seq<Write>, rowsDone: nat, notesDone: nat,
                              eventsDone: nat) {
    var o := Ordered(sec.rows);
    && rowsDone <= |o| && notesDone <= |o| && eventsDone <= |o|
    && (forall k | 0 <= k < |o| :: o[k] in sec.rows)
    && Wrote(sec, s, ws, Section(sec.cols, Seated(sec.rows, o[..rowsDone])),
             PromotionEvents(sec.rows, s, o[..eventsDone]), PromotionNotes(sec.rows, s, o[..notesDone]))
  }

  ghost predicate NextUp(sec: Section, live: Columns, k: nat, id: RowId, before: Option<nat>) {
    var o := Ordered(sec.rows);
    live == sec.cols && k < |o| && live.enrolledCount + k < live.capacity
    && id == o[k] && id in sec.rows && before == sec.rows[id].position
  }

  ghost predicate GoodPromote(sec: Section, s: SectionId, p: PromotePc, ws: seq<Write>) {
    match p
    case PromoteGate(live) => live == sec.cols && ws == []
    case PromotePick(live, k) =>
      live == sec.cols && live.enrolledCount + k <= live.capacity && SeatedSoFar(sec, s, ws, k, k, k)
    case PromoteMark(live, k, id, before) => NextUp(sec, live, k, id, before) && SeatedSoFar(sec, s, ws, k, k, k)
    case PromoteNote(live, k, id, before) => NextUp(sec, live, k, id, before) && SeatedSoFar(sec, s, ws, k + 1, k, k)
    case PromoteAudit(live, k, id, before) =>
      NextUp(sec, live, k, id, before) && SeatedSoFar(sec, s, ws, k + 1, k + 1, k)
    case PromoteSave(live, k) =>
      live == sec.cols && k == |Promotable(sec)| && Promotable(sec) == Ordered(sec.rows)[..k]
      && SeatedSoFar(sec, s, ws, k, k, k)
    case _ => false
  }

  ghost predicate GoodPromotePc(sec: Section, s: SectionId, pc: Pc, ws: seq<Write>)
  {
    match pc
    case Promoting(p) => GoodPromote(sec, s, p, ws)
    case Ready(out) => if out.RegistrationOver? then ws == [] else Matches(sec, s, ws, PromoteFx(sec, s), out)
    case Failed(code) => !Constraint(code)
    case _ => false
  }

  lemma SeatedNone(rows: map<RowId, Row>)
    ensures Seated(rows, []) == rows
  {
  }

  // A row not yet seated still has the position it was read with.
  lemma SeatedElsewhere(rows: map<RowId, Row>, k: nat)
    requires k < |Ordered(rows)| && Ordered(rows)[k] in rows
    ensures Seated(rows, Ordered(rows)[..k])[Ordered(rows)[k]] == rows[Ordered(rows)[k]]
  {
    OrderOfSorted(rows, Waiting(rows));
    var o := Ordered(rows);
    assert o[k] !in o[..k];
  }

  // With the first k waiters seated, the next pick is the (k+1)st of the
  // original order, or there is none left.
  lemma NextPick(rows: map<RowId, Row>, k: nat)
    requires k <= |Ordered(rows)|
    ensures var v := Seated(rows, Ordered(rows)[..k]);
            if k < |Ordered(rows)|
            then Waiting(v) != {} && First(v, Waiting(v)) == Ordered(rows)[k] && Ordered(rows)[k] in rows
                 && v[Ordered(rows)[k]] == rows[Ordered(rows)[k]]
            else Waiting(v) == {}
  {
    var o := Ordered(rows);
    var v := Seated(rows, o[..k]);
    SeatedOrder(rows, k);
    OrderedInRows(rows);
    assert Ordered(v) == o[k..];
    if k < |o| { SeatedElsewhere(rows, k); }
  }

  lemma PromotionSnoc(rows: map<RowId, Row>, s: SectionId, ids: seq<RowId>, id: RowId)
    requires id in rows && forall i <- ids :: i in rows
    ensures forall i <- ids + [id] :: i in rows
    ensures PromotionEvents(rows, s, ids + [id]) == PromotionEvents(rows, s, ids) + [Promoted(id, s, rows[id].position)]
    ensures PromotionNotes(rows, s, ids + [id]) == PromotionNotes(rows, s, ids)
            + [PromotedNote(rows[id].student, id, s)]
  {
  }

  lemma PromotePicks(cat: Catalog, sections: map<SectionId, Section>, t: Txn, p: PromotePc, now: nat, s: SectionId,
                     sec: Section, t': Txn)
    requires t.req == Promote(s) && s in sections && sections[s] == sec
    requires GoodPromote(sec, s, p, t.writes) && t' == ExecPromote(cat, sections, t, p, now)
    requires p.PromotePick?
    ensures GoodPromotePc(sec, s, t'.pc, t'.writes)
  {
    var o := Ordered(sec.rows);
    assert View(sec, s, t.writes) == Section(sec.cols, Seated(sec.rows, o[..p.k])) by {
      hide EventsOf, NotesOf, Seated, Ordered, Waiting, First, PromotionEvents, PromotionNotes;
    }
    hide EventsOf, NotesOf, Seated, View, Ordered, Waiting, First;
    NextPick(sec.rows, p.k);
    SeatedNone(sec.rows);
    assert o[..0] == [] && o[..|o|] == o;
    assert PromotionEvents(sec.rows, s, []) == [] && PromotionNotes(sec.rows, s, []) == [];
    hide EventsOf, NotesOf, Seated, View, Ordered, Waiting, First, Wrote, PromotionEvents, PromotionNotes;
  }

  lemma PromoteMarks(cat: Catalog, sections: map<SectionId, Section>, t: Txn, p: PromotePc, now: nat, s: SectionId,
                     sec: Section, t': Txn)
    requires t.req == Promote(s) && s in sections && sections[s] == sec
    requires GoodPromote(sec, s, p, t.writes) && t' == ExecPromote(cat, sections, t, p, now)
    requires p.PromoteMark?
    ensures GoodPromotePc(sec, s, t'.pc, t'.writes)
  {
    hide EventsOf, NotesOf, Seated, View, Ordered, Waiting, First, PromotionEvents, PromotionNotes;
    var o := Ordered(sec.rows);
    var k, id := p.k, p.id;
    assert o[..k + 1] == o[..k] + [o[k]];
    var before := Section(sec.cols, Seated(sec.rows, o[..k]));
    NextPick(sec.rows, k);
    SeatedSnoc(sec.rows, o[..k], id);
    Snoc(sec, s, t.writes, PutRow(s, id, Seat(sec.rows[id])), before,
         PromotionEvents(sec.rows, s, o[..k]), PromotionNotes(sec.rows, s, o[..k]));
  }

  lemma PromoteNotes(cat: Catalog, sections: map<SectionId, Section>, t: Txn, p: PromotePc, now: nat, s: SectionId,
                     sec: Section, t': Txn)
    requires t.req == Promote(s) && s in sections && sections[s] == sec
    requires GoodPromote(sec, s, p, t.writes) && t' == ExecPromote(cat, sections, t, p, now)
    requires p.PromoteNote?
    ensures GoodPromotePc(sec, s, t'.pc, t'.writes)
  {
    var o := Ordered(sec.rows);
    var k, id := p.k, p.id;
    assert o[..k + 1] == o[..k] + [o[k]];
    var after := Section(sec.cols, Seated(sec.rows, o[..k + 1]));
    assert View(sec, s, t.writes) == after && after.rows[id].student == sec.rows[id].student;
    PromotionSnoc(sec.rows, s, o[..k], id);
    Snoc(sec, s, t.writes, Notify(PromotedNote(sec.rows[id].student, id, s)), after,
         PromotionEvents(sec.rows, s, o[..k]), PromotionNotes(sec.rows, s, o[..k]));
    hide EventsOf, NotesOf, Seated, View, Ordered, Waiting, First, Wrote, PromotionEvents, PromotionNotes;
  }

  lemma PromoteAudits(cat: Catalog, sections: map<SectionId, Section>, t: Txn, p: PromotePc, now: nat, s: SectionId,
                      sec: Section, t': Txn)
    requires t.req == Promote(s) && s in sections && sections[s] == sec
    requires GoodPromote(sec, s, p, t.writes) && t' == ExecPromote(cat, sections, t, p, now)
    requires p.PromoteAudit?
    ensures GoodPromotePc(sec, s, t'.pc, t'.writes)
  {
    var o := Ordered(sec.rows);
    var k, id := p.k, p.id;
    assert o[..k + 1] == o[..k] + [o[k]];
    var after := Section(sec.cols, Seated(sec.rows, o[..k + 1]));
    PromotionSnoc(sec.rows, s, o[..k], id);
    Snoc(sec, s, t.writes, Emit(Promoted(id, s, p.before)), after,
         PromotionEvents(sec.rows, s, o[..k]), PromotionNotes(sec.rows, s, o[..k + 1]));
    hide EventsOf, NotesOf, Seated, View, Ordered, Waiting, First, Wrote, PromotionEvents, PromotionNotes;
  }

  lemma PromoteGates(cat: Catalog, sections: map<SectionId, Section>, t: Txn, p: PromotePc, now: nat, s: SectionId,
                     sec: Section, t': Txn)
    requires t.req == Promote(s) && s in sections && sections[s] == sec
    requires GoodPromote(sec, s, p, t.writes) && t' == ExecPromote(cat, sections, t, p, now)
    requires p.PromoteGate? && CheckHolds(sec.cols)
    ensures GoodPromotePc(sec, s, t'.pc, t'.writes)
  {
    OrderedInRows(sec.rows);
    SeatedNone(sec.rows);
    NoWrites(sec, s);
    assert Ordered(sec.rows)[..0] == [];
    assert PromotionEvents(sec.rows, s, []) == [] && PromotionNotes(sec.rows, s, []) == [];
    hide EventsOf, NotesOf, Seated, View, Ordered, Waiting, First, Wrote, PromotionEvents, PromotionNotes;
  }

  lemma PromoteSaves(cat: Catalog, sections: map<SectionId, Section>, t: Txn, p: PromotePc, now: nat, s: SectionId,
                     sec: Section, t': Txn)
    requires t.req == Promote(s) && s in sections && sections[s] == sec
    requires GoodPromote(sec, s, p, t.writes) && t' == ExecPromote(cat, sections, t, p, now)
    requires p.PromoteSave? && CheckHolds(sec.cols)
    ensures GoodPromotePc(sec, s, t'.pc, t'.writes)
  {
    hide View, EventsOf, NotesOf, Seated, Ordered, Waiting, First, PromotionEvents, PromotionNotes;
    var ids := Promotable(sec);
    var seated := Section(sec.cols, Seated(sec.rows, ids));
    OrderedInRows(sec.rows);
    assert View(sec, s, t.writes) == seated;
    Snoc(sec, s, t.writes, PutCols(s, PromoteFx(sec, s).sec.cols), seated,
         PromotionEvents(sec.rows, s, ids), PromotionNotes(sec.rows, s, ids));
    hide Wrote;
  }

  lemma PromoteStep(cat: Catalog, sections: map<SectionId, Section>, t: Txn, p: PromotePc, now: nat, s: SectionId,
                    sec: Section, t': Txn)
    requires t.req == Promote(s) && s in sections && sections[s] == sec
    requires GoodPromote(sec, s, p, t.writes) && t' == ExecPromote(cat, sections, t, p, now)
    requires CheckHolds(sec.cols)
    ensures GoodPromotePc(sec, s, t'.pc, t'.writes)
  {
    hide ExecPromote, Wrote, SeatedSoFar, NextUp;
    match p
    case PromoteGate(_) => PromoteGates(cat, sections, t, p, now, s, sec, t');
    case PromotePick(_, _) => PromotePicks(cat, sections, t, p, now, s, sec, t');
    case PromoteMark(_, _, _, _) => PromoteMarks(cat, sections, t, p, now, s, sec, t');
    case PromoteNote(_, _, _, _) => PromoteNotes(cat, sections, t, p, now, s, sec, t');
    case PromoteAudit(_, _, _, _) => PromoteAudits(cat, sections, t, p, now, s, sec, t');
    case PromoteSave(_, _) => PromoteSaves(cat, sections, t, p, now, s, sec, t');
    case _ =>
  }

  // --------------------------------------------------------------- reorder

  ghost predicate GoodReorder(sec: Section, s: SectionId, order: seq<RowId>, r: ReorderPc, ws: seq<Write>) {
    var same := (set id <- order) == Waiting(sec.rows);
    match r
    case ReorderRead => ws == []
    case ReorderWrite(current, i) =>
      same && current == Ordered(sec.rows) && i <= |order|
      && Wrote(sec, s, ws, Section(sec.cols, Renumbered(sec.rows, order[..i])), [], [])
    case ReorderAudit(current) =>
      same && current == Ordered(sec.rows)
      && Wrote(sec, s, ws, Section(sec.cols, Renumbered(sec.rows, order)), [], [])
    case _ => false
  }

  ghost predicate GoodReorderPc(sec: Section, s: SectionId, order: seq<RowId>, pc: Pc, ws: seq<Write>)
  {
    match pc
    case Reordering(r) => GoodReorder(sec, s, order, r, ws)
    case Ready(out) => Matches(sec, s, ws, ReorderFx(sec, s, order), out)
    case Failed(code) => !Constraint(code)
    case _ => false
  }

  lemma SubsetOfEqualSize<T>(a: set<T>, b: set<T>)
    requires a <= b && |a| == |b|
    ensures a == b
  {
    assert |b - a| == |b| - |a|;
  }

  // Renumbering one more row: it has not been renumbered before.
  lemma RenumberOne(rows: map<RowId, Row>, order: seq<RowId>, i: nat)
    requires Distinct(order) && i < |order| && order[i] in rows
    ensures Renumbered(rows, order[..i + 1])
         == Renumbered(rows, order[..i])[order[i] := Renumbered(rows, order[..i])[order[i]].(position := Some(i + 1))]
  {
    assert order[..i + 1] == order[..i] + [order[i]];
    assert order[i] !in order[..i];
    RenumberedSnoc(rows, order[..i], order[i]);
  }

  lemma ReorderReads(sections: map<SectionId, Section>, t: Txn, r: ReorderPc, s: SectionId, sec: Section,
                     order: seq<RowId>, t': Txn)
    requires t.req == Reorder(s, order) && s in sections && sections[s] == sec && Distinct(order)
    requires GoodReorder(sec, s, order, r, t.writes) && t' == ExecReorder(sections, t, r)
    requires r.ReorderRead?
    ensures GoodReorderPc(sec, s, order, t'.pc, t'.writes)
  {
    NoWrites(sec, s);
    OrderOfSorted(sec.rows, Waiting(sec.rows));
    assert order[..0] == [];
    assert Renumbered(sec.rows, []) == sec.rows;
    var current, submitted := (set id <- Ordered(sec.rows)), (set id <- order);
    assert current == Elems(Ordered(sec.rows)) == Waiting(sec.rows);
    assert View(sec, s, t.writes) == sec;
    if t'.pc.Reordering? {
      SubsetOfEqualSize(current, submitted);
    }
    hide EventsOf, NotesOf, View, Renumbered, Ordered, Wrote;
  }

  lemma ReorderWrites(sections: map<SectionId, Section>, t: Txn, r: ReorderPc, s: SectionId, sec: Section,
                      order: seq<RowId>, t': Txn)
    requires t.req == Reorder(s, order) && s in sections && sections[s] == sec && Distinct(order)
    requires GoodReorder(sec, s, order, r, t.writes) && t' == ExecReorder(sections, t, r)
    requires r.ReorderWrite?
    ensures GoodReorderPc(sec, s, order, t'.pc, t'.writes)
  {
    hide EventsOf, NotesOf, View, Ordered;
    var i := r.i;
    assert order[..|order|] == order;
    if i < |order| {
      assert order[i] in (set id <- order) && order[i] in Waiting(sec.rows);
      hide Waiting;
      RenumberOne(sec.rows, order, i);
      var v := Section(sec.cols, Renumbered(sec.rows, order[..i]));
      assert order[i] in v.rows;
      hide Renumbered;
      Snoc(sec, s, t.writes, PutRow(s, order[i], v.rows[order[i]].(position := Some(i + 1))), v, [], []);
    }
  }

  lemma ReorderAudits(sections: map<SectionId, Section>, t: Txn, r: ReorderPc, s: SectionId, sec: Section,
                      order: seq<RowId>, t': Txn)
    requires t.req == Reorder(s, order) && s in sections && sections[s] == sec && Distinct(order)
    requires GoodReorder(sec, s, order, r, t.writes) && t' == ExecReorder(sections, t, r)
    requires r.ReorderAudit?
    ensures GoodReorderPc(sec, s, order, t'.pc, t'.writes)
  {
    Snoc(sec, s, t.writes, Emit(Reordered(s, Ordered(sec.rows), order)), Section(sec.cols, Renumbered(sec.rows, order)),
         [], []);
    hide EventsOf, NotesOf, View, Renumbered, Ordered, Wrote;
  }

  lemma ReorderStep(sections: map<SectionId, Section>, t: Txn, r: ReorderPc, s: SectionId, sec: Section,
                    order: seq<RowId>, t': Txn)
    requires t.req == Reorder(s, order) && s in sections && sections[s] == sec && Distinct(order)
    requires GoodReorder(sec, s, order, r, t.writes) && t' == ExecReorder(sections, t, r)
    ensures GoodReorderPc(sec, s, order, t'.pc, t'.writes)
  {
    hide ExecReorder, Wrote, Distinct;
    match r
    case ReorderRead => ReorderReads(sections, t, r, s, sec, order, t');
    case ReorderWrite(_, _) => ReorderWrites(sections, t, r, s, sec, order, t');
    case ReorderAudit(_) => ReorderAudits(sections, t, r, s, sec, order, t');
    case _ =>
  }

  // ---------------------------------------------------------------- expire

  ghost predicate ReleasedSoFar(sec: Section, s: SectionId, ws: seq<Write>, list: seq<Waiter>,
                           rowsDone: nat, eventsDone: nat, notesDone: nat) {
    var o := Ordered(sec.rows);
    && list == Waiters(sec.rows)
    && rowsDone <= |o| && notesDone <= |o| && eventsDone <= |o|
    && (forall k | 0 <= k < |o| :: o[k] in sec.rows)
    && Wrote(sec, s, ws, Section(sec.cols, Released(sec.rows, o[..rowsDone])),
             ExpiryEvents(sec.rows, o[..eventsDone]), ExpiryNotes(sec.rows, s, o[..notesDone]))
  }

  ghost predicate GoodExpire(sec: Section, s: SectionId, x: ExpirePc, ws: seq<Write>) {
    match x
    case ExpireRead => ws == []
    case ExpireMark(list, i) => ReleasedSoFar(sec, s, ws, list, i, i, i)
    case ExpireAudit(list, i) => i < |list| && ReleasedSoFar(sec, s, ws, list, i + 1, i, i)
    case ExpireNote(list, i) => i < |list| && ReleasedSoFar(sec, s, ws, list, i + 1, i + 1, i)
    case _ => false
  }

  ghost predicate GoodExpirePc(sec: Section, s: SectionId, pc: Pc, ws: seq<Write>)
  {
    match pc
    case Expiring(x) => GoodExpire(sec, s, x, ws)
    case Ready(out) => Matches(sec, s, ws, ExpireFx(sec, s), out)
    case Failed(code) => !Constraint(code)
    case _ => false
  }

  lemma ExpirySnoc(rows: map<RowId, Row>, s: SectionId, ids: seq<RowId>, id: RowId)
    requires id in rows && forall i <- ids :: i in rows
    ensures forall i <- ids + [id] :: i in rows
    ensures ExpiryEvents(rows, ids + [id]) == ExpiryEvents(rows, ids) + [Expired(id, rows[id].position)]
    ensures ExpiryNotes(rows, s, ids + [id]) == ExpiryNotes(rows, s, ids) + [ExpiredNote(rows[id].student, id, s)]
  {
  }

  lemma ReleasedElsewhere(rows: map<RowId, Row>, k: nat)
    requires k < |Ordered(rows)| && Ordered(rows)[k] in rows
    ensures Released(rows, Ordered(rows)[..k])[Ordered(rows)[k]] == rows[Ordered(rows)[k]]
  {
    OrderOfSorted(rows, Waiting(rows));
    var o := Ordered(rows);
    assert o[k] !in o[..k];
  }

  lemma ExpireEnds(sections: map<SectionId, Section>, t: Txn, x: ExpirePc, s: SectionId, sec: Section, t': Txn)
    requires t.req == Expire(s) && s in sections && sections[s] == sec
    requires GoodExpire(sec, s, x, t.writes) && t' == ExecExpire(sections, t, x)
    requires x.ExpireRead? || (x.ExpireMark? && x.i >= |x.list|)
    ensures GoodExpirePc(sec, s, t'.pc, t'.writes)
  {
    var o := Ordered(sec.rows);
    NoWrites(sec, s);
    OrderedInRows(sec.rows);
    assert Released(sec.rows, []) == sec.rows;
    assert o[..0] == [] && o[..|o|] == o;
    assert ExpiryEvents(sec.rows, []) == [] && ExpiryNotes(sec.rows, s, []) == [];
    assert |Waiters(sec.rows)| == |o|;
    assert x.ExpireRead? ==> View(sec, s, t.writes) == sec;
    hide EventsOf, NotesOf, Released, View, Ordered, Waiting, First, Waiters, Wrote, ExpiryEvents, ExpiryNotes;
  }

  lemma ExpireMarks(sections: map<SectionId, Section>, t: Txn, x: ExpirePc, s: SectionId, sec: Section, t': Txn)
    requires t.req == Expire(s) && s in sections && sections[s] == sec
    requires GoodExpire(sec, s, x, t.writes) && t' == ExecExpire(sections, t, x)
    requires x.ExpireMark? && x.i < |x.list|
    ensures GoodExpirePc(sec, s, t'.pc, t'.writes)
  {
    var o := Ordered(sec.rows);
    var i := x.i;
    var id := o[i];
    assert Waiters(sec.rows)[i] == Waiter(id, sec.rows[id].student, sec.rows[id].position);
    assert o[..i + 1] == o[..i] + [id];
    var before := Section(sec.cols, Released(sec.rows, o[..i]));
    assert View(sec, s, t.writes) == before;
    ReleasedElsewhere(sec.rows, i);
    ReleasedSnoc(sec.rows, o[..i], id);
    Snoc(sec, s, t.writes, PutRow(s, id, Release(sec.rows[id])), before,
         ExpiryEvents(sec.rows, o[..i]), ExpiryNotes(sec.rows, s, o[..i]));
    hide EventsOf, NotesOf, Released, View, Ordered, Waiting, First, Waiters, Wrote, ExpiryEvents, ExpiryNotes;
  }

  lemma ExpireAudits(sections: map<SectionId, Section>, t: Txn, x: ExpirePc, s: SectionId, sec: Section, t': Txn)
    requires t.req == Expire(s) && s in sections && sections[s] == sec
    requires GoodExpire(sec, s, x, t.writes) && t' == ExecExpire(sections, t, x)
    requires x.ExpireAudit?
    ensures GoodExpirePc(sec, s, t'.pc, t'.writes)
  {
    var o := Ordered(sec.rows);
    var i := x.i;
    var id := o[i];
    assert Waiters(sec.rows)[i] == Waiter(id, sec.rows[id].student, sec.rows[id].position);
    assert o[..i + 1] == o[..i] + [id];
    ExpirySnoc(sec.rows, s, o[..i], id);
    Snoc(sec, s, t.writes, Emit(Expired(id, sec.rows[id].position)), Section(sec.cols, Released(sec.rows, o[..i + 1])),
         ExpiryEvents(sec.rows, o[..i]), ExpiryNotes(sec.rows, s, o[..i]));
    hide EventsOf, NotesOf, Released, View, Ordered, Waiting, First, Waiters, Wrote, ExpiryEvents, ExpiryNotes;
  }

  lemma ExpireNotes(sections: map<SectionId, Section>, t: Txn, x: ExpirePc, s: SectionId, sec: Section, t': Txn)
    requires t.req == Expire(s) && s in sections && sections[s] == sec
    requires GoodExpire(sec, s, x, t.writes) && t' == ExecExpire(sections, t, x)
    requires x.ExpireNote?
    ensures GoodExpirePc(sec, s, t'.pc, t'.writes)
  {
    var o := Ordered(sec.rows);
    var i := x.i;
    var id := o[i];
    assert Waiters(sec.rows)[i] == Waiter(id, sec.rows[id].student, sec.rows[id].position);
    assert o[..i + 1] == o[..i] + [id];
    ExpirySnoc(sec.rows, s, o[..i], id);
    Snoc(sec, s, t.writes, Notify(ExpiredNote(sec.rows[id].student, id, s)),
         Section(sec.cols, Released(sec.rows, o[..i + 1])),
         ExpiryEvents(sec.rows, o[..i + 1]), ExpiryNotes(sec.rows, s, o[..i]));
    hide EventsOf, NotesOf, Released, View, Ordered, Waiting, First, Waiters, Wrote, ExpiryEvents, ExpiryNotes;
  }

  lemma ExpireStep(sections: map<SectionId, Section>, t: Txn, x: ExpirePc, s: SectionId, sec: Section, t': Txn)
    requires t.req == Expire(s) && s in sections && sections[s] == sec
    requires GoodExpire(sec, s, x, t.writes) && t' == ExecExpire(sections, t, x)
    ensures GoodExpirePc(sec, s, t'.pc, t'.writes)
  {
    hide ExecExpire, Wrote, ReleasedSoFar;
    match x
    case ExpireMark(list, i) =>
      if i < |list| { ExpireMarks(sections, t, x, s, sec, t'); } else { ExpireEnds(sections, t, x, s, sec, t'); }
    case ExpireAudit(_, _) => ExpireAudits(sections, t, x, s, sec, t');
    case ExpireNote(_, _) => ExpireNotes(sections, t, x, s, sec, t');
    case ExpireRead => ExpireEnds(sections, t, x, s, sec, t');
    case _ =>
  }

  // ------------------------------------------------------------------ edit

  ghost predicate GoodEdit(sec: Section, req: Request, u: EditPc, ws: seq<Write>)
    requires req.Edit?
  {
    var s := req.section;
    var fx := EditFx(sec, s, req.capacity, req.waitlistCap);
    match u
    case EditWrite(live) => live == sec.cols && ws == []
    case EditAudit(live) => live == sec.cols && !fx.out.Error? && Wrote(sec, s, ws, fx.sec, [], [])
    case EditTally(live) => live == sec.cols && Matches(sec, s, ws, fx, fx.out)
    case _ => false
  }

  ghost predicate GoodEditPc(sec: Section, req: Request, pc: Pc, ws: seq<Write>)
    requires req.Edit?
  {
    match pc
    case Editing(u) => GoodEdit(sec, req, u, ws)
    case Ready(out) => Matches(sec, req.section, ws, EditFx(sec, req.section, req.capacity, req.waitlistCap), out)
    case Failed(code) => !Constraint(code)
    case _ => false
  }

  lemma EditWrites(sections: map<SectionId, Section>, t: Txn, u: EditPc, s: SectionId, sec: Section, t': Txn)
    requires t.req.Edit? && t.req.section == s && s in sections && sections[s] == sec && CheckHolds(sec.cols)
    requires GoodEdit(sec, t.req, u, t.writes) && t' == ExecEdit(sections, t, u) && u.EditWrite?
    ensures GoodEditPc(sec, t.req, t'.pc, t'.writes)
  {
    NoWrites(sec, s);
    hide View, EventsOf, NotesOf;
    Snoc(sec, s, t.writes, PutCols(s, EditFx(sec, s, t.req.capacity, t.req.waitlistCap).sec.cols), sec, [], []);
    assert View(sec, s, t.writes) == sec;
    hide Wrote;
  }

  lemma EditAudits(sections: map<SectionId, Section>, t: Txn, u: EditPc, s: SectionId, sec: Section, t': Txn)
    requires t.req.Edit? && t.req.section == s && s in sections && sections[s] == sec
    requires GoodEdit(sec, t.req, u, t.writes) && t' == ExecEdit(sections, t, u) && u.EditAudit?
    ensures GoodEditPc(sec, t.req, t'.pc, t'.writes)
  {
    hide View, EventsOf, NotesOf;
    var fx := EditFx(sec, s, t.req.capacity, t.req.waitlistCap);
    Snoc(sec, s, t.writes, Emit(fx.events[0]), fx.sec, [], []);
    hide Wrote;
  }

  lemma EditStep(sections: map<SectionId, Section>, t: Txn, u: EditPc, s: SectionId, sec: Section, t': Txn)
    requires t.req.Edit? && t.req.section == s && s in sections && sections[s] == sec && CheckHolds(sec.cols)
    requires GoodEdit(sec, t.req, u, t.writes) && t' == ExecEdit(sections, t, u)
    ensures GoodEditPc(sec, t.req, t'.pc, t'.writes)
  {
    hide EventsOf, NotesOf, View, Wrote;
    if u.EditWrite? { EditWrites(sections, t, u, s, sec, t'); }
    else if u.EditAudit? { EditAudits(sections, t, u, s, sec, t'); }
  }
}
