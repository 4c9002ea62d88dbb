// The transactions as they really run: one SQL statement at a time, any
// number of them interleaved. Every statement reads the committed database
// overlaid with the transaction's own uncommitted writes (READ COMMITTED), a
// row lock on a Section is held until the transaction ends, and writes reach
// the database at commit.
module Machine {
  import opened Registry
  import opened Waitlist
  import opened Operations

  type TxnId = nat

  // One tuple written by a statement, or one appended row.
  datatype Write =
    | PutRow(section: SectionId, id: RowId, row: Row)
    | PutCols(section: SectionId, cols: Columns)
    | Emit(event: Event)
    | Notify(note: Note)

  // A row as the expiry job reads it.
  datatype Waiter = Waiter(id: RowId, student: StudentId, before: Option<nat>)

  // The next statement of a transaction, with the values read so far.
  // enroll: unlocked reads, the lock, re-reads, then a seat or a waitlist row.
  datatype EnrollPc =
    | EnrollGate | EnrollLock | EnrollActive(live: Columns)
    | EnrollDup(live: Columns) | EnrollPrereq(live: Columns)
    | EnrollMine(live: Columns) | EnrollOverload(live: Columns, credits: nat)
    | EnrollInsert(live: Columns) | EnrollBump | EnrollAudit(cols: Columns)
    | QueueCount(live: Columns) | QueuePosition | QueueInsert(p: nat) | QueueRank(p: nat)
    | QueueAudit(p: nat, rank: nat)

  datatype DropPc = DropRead | DropLock | DropReread | DropMark(row: Row) | DropCount(row: Row) | DropAudit(row: Row)

  // swap: two locks in id order.
  datatype SwapPc =
    | SwapRead | SwapGate | SwapLock1 | SwapLock2 | SwapReread | SwapTarget(row: Row)
    | SwapDup(row: Row) | SwapPrereq(row: Row) | SwapMine(row: Row) | SwapOverload(row: Row, credits: nat)
    | SwapMark(row: Row) | SwapDec(row: Row) | SwapInsert(row: Row) | SwapInc(row: Row) | SwapAudit(row: Row)

  // promotion job: k rows promoted so far.
  datatype PromotePc =
    | PromoteLock | PromoteGate(live: Columns) | PromotePick(live: Columns, k: nat)
    | PromoteMark(live: Columns, k: nat, id: RowId, before: Option<nat>)
    | PromoteNote(live: Columns, k: nat, id: RowId, before: Option<nat>)
    | PromoteAudit(live: Columns, k: nat, id: RowId, before: Option<nat>)
    | PromoteSave(live: Columns, k: nat)

  // admin reorder: i rows renumbered so far.
  datatype ReorderPc =
    | ReorderLock | ReorderRead | ReorderWrite(current: seq<RowId>, i: nat) | ReorderAudit(current: seq<RowId>)

  // expiry: i rows handled so far.
  datatype ExpirePc =
    | ExpireLock | ExpireRead | ExpireMark(list: seq<Waiter>, i: nat)
    | ExpireAudit(list: seq<Waiter>, i: nat) | ExpireNote(list: seq<Waiter>, i: nat)

  datatype EditPc = EditLock | EditWrite(live: Columns) | EditAudit(live: Columns) | EditTally(live: Columns)

  datatype Pc =
    | Enrolling(e: EnrollPc) | Dropping(d: DropPc) | Swapping(w: SwapPc) | Promoting(p: PromotePc)
    | Reordering(r: ReorderPc) | Expiring(x: ExpirePc) | Editing(u: EditPc)
    | Ready(out: Outcome) | Failed(code: Code) | Committed(out: Outcome) | Aborted(code: Code)

  // home: the section of the row or request at hand, once it is known.
  datatype Txn = Txn(req: Request, home: SectionId, pc: Pc, held: set<SectionId>, writes: seq<Write>) {
    predicate Unfinished() { !pc.Committed? && !pc.Aborted? }
  }

  datatype State = State(db: Db, locks: map<SectionId, TxnId>, txns: map<TxnId, Txn>, used: set<RowId>)

  // ------------------------------------------------------ writes and views

  function Overwrite(sec: Section, s: SectionId, w: Write): Section {
    match w
    case PutRow(t, id, row) => if t == s then sec.(rows := sec.rows[id := row]) else sec
    case PutCols(t, cols) => if t == s then sec.(cols := cols) else sec
    case _ => sec
  }

  // Section s as a transaction with uncommitted writes ws sees it.
  function View(sec: Section, s: SectionId, ws: seq<Write>): Section {
    if ws == [] then sec else Overwrite(View(sec, s, ws[..|ws| - 1]), s, ws[|ws| - 1])
  }

  function ViewAll(sections: map<SectionId, Section>, ws: seq<Write>): map<SectionId, Section> {
    map s | s in sections :: View(sections[s], s, ws)
  }

  function EventsOf(ws: seq<Write>): seq<Event> {
    if ws == [] then [] else
      EventsOf(ws[..|ws| - 1]) + (if ws[|ws| - 1].Emit? then [ws[|ws| - 1].event] else [])
  }

  function NotesOf(ws: seq<Write>): seq<Note> {
    if ws == [] then [] else
      NotesOf(ws[..|ws| - 1]) + (if ws[|ws| - 1].Notify? then [ws[|ws| - 1].note] else [])
  }

  // ------------------------------------------------------------ statements

  function Go(t: Txn, pc: Pc): Txn { t.(pc := pc) }
  function Fail(t: Txn, code: Code): Txn { t.(pc := Failed(code)) }
  function Do(t: Txn, w: Write, pc: Pc): Txn { t.(writes := t.writes + [w], pc := pc) }

  // UPDATE "Section": the CHECK constraint is evaluated on the new tuple.
  function Store(t: Txn, s: SectionId, cols: Columns, pc: Pc): Txn {
    if CheckHolds(cols) then Do(t, PutCols(s, cols), pc) else Fail(t, CHECK_VIOLATION)
  }

  // INSERT "Enrollment" of an active row: the partial unique index is evaluated.
  function Insert(t: Txn, v: Section, s: SectionId, id: RowId, row: Row, pc: Pc): Txn {
    if ActiveOf(v.rows, row.student) == {} then Do(t, PutRow(s, id, row), pc) else Fail(t, UNIQUE_VIOLATION)
  }

  // A section as this transaction sees it.
  function Seen(sections: map<SectionId, Section>, t: Txn, s: SectionId): Section
    requires s in sections
  {
    View(sections[s], s, t.writes)
  }

  // The student's active rows other than those the request leaves out.
  function Others(sections: map<SectionId, Section>, t: Txn): set<RowKey>
    requires t.req.Enroll? || t.req.Swap?
  {
    var mine := ActiveSeats(ViewAll(sections, t.writes), t.req.student);
    if t.req.Enroll? then SeatsOutside(mine, t.req.section) else SeatsExcept(mine, t.req.id)
  }

  function OthersInTerm(cat: Catalog, sections: map<SectionId, Section>, t: Txn, target: SectionId): set<RowKey>
    requires t.req.Enroll? || t.req.Swap?
  {
    SameTerm(cat, Others(sections, t), cat.term(target))
  }

  function OverLimit(cat: Catalog, student: StudentId, credits: nat, target: SectionId): bool {
    credits + cat.credits(cat.course(target)) > cat.CreditCap(student, cat.term(target))
  }

  // enroll: seats first, then the waitlist.
  function SeatOrQueue(t: Txn, live: Columns): Txn {
    if live.enrolledCount < live.capacity then Go(t, Enrolling(EnrollInsert(live)))
    else if live.waitlistCap.Some? then Go(t, Enrolling(QueueCount(live)))
    else Go(t, Enrolling(QueuePosition))
  }

  function ExecEnrollChecks(cat: Catalog, sections: map<SectionId, Section>, t: Txn, e: EnrollPc, now: nat,
                            hold: bool): Txn
    requires t.req.Enroll? && t.req.section in sections
  {
    var s, x := t.req.section, t.req.student;
    match e
    case EnrollGate =>
      var gate := Gate(cat, x, s, now, hold);
      if gate.Some? then Fail(t, gate.value) else Go(t, Enrolling(EnrollLock))
    case EnrollActive(live) =>
      var v := Seen(sections, t, s);
      var held := HolderRow(v.rows, x);
      if held.Some? then Go(t, Ready(AlreadyOutcome(v, held.value))) else Go(t, Enrolling(EnrollDup(live)))
    case EnrollDup(live) =>
      if DuplicateCourse(cat, Others(sections, t), s) then Fail(t, DUPLICATE_COURSE)
      else Go(t, Enrolling(EnrollPrereq(live)))
    case EnrollPrereq(live) =>
      if PrerequisitesMet(cat, ViewAll(sections, t.writes), x, s) then Go(t, Enrolling(EnrollMine(live)))
      else Fail(t, PREREQUISITE_NOT_MET)
    case EnrollMine(live) =>
      var mine := OthersInTerm(cat, sections, t, s);
      if ClashesWith(cat, mine, s) then Fail(t, TIME_CONFLICT)
      else Go(t, Enrolling(EnrollOverload(live, CreditSum(cat, mine))))
    case EnrollOverload(live, credits) =>
      if OverLimit(cat, x, credits, s) then Fail(t, CREDIT_LIMIT_EXCEEDED) else SeatOrQueue(t, live)
    case _ => t
  }

  function ExecEnrollWrites(sections: map<SectionId, Section>, t: Txn, e: EnrollPc): Txn
    requires t.req.Enroll? && t.req.section in sections
  {
    var s, x, id := t.req.section, t.req.student, t.req.newId;
    var v := Seen(sections, t, s);
    match e
    case EnrollInsert(_) => Insert(t, v, s, id, Row(x, ENROLLED, None), Enrolling(EnrollBump))
    case EnrollBump =>
      var cols := v.cols.(enrolledCount := v.cols.enrolledCount + 1);
      Store(t, s, cols, Enrolling(EnrollAudit(cols)))
    case EnrollAudit(cols) => Do(t, Emit(Created(id, x, s)), Ready(EnrolledAs(id, cols.enrolledCount)))
    case QueueCount(live) =>
      if live.waitlistCap.Some? && |Waiting(v.rows)| >= live.waitlistCap.value then Fail(t, SECTION_FULL)
      else Go(t, Enrolling(QueuePosition))
    case QueuePosition => Go(t, Enrolling(QueueInsert(NextPosition(v.rows))))
    case QueueInsert(p) => Insert(t, v, s, id, Row(x, WAITLISTED, Some(p)), Enrolling(QueueRank(p)))
    case QueueRank(p) => Go(t, Enrolling(QueueAudit(p, Rank(v.rows, p))))
    case QueueAudit(p, rank) => Do(t, Emit(Waitlisted(id, x, s, p)), Ready(WaitlistedAs(id, rank)))
    case _ => t
  }

  predicate EnrollChecking(e: EnrollPc) {
    e.EnrollGate? || e.EnrollActive? || e.EnrollDup? || e.EnrollPrereq? || e.EnrollMine? || e.EnrollOverload?
  }

  function ExecEnroll(cat: Catalog, sections: map<SectionId, Section>, t: Txn, e: EnrollPc, now: nat, hold: bool): Txn
    requires t.req.Enroll?
  {
    if t.req.section !in sections then Fail(t, SECTION_NOT_FOUND)
    else if EnrollChecking(e) then ExecEnrollChecks(cat, sections, t, e, now, hold)
    else ExecEnrollWrites(sections, t, e)
  }

  function ExecDrop(sections: map<SectionId, Section>, t: Txn, d: DropPc): Txn
    requires t.req.Drop?
  {
    var id, s := t.req.id, t.home;
    if d.DropRead? then
      // Unlocked read, only to learn the section.
      var home := HomeOf(sections, id);
      if home.None? then Fail(t, NOT_FOUND) else t.(home := home.value, pc := Dropping(DropLock))
    else if s !in sections then Fail(t, NOT_FOUND) else
      var v := Seen(sections, t, s);
      match d
      case DropReread =>
        if id !in v.rows then Fail(t, NOT_FOUND)
        else if !v.rows[id].Active() then Fail(t, ALREADY_DROPPED)
        else Go(t, Dropping(DropMark(v.rows[id])))
      case DropMark(row) =>
        // Conditional UPDATE: zero rows match unless the status is still the one read.
        if id in v.rows && v.rows[id].status == row.status
        then Do(t, PutRow(s, id, Release(v.rows[id])), Dropping(DropCount(row)))
        else Fail(t, ALREADY_DROPPED)
      case DropCount(row) =>
        if row.status.ENROLLED?
        then Store(t, s, v.cols.(enrolledCount := v.cols.enrolledCount - 1), Dropping(DropAudit(row)))
        else Go(t, Dropping(DropAudit(row)))
      case DropAudit(row) =>
        if row.status.ENROLLED? then Do(t, Emit(Dropped(id, s)), Ready(DroppedRow(id, true)))
        else Do(t, Emit(WaitlistLeft(id, row.position)), Ready(DroppedRow(id, false)))
      case _ => t
  }

  // The unlocked read of the source row, after the ownership guard.
  function ExecSwapRead(sections: map<SectionId, Section>, t: Txn): Txn
    requires t.req.Swap?
  {
    var home := HomeOf(sections, t.req.id);
    if home.None? then Fail(t, NOT_FOUND) else
      var row := sections[home.value].rows[t.req.id];
      if row.student != t.req.student then Fail(t, FORBIDDEN)
      else if !row.Active() then Fail(t, ALREADY_DROPPED)
      else if home.value == t.req.target then Go(t, Ready(SameSection(t.req.id)))
      else t.(home := home.value, pc := Swapping(SwapGate))
  }

  function ExecSwapChecks(cat: Catalog, sections: map<SectionId, Section>, t: Txn, w: SwapPc, now: nat, hold: bool): Txn
    requires t.req.Swap? && t.home in sections && t.req.target in sections
  {
    var id, x, target := t.req.id, t.req.student, t.req.target;
    var sameCourse := cat.course(t.home) == cat.course(target);
    match w
    case SwapGate =>
      var gate := Gate(cat, x, target, now, hold);
      if gate.Some? then Fail(t, gate.value) else Go(t, Swapping(SwapLock1))
    case SwapReread =>
      var v := Seen(sections, t, t.home);
      if id !in v.rows || !v.rows[id].Active() then Fail(t, ALREADY_DROPPED)
      else Go(t, Swapping(SwapTarget(v.rows[id])))
    case SwapTarget(row) =>
      var tv := Seen(sections, t, target);
      if tv.cols.enrolledCount >= tv.cols.capacity then Fail(t, SWAP_TARGET_FULL) else Go(t, Swapping(SwapDup(row)))
    case SwapDup(row) =>
      if !sameCourse && DuplicateCourse(cat, Others(sections, t), target) then Fail(t, DUPLICATE_COURSE)
      else Go(t, Swapping(SwapPrereq(row)))
    case SwapPrereq(row) =>
      if !sameCourse && !PrerequisitesMet(cat, ViewAll(sections, t.writes), x, target)
      then Fail(t, PREREQUISITE_NOT_MET) else Go(t, Swapping(SwapMine(row)))
    case SwapMine(row) =>
      var mine := OthersInTerm(cat, sections, t, target);
      if ClashesWith(cat, mine, target) then Fail(t, TIME_CONFLICT)
      else Go(t, Swapping(SwapOverload(row, CreditSum(cat, mine))))
    case SwapOverload(row, credits) =>
      if OverLimit(cat, x, credits, target) then Fail(t, CREDIT_LIMIT_EXCEEDED) else Go(t, Swapping(SwapMark(row)))
    case _ => t
  }

  function ExecSwapWrites(sections: map<SectionId, Section>, t: Txn, w: SwapPc): Txn
    requires t.req.Swap? && t.home in sections && t.req.target in sections
  {
    var id, x, target, newId := t.req.id, t.req.student, t.req.target, t.req.newId;
    var v := Seen(sections, t, t.home);
    var tv := Seen(sections, t, target);
    match w
    case SwapMark(row) =>
      // Unconditional UPDATE by id.
      if id in v.rows then Do(t, PutRow(t.home, id, Release(v.rows[id])), Swapping(SwapDec(row)))
      else Fail(t, NOT_FOUND)
    case SwapDec(row) =>
      if row.status.ENROLLED?
      then Store(t, t.home, v.cols.(enrolledCount := v.cols.enrolledCount - 1), Swapping(SwapInsert(row)))
      else Go(t, Swapping(SwapInsert(row)))
    case SwapInsert(row) => Insert(t, tv, target, newId, Row(x, ENROLLED, None), Swapping(SwapInc(row)))
    case SwapInc(row) =>
      Store(t, target, tv.cols.(enrolledCount := tv.cols.enrolledCount + 1), Swapping(SwapAudit(row)))
    case SwapAudit(row) =>
      Do(t, Emit(Swapped(id, t.home, row.status, newId, x, target)), Ready(SwappedTo(newId, row.status.ENROLLED?)))
    case _ => t
  }

  predicate SwapWriting(w: SwapPc) { w.SwapMark? || w.SwapDec? || w.SwapInsert? || w.SwapInc? || w.SwapAudit? }

  function ExecSwap(cat: Catalog, sections: map<SectionId, Section>, t: Txn, w: SwapPc, now: nat, hold: bool): Txn
    requires t.req.Swap?
  {
    if w.SwapRead? then ExecSwapRead(sections, t)
    else if t.home !in sections || t.req.target !in sections then Fail(t, SECTION_NOT_FOUND)
    else if SwapWriting(w) then ExecSwapWrites(sections, t, w)
    else ExecSwapChecks(cat, sections, t, w, now, hold)
  }

  function ExecPromote(cat: Catalog, sections: map<SectionId, Section>, t: Txn, p: PromotePc, now: nat): Txn
    requires t.req.Promote?
  {
    var s := t.req.section;
    if s !in sections then Go(t, Ready(NoSection)) else
      var v := Seen(sections, t, s);
      match p
      case PromoteGate(live) =>
        if cat.closes(cat.term(s)) < now then Go(t, Ready(RegistrationOver)) else Go(t, Promoting(PromotePick(live, 0)))
      case PromotePick(live, k) =>
        if live.enrolledCount + k < live.capacity && Waiting(v.rows) != {} then
          var id := First(v.rows, Waiting(v.rows));
          Go(t, Promoting(PromoteMark(live, k, id, v.rows[id].position)))
        else if k > 0 then Go(t, Promoting(PromoteSave(live, k)))
        else Go(t, Ready(PromotedRows(0)))
      case PromoteMark(live, k, id, before) =>
        if id in v.rows then Do(t, PutRow(s, id, Seat(v.rows[id])), Promoting(PromoteNote(live, k, id, before)))
        else Fail(t, NOT_FOUND)
      case PromoteNote(live, k, id, before) =>
        if id in v.rows
        then Do(t, Notify(PromotedNote(v.rows[id].student, id, s)), Promoting(PromoteAudit(live, k, id, before)))
        else Fail(t, NOT_FOUND)
      case PromoteAudit(live, k, id, before) =>
        Do(t, Emit(Promoted(id, s, before)), Promoting(PromotePick(live, k + 1)))
      case PromoteSave(live, k) =>
        // enrolledCount is set to the value counted up in memory.
        Store(t, s, v.cols.(enrolledCount := live.enrolledCount + k), Ready(PromotedRows(k)))
      case _ => t
  }

  function ExecReorder(sections: map<SectionId, Section>, t: Txn, r: ReorderPc): Txn
    requires t.req.Reorder?
  {
    var s, order := t.req.section, t.req.order;
    if s !in sections then Fail(t, SECTION_NOT_FOUND) else
      var v := Seen(sections, t, s);
      match r
      case ReorderRead =>
        var current := Ordered(v.rows);
        var submitted := set id <- order;
        if |(set id <- current)| == |submitted| && (forall id <- current :: id in submitted)
        then Go(t, Reordering(ReorderWrite(current, 0))) else Fail(t, WAITLIST_CHANGED)
      case ReorderWrite(current, i) =>
        if i >= |order| then Go(t, Reordering(ReorderAudit(current)))
        else if order[i] !in v.rows then Fail(t, NOT_FOUND)
        else Do(t, PutRow(s, order[i], v.rows[order[i]].(position := Some(i + 1))),
                Reordering(ReorderWrite(current, i + 1)))
      case ReorderAudit(current) => Do(t, Emit(Reordered(s, current, order)), Ready(ReorderedRows))
      case _ => t
  }

  function Waiters(rows: map<RowId, Row>): seq<Waiter> {
    var o := Ordered(rows);
    OrderedInRows(rows);
    seq(|o|, k requires 0 <= k < |o| => Waiter(o[k], rows[o[k]].student, rows[o[k]].position))
  }

  function ExecExpire(sections: map<SectionId, Section>, t: Txn, x: ExpirePc): Txn
    requires t.req.Expire?
  {
    var s := t.req.section;
    if s !in sections then Go(t, Ready(NoSection)) else
      var v := Seen(sections, t, s);
      match x
      case ExpireRead => Go(t, Expiring(ExpireMark(Waiters(v.rows), 0)))
      case ExpireMark(list, i) =>
        if i >= |list| then Go(t, Ready(ExpiredRows(|list|)))
        else if list[i].id !in v.rows then Fail(t, NOT_FOUND)
        else Do(t, PutRow(s, list[i].id, Release(v.rows[list[i].id])), Expiring(ExpireAudit(list, i)))
      case ExpireAudit(list, i) =>
        if i >= |list| then t else Do(t, Emit(Expired(list[i].id, list[i].before)), Expiring(ExpireNote(list, i)))
      case ExpireNote(list, i) =>
        if i >= |list| then t
        else Do(t, Notify(ExpiredNote(list[i].student, list[i].id, s)), Expiring(ExpireMark(list, i + 1)))
      case _ => t
  }

  function NewCapacity(req: Request, live: Columns): int
    requires req.Edit?
  {
    if req.capacity.Some? then req.capacity.value else live.capacity
  }

  function NewCap(req: Request, live: Columns): Option<nat>
    requires req.Edit?
  {
    if req.waitlistCap.Some? then req.waitlistCap.value else live.waitlistCap
  }

  function ExecEdit(sections: map<SectionId, Section>, t: Txn, u: EditPc): Txn
    requires t.req.Edit?
  {
    var s := t.req.section;
    if s !in sections then Fail(t, SECTION_NOT_FOUND) else
      var v := Seen(sections, t, s);
      match u
      case EditWrite(live) =>
        if NewCapacity(t.req, live) < live.enrolledCount then Fail(t, CAPACITY_BELOW_ENROLLED)
        else Store(t, s, Columns(NewCapacity(t.req, live), v.cols.enrolledCount, NewCap(t.req, live)),
                   Editing(EditAudit(live)))
      case EditAudit(live) =>
        Do(t, Emit(SectionUpdated(s, live, NewCapacity(t.req, live), NewCap(t.req, live))), Editing(EditTally(live)))
      case EditTally(live) => Go(t, Ready(EditedSection(NewCapacity(t.req, live) > live.capacity)))
      case _ => t
  }

  function Exec(cat: Catalog, sections: map<SectionId, Section>, t: Txn, now: nat, hold: bool): Txn {
    match t.pc
    case Enrolling(e) => if t.req.Enroll? then ExecEnroll(cat, sections, t, e, now, hold) else t
    case Dropping(d) => if t.req.Drop? then ExecDrop(sections, t, d) else t
    case Swapping(w) => if t.req.Swap? then ExecSwap(cat, sections, t, w, now, hold) else t
    case Promoting(p) => if t.req.Promote? then ExecPromote(cat, sections, t, p, now) else t
    case Reordering(r) => if t.req.Reorder? then ExecReorder(sections, t, r) else t
    case Expiring(x) => if t.req.Expire? then ExecExpire(sections, t, x) else t
    case Editing(u) => if t.req.Edit? then ExecEdit(sections, t, u) else t
    case _ => t
  }

  // ----------------------------------------------------------------- locks

  function Least(a: SectionId, b: SectionId): SectionId { if a < b then a else b }
  function Greatest(a: SectionId, b: SectionId): SectionId { if a < b then b else a }

  // The section a transaction is about to lock, if its next step is SELECT ... FOR UPDATE.
  function Wants(t: Txn): Option<SectionId> {
    match t.pc
    case Enrolling(EnrollLock) => Some(t.home)
    case Dropping(DropLock) => Some(t.home)
    case Promoting(PromoteLock) => Some(t.home)
    case Reordering(ReorderLock) => Some(t.home)
    case Expiring(ExpireLock) => Some(t.home)
    case Editing(EditLock) => Some(t.home)
    case Swapping(SwapLock1) => if t.req.Swap? then Some(Least(t.home, t.req.target)) else None
    case Swapping(SwapLock2) => if t.req.Swap? then Some(Greatest(t.home, t.req.target)) else None
    case _ => None
  }

  // The lock statement returns the latest committed tuple.
  function AfterLock(pc: Pc, cols: Columns): Pc {
    match pc
    case Enrolling(_) => Enrolling(EnrollActive(cols))
    case Dropping(_) => Dropping(DropReread)
    case Promoting(_) => Promoting(PromoteGate(cols))
    case Reordering(_) => Reordering(ReorderRead)
    case Expiring(_) => Expiring(ExpireRead)
    case Editing(_) => Editing(EditWrite(cols))
    case Swapping(w) => Swapping(if w.SwapLock1? then SwapLock2 else SwapReread)
    case _ => pc
  }

  function Locked(t: Txn, s: SectionId, cols: Columns): Txn {
    t.(held := t.held + {s}, pc := AfterLock(t.pc, cols))
  }

  // The lock statement found no such section.
  function Missing(t: Txn): Txn {
    if t.pc.Promoting? || t.pc.Expiring? then Go(t, Ready(NoSection)) else Fail(t, SECTION_NOT_FOUND)
  }

  function Start(req: Request): Txn {
    match req
    case Enroll(_, s, _) => Txn(req, s, Enrolling(EnrollGate), {}, [])
    case Drop(_) => Txn(req, 0, Dropping(DropRead), {}, [])
    case Swap(_, _, _, _) => Txn(req, 0, Swapping(SwapRead), {}, [])
    case Promote(s) => Txn(req, s, Promoting(PromoteLock), {}, [])
    case Reorder(s, _) => Txn(req, s, Reordering(ReorderLock), {}, [])
    case Expire(s) => Txn(req, s, Expiring(ExpireLock), {}, [])
    case Edit(s, c, w) => Txn(req, s, if c.None? && w.None? then Failed(NO_FIELDS) else Editing(EditLock), {}, [])
  }

  // --------------------------------------------------------------- actions

  datatype Action =
    | Begin(t: TxnId, req: Request)
    | Acquire(t: TxnId)
    | Statement(t: TxnId, now: nat, hold: bool)
    | Commit(t: TxnId)
    | Rollback(t: TxnId)

  function NewIds(req: Request): set<RowId> {
    if req.Enroll? || req.Swap? then {req.newId} else {}
  }

  // A new transaction brings an unused uuid, and distinct ids to reorder.
  ghost predicate CanBegin(st: State, t: TxnId, req: Request) {
    t !in st.txns && NewIds(req) !! st.used && (req.Reorder? ==> Distinct(req.order))
  }

  ghost predicate Enabled(st: State, a: Action) {
    match a
    case Begin(t, req) => CanBegin(st, t, req)
    case Acquire(t) => t in st.txns && Wants(st.txns[t]).Some? && Wants(st.txns[t]).value !in st.locks
    case Statement(t, _, _) =>
      t in st.txns && st.txns[t].Unfinished() && Wants(st.txns[t]).None?
      && !st.txns[t].pc.Ready? && !st.txns[t].pc.Failed?
    case Commit(t) => t in st.txns && st.txns[t].pc.Ready?
    case Rollback(t) => t in st.txns && st.txns[t].Unfinished()
  }

  function Unlock(locks: map<SectionId, TxnId>, t: TxnId): map<SectionId, TxnId> {
    map s | s in locks && locks[s] != t :: locks[s]
  }

  function CommitDb(db: Db, ws: seq<Write>): Db {
    Db(ViewAll(db.sections, ws), db.outbox + EventsOf(ws), db.notes + NotesOf(ws))
  }

  ghost function Next(cat: Catalog, st: State, a: Action): State
    requires Enabled(st, a)
  {
    match a
    case Begin(t, req) => st.(txns := st.txns[t := Start(req)], used := st.used + NewIds(req))
    case Acquire(t) =>
      var txn := st.txns[t];
      var s := Wants(txn).value;
      if s in st.db.sections
      then st.(locks := st.locks[s := t], txns := st.txns[t := Locked(txn, s, st.db.sections[s].cols)])
      else st.(txns := st.txns[t := Missing(txn)])
    case Statement(t, now, hold) => st.(txns := st.txns[t := Exec(cat, st.db.sections, st.txns[t], now, hold)])
    case Commit(t) =>
      var txn := st.txns[t];
      st.(db := CommitDb(st.db, txn.writes), locks := Unlock(st.locks, t),
          txns := st.txns[t := txn.(pc := Committed(txn.pc.out), held := {}, writes := [])])
    case Rollback(t) =>
      var txn := st.txns[t];
      st.(locks := Unlock(st.locks, t),
          txns := st.txns[t := txn.(pc := Aborted(if txn.pc.Failed? then txn.pc.code else NOT_FOUND), held := {},
                                    writes := [])])
  }
}
