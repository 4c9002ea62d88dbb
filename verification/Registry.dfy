// The rows the registration service works on: sections, enrollments, the
// audit outbox and notifications, and the order of a section's waitlist.
//
// The Enrollment table is kept partitioned by its sectionId column, which no
// statement of the service ever updates: a Section carries its own column
// values and the enrollment rows that point at it.
module Registry {

  datatype Option<+T> = None | Some(value: T)

  type SectionId = nat
  type StudentId = nat
  type RowId = nat
  type CourseId = nat
  type TermId = nat

  datatype Status = ENROLLED | WAITLISTED | DROPPED | COMPLETED

  datatype Row = Row(student: StudentId, status: Status, position: Option<nat>) {
    predicate Active() { status.ENROLLED? || status.WAITLISTED? }

    // waitlistPosition as a sort key. A NULL on a WAITLISTED row never occurs
    // (SeatInvariant), so where it would sort does not matter.
    function Pos(): nat { if position.Some? then position.value else 0 }
  }

  datatype Columns = Columns(capacity: int, enrolledCount: int, waitlistCap: Option<nat>)

  datatype Section = Section(cols: Columns, rows: map<RowId, Row>)

  // One audit_outbox row: action, target and the before/after payload.
  datatype Event =
    | Created(id: RowId, student: StudentId, section: SectionId)
    | Waitlisted(id: RowId, student: StudentId, section: SectionId, position: nat)
    | Dropped(id: RowId, section: SectionId)
    | WaitlistLeft(id: RowId, before: Option<nat>)
    | Promoted(id: RowId, section: SectionId, before: Option<nat>)
    | Expired(id: RowId, before: Option<nat>)
    | Swapped(oldId: RowId, oldSection: SectionId, oldStatus: Status,
              newId: RowId, student: StudentId, newSection: SectionId)
    | Reordered(section: SectionId, orderBefore: seq<RowId>, orderAfter: seq<RowId>)
    | SectionUpdated(section: SectionId, colsBefore: Columns, capacity: int, waitlistCap: Option<nat>)

  datatype Note = PromotedNote(student: StudentId, id: RowId, section: SectionId)
                | ExpiredNote(student: StudentId, id: RowId, section: SectionId)

  datatype Db = Db(sections: map<SectionId, Section>, outbox: seq<Event>, notes: seq<Note>)

  function Enrolled(rows: map<RowId, Row>): set<RowId> {
    set id | id in rows && rows[id].status.ENROLLED?
  }

  function Waiting(rows: map<RowId, Row>): set<RowId> {
    set id | id in rows && rows[id].status.WAITLISTED?
  }

  function ActiveOf(rows: map<RowId, Row>, student: StudentId): set<RowId> {
    set id | id in rows && rows[id].student == student && rows[id].Active()
  }

  // CHECK ("enrolledCount" >= 0 AND "enrolledCount" <= "capacity").
  predicate CheckHolds(cols: Columns) {
    0 <= cols.enrolledCount <= cols.capacity
  }

  ghost predicate PositionsOk(rows: map<RowId, Row>) {
    && (forall id <- rows :: rows[id].position.Some? <==> rows[id].status.WAITLISTED?)
    && (forall id <- Waiting(rows) :: rows[id].Pos() > 0)
    && (forall i, j | i in Waiting(rows) && j in Waiting(rows) && i != j :: rows[i].Pos() != rows[j].Pos())
  }

  // enrollment_one_active_per_student_section.
  ghost predicate OneActive(rows: map<RowId, Row>) {
    forall i, j | i in rows && j in rows && rows[i].Active() && rows[j].Active() && rows[i].student == rows[j].student
      :: i == j
  }

  // What every committed section satisfies.
  ghost predicate SeatInvariant(sec: Section) {
    && sec.cols.enrolledCount == |Enrolled(sec.rows)|
    && CheckHolds(sec.cols)
    && PositionsOk(sec.rows)
    && OneActive(sec.rows)
  }

  // ---------------------------------------------------------------- order

  predicate Before(rows: map<RowId, Row>, i: RowId, j: RowId)
    requires i in rows && j in rows
  {
    rows[i].Pos() < rows[j].Pos() || (rows[i].Pos() == rows[j].Pos() && i <= j)
  }

  ghost predicate IsFirst(rows: map<RowId, Row>, w: set<RowId>, id: RowId)
    requires w <= rows.Keys
  {
    id in w && forall j <- w :: Before(rows, id, j)
  }

  lemma FirstExists(rows: map<RowId, Row>, w: set<RowId>)
    requires w != {} && w <= rows.Keys
    ensures exists i :: IsFirst(rows, w, i)
    decreases w
  {
    var x :| x in w;
    if w == {x} {
      assert IsFirst(rows, w, x);
    } else {
      var v := w - {x};
      FirstExists(rows, v);
      var y :| IsFirst(rows, v, y);
      var best := if Before(rows, x, y) then x else y;
      forall j | j in w
        ensures Before(rows, best, j)
      {
        assert j == x || (j in v && Before(rows, y, j));
      }
      assert IsFirst(rows, w, best);
    }
  }

  // ORDER BY "waitlistPosition" ASC LIMIT 1.
  function First(rows: map<RowId, Row>, w: set<RowId>): (id: RowId)
    requires w != {} && w <= rows.Keys
    ensures IsFirst(rows, w, id)
  {
    FirstExists(rows, w);
    var id :| id in w && forall j | j in w :: Before(rows, id, j);
    id
  }

  function OrderOf(rows: map<RowId, Row>, w: set<RowId>): seq<RowId>
    requires w <= rows.Keys
    decreases w
  {
    if w == {} then [] else
      var id := First(rows, w);
      [id] + OrderOf(rows, w - {id})
  }

  // SELECT id ... WHERE status = 'WAITLISTED' ORDER BY "waitlistPosition" ASC.
  function Ordered(rows: map<RowId, Row>): seq<RowId> {
    OrderOf(rows, Waiting(rows))
  }

  predicate IsLeast(s: set<nat>, x: nat) { x in s && forall y | y in s :: x <= y }

  lemma LeastExists(s: set<nat>)
    requires s != {}
    ensures exists x :: IsLeast(s, x)
    decreases s
  {
    var x :| x in s;
    if s == {x} {
      assert IsLeast(s, x);
    } else {
      var rest := s - {x};
      LeastExists(rest);
      var m :| IsLeast(rest, m);
      var best := if m < x then m else x;
      forall y | y in s
        ensures best <= y
      {
        assert y == x || y in rest;
      }
      assert IsLeast(s, best);
    }
  }

  function LeastOf(s: set<nat>): (x: nat)
    requires s != {}
    ensures x in s && forall y <- s :: x <= y
  {
    LeastExists(s);
    var x :| IsLeast(s, x);
    x
  }

  ghost predicate Distinct<T>(s: seq<T>) {
    forall i, j | 0 <= i < j < |s| :: s[i] != s[j]
  }

  ghost function Elems<T>(s: seq<T>): set<T> { set x | x in s }

  lemma DistinctCard<T>(s: seq<T>)
    requires Distinct(s)
    ensures |Elems(s)| == |s|
  {
    if s != [] {
      var t := s[..|s| - 1];
      assert s == t + [s[|s| - 1]];
      DistinctCard(t);
      assert Elems(s) == Elems(t) + {s[|s| - 1]};
    }
  }

  lemma SubsetCard<T>(a: set<T>, b: set<T>)
    requires a <= b
    ensures |a| <= |b|
  {
    assert |b - a| == |b| - |a|;
  }

  lemma {:induction false} OrderOfSorted(rows: map<RowId, Row>, w: set<RowId>)
    requires w <= rows.Keys
    ensures var o := OrderOf(rows, w);
            Distinct(o) && Elems(o) == w && |o| == |w|
            && forall i, j | 0 <= i < j < |o| :: Before(rows, o[i], o[j])
    decreases w
  {
    if w != {} {
      var id := First(rows, w);
      var rest := w - {id};
      OrderOfSorted(rows, rest);
      PrependSorted(rows, id, OrderOf(rows, rest), rest);
      assert w == rest + {id};
    }
  }

  // Putting a first row before an ordered list of the others.
  lemma PrependSorted(rows: map<RowId, Row>, id: RowId, t: seq<RowId>, rest: set<RowId>)
    requires id in rows && rest <= rows.Keys && id !in rest && forall j <- rest :: Before(rows, id, j)
    requires Distinct(t) && Elems(t) == rest && |t| == |rest| && forall i, j | 0 <= i < j < |t| ::
             Before(rows, t[i], t[j])
    ensures var o, w := [id] + t, rest + {id};
            Distinct(o) && Elems(o) == w && |o| == |w| && (forall i | 0 <= i < |o| :: o[i] in rows)
            && forall i, j | 0 <= i < j < |o| :: Before(rows, o[i], o[j])
  {
    var o := [id] + t;
    ElemsPrepend(id, t);
    hide Before, Elems;
    forall i, j | 0 <= i < j < |o|
      ensures o[i] != o[j] && o[i] in rows && o[j] in rows && Before(rows, o[i], o[j])
    {
      assert o[j] == t[j - 1] && t[j - 1] in rest;
      if i > 0 { assert o[i] == t[i - 1] && t[i - 1] in rest; }
    }
    hide Distinct;
    forall i | 0 <= i < |o|
      ensures o[i] in rows
    {
      if i > 0 { assert o[i] == t[i - 1] && t[i - 1] in rest; }
    }
  }

  lemma ElemsPrepend(id: RowId, t: seq<RowId>)
    ensures Elems([id] + t) == Elems(t) + {id} && forall k | 0 <= k < |t| :: t[k] in Elems(t)
  {
    assert forall x :: x in [id] + t <==> x == id || x in t;
  }

  // The order depends on the waiting rows only.
  lemma {:induction false} OrderOfFrame(rows: map<RowId, Row>, rows': map<RowId, Row>, w: set<RowId>)
    requires w <= rows.Keys && w <= rows'.Keys
    requires forall id <- w :: rows[id].Pos() == rows'[id].Pos()
    ensures OrderOf(rows, w) == OrderOf(rows', w)
    decreases w
  {
    if w != {} {
      var a, b := First(rows, w), First(rows', w);
      assert Before(rows, a, b) && Before(rows', b, a);
      OrderOfFrame(rows, rows', w - {a});
    }
  }
}
