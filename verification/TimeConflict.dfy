// Meeting patterns and the overlap test, as the API computes them
// (time-conflict.ts) and as the schedule grid reads the same text
// (schedule-grid.tsx folds hours before 8 into the afternoon).
module TimeConflict {

  // A pattern after the text has been split: a malformed one has no slots.
  datatype Clock = Clock(h: nat, m: nat) | NotANumber
  datatype Pattern = Malformed | Pattern(days: string, start: Clock, end: Clock)
  datatype Slot = Slot(day: nat, startMin: nat, endMin: nat)

  const SERVER_DAYS: map<char, nat> :=
    map['M' := 1, 'T' := 2, 'W' := 3, 'R' := 4, 'F' := 5, 'S' := 6, 'U' := 7]
  const GRID_DAYS: map<char, nat> := map['M' := 1, 'T' := 2, 'W' := 3, 'R' := 4, 'F' := 5]

  function Minutes(c: Clock): nat
    requires c.Clock?
  {
    c.h * 60 + c.m
  }

  // The grid adds 12 to an hour below 8.
  function FoldedMinutes(c: Clock): nat
    requires c.Clock?
  {
    (if c.h < 8 then c.h + 12 else c.h) * 60 + c.m
  }

  predicate Parses(p: Pattern) { p.Pattern? && p.start.Clock? && p.end.Clock? }

  // The slots of a pattern: one per known day code, in the order written.
  function SlotsOf(codes: map<char, nat>, days: string, startMin: nat, endMin: nat): seq<Slot> {
    if days == "" then [] else
      (if days[0] in codes then [Slot(codes[days[0]], startMin, endMin)] else [])
      + SlotsOf(codes, days[1..], startMin, endMin)
  }

  function ServerSlots(p: Pattern): seq<Slot> {
    if Parses(p) then SlotsOf(SERVER_DAYS, p.days, Minutes(p.start), Minutes(p.end)) else []
  }

  function GridSlots(p: Pattern): seq<Slot> {
    if Parses(p) then SlotsOf(GRID_DAYS, p.days, FoldedMinutes(p.start), FoldedMinutes(p.end)) else []
  }

  predicate Overlaps(a: Slot, b: Slot) {
    a.day == b.day && a.startMin < b.endMin && b.startMin < a.endMin
  }

  predicate AnyOverlap(a: seq<Slot>, b: seq<Slot>) {
    exists x, y | x in a && y in b :: Overlaps(x, y)
  }

  predicate Conflict(a: Pattern, b: Pattern) { AnyOverlap(ServerSlots(a), ServerSlots(b)) }

  predicate GridConflict(a: Pattern, b: Pattern) { AnyOverlap(GridSlots(a), GridSlots(b)) }

  lemma NextDay(codes: map<char, nat>, days: string, k: nat, startMin: nat, endMin: nat, slots: seq<Slot>)
    requires k < |days|
    ensures slots + SlotsOf(codes, days[k..], startMin, endMin)
         == (if days[k] in codes then slots + [Slot(codes[days[k]], startMin, endMin)] else slots)
            + SlotsOf(codes, days[k + 1..], startMin, endMin)
  {
    assert days[k..][1..] == days[k + 1..];
  }

  // parseMeetingPattern: pushes one slot per known day code.
  method ParseMeetingPattern(p: Pattern) returns (slots: seq<Slot>)
    ensures slots == ServerSlots(p)
  {
    if !Parses(p) { return []; }
    slots := PushSlots(SERVER_DAYS, p.days, Minutes(p.start), Minutes(p.end));
  }

  method PushSlots(codes: map<char, nat>, days: string, startMin: nat, endMin: nat) returns (slots: seq<Slot>)
    ensures slots == SlotsOf(codes, days, startMin, endMin)
  {
    slots := [];
    var k := 0;
    assert days[|days|..] == "" && SlotsOf(codes, "", startMin, endMin) == [];
    hide SlotsOf;
    while k < |days|
      invariant 0 <= k <= |days|
      invariant slots + SlotsOf(codes, days[k..], startMin, endMin) == SlotsOf(codes, days, startMin, endMin)
    {
      NextDay(codes, days, k, startMin, endMin, slots);
      if days[k] in codes {
        slots := slots + [Slot(codes[days[k]], startMin, endMin)];
      }
      k := k + 1;
    }
  }

  // hasTimeConflict: nested scan with an early return.
  method HasTimeConflict(a: Pattern, b: Pattern) returns (conflict: bool)
    ensures conflict <==> exists x, y | x in ServerSlots(a) && y in ServerSlots(b) :: Overlaps(x, y)
    ensures conflict <==>
              && Parses(a) && Parses(b) && ShareALetter({'M', 'T', 'W', 'R', 'F', 'S', 'U'}, a.days, b.days)
              && a.start.h * 60 + a.start.m < b.end.h * 60 + b.end.m
              && b.start.h * 60 + b.start.m < a.end.h * 60 + a.end.m
  {
    ConflictInTheText(a, b);
    var slotsA := ParseMeetingPattern(a);
    var slotsB := ParseMeetingPattern(b);
    for i := 0 to |slotsA|
      invariant forall k, y | 0 <= k < i && y in slotsB :: !Overlaps(slotsA[k], y)
    {
      for j := 0 to |slotsB|
        invariant forall k | 0 <= k < j :: !Overlaps(slotsA[i], slotsB[k])
      {
        if Overlaps(slotsA[i], slotsB[j]) {
          return true;
        }
      }
    }
    return false;
  }

  // A slot holds its half-open interval of minutes.
  predicate Holds(x: Slot, minute: nat) { x.startMin <= minute < x.endMin }

  ghost predicate Covers(slots: seq<Slot>, day: nat, minute: nat) {
    exists x | x in slots :: x.day == day && Holds(x, minute)
  }

  // ------------------------------------------------------------ properties

  ghost function DaySet(codes: map<char, nat>, days: string): set<nat> {
    set k | 0 <= k < |days| && days[k] in codes :: codes[days[k]]
  }

  // The parser yields exactly one interval, on exactly the days written.
  lemma {:induction false} SlotsExact(codes: map<char, nat>, days: string, startMin: nat, endMin: nat)
    ensures forall x :: x in SlotsOf(codes, days, startMin, endMin)
                        <==> x == Slot(x.day, startMin, endMin) && x.day in DaySet(codes, days)
  {
    if days != "" {
      SlotsExact(codes, days[1..], startMin, endMin);
      var here := if days[0] in codes then {codes[days[0]]} else {};
      assert DaySet(codes, days) == here + DaySet(codes, days[1..]) by {
        assert forall k | 1 <= k < |days| :: days[k] == days[1..][k - 1];
        assert forall k | 0 <= k < |days| - 1 :: days[k + 1] == days[1..][k];
      }
    }
  }

  // The day letters each side knows.
  const SERVER_LETTERS := {'M', 'T', 'W', 'R', 'F', 'S', 'U'}
  const GRID_LETTERS := {'M', 'T', 'W', 'R', 'F'}

  // Every letter is known, nothing else is, and no two stand for one day; on
  // Monday to Friday server and grid agree.
  lemma LettersAreDays()
    ensures forall c :: c in SERVER_DAYS <==> c in SERVER_LETTERS
    ensures forall c :: c in GRID_DAYS <==> c in GRID_LETTERS
    ensures forall c, d | c in SERVER_DAYS && d in SERVER_DAYS && c != d :: SERVER_DAYS[c] != SERVER_DAYS[d]
    ensures forall c, d | c in GRID_DAYS && d in GRID_DAYS && c != d :: GRID_DAYS[c] != GRID_DAYS[d]
    ensures forall c <- GRID_DAYS :: c in SERVER_DAYS && GRID_DAYS[c] == SERVER_DAYS[c]
  {
  }

  // A letter of the alphabet written in both.
  ghost predicate ShareALetter(letters: set<char>, a: string, b: string) {
    exists c :: c in letters && c in a && c in b
  }

  lemma DaysAreLetters(codes: map<char, nat>, letters: set<char>, a: string, b: string)
    requires forall c :: c in codes <==> c in letters
    requires forall c, d | c in codes && d in codes && c != d :: codes[c] != codes[d]
    ensures DaySet(codes, a) * DaySet(codes, b) != {} <==> ShareALetter(letters, a, b)
  {
    if day :| day in DaySet(codes, a) * DaySet(codes, b) {
      var i :| 0 <= i < |a| && a[i] in codes && codes[a[i]] == day;
      var j :| 0 <= j < |b| && b[j] in codes && codes[b[j]] == day;
      assert a[i] == b[j] && a[i] in letters && a[i] in a && b[j] in b;
    }
    if c :| c in letters && c in a && c in b {
      assert codes[c] in DaySet(codes, a) * DaySet(codes, b);
    }
  }

  lemma OverlapByEnds(codes: map<char, nat>, d1: string, s1: nat, e1: nat, d2: string, s2: nat, e2: nat)
    ensures AnyOverlap(SlotsOf(codes, d1, s1, e1), SlotsOf(codes, d2, s2, e2))
            <==> DaySet(codes, d1) * DaySet(codes, d2) != {} && s1 < e2 && s2 < e1
  {
    var a, b := SlotsOf(codes, d1, s1, e1), SlotsOf(codes, d2, s2, e2);
    var shared := DaySet(codes, d1) * DaySet(codes, d2);
    SlotsExact(codes, d1, s1, e1);
    SlotsExact(codes, d2, s2, e2);
    if shared != {} && s1 < e2 && s2 < e1 {
      var d :| d in shared;
      assert Slot(d, s1, e1) in a && Slot(d, s2, e2) in b;
      assert Overlaps(Slot(d, s1, e1), Slot(d, s2, e2));
    }
    if AnyOverlap(a, b) {
      var x, y :| x in a && y in b && Overlaps(x, y);
      assert x.day in shared;
    }
  }

  // hasTimeConflict in the words of the two patterns, whatever they say: both
  // parse, some day letter stands in both, and each starts before the other ends.
  lemma ConflictInTheText(a: Pattern, b: Pattern)
    ensures Conflict(a, b) <==>
              && Parses(a) && Parses(b) && ShareALetter({'M', 'T', 'W', 'R', 'F', 'S', 'U'}, a.days, b.days)
              && a.start.h * 60 + a.start.m < b.end.h * 60 + b.end.m
              && b.start.h * 60 + b.start.m < a.end.h * 60 + a.end.m
  {
    if Parses(a) && Parses(b) {
      LettersAreDays();
      DaysAreLetters(SERVER_DAYS, SERVER_LETTERS, a.days, b.days);
      OverlapByEnds(SERVER_DAYS, a.days, Minutes(a.start), Minutes(a.end), b.days, Minutes(b.start), Minutes(b.end));
    }
  }

  // An hour as the grid reads it: one before 8 is in the afternoon.
  function AfternoonIfEarly(h: nat): nat { if h < 8 then h + 12 else h }

  // The grid's reading, likewise.
  lemma GridConflictInTheText(a: Pattern, b: Pattern)
    ensures GridConflict(a, b) <==>
              && Parses(a) && Parses(b) && ShareALetter({'M', 'T', 'W', 'R', 'F'}, a.days, b.days)
              && AfternoonIfEarly(a.start.h) * 60 + a.start.m < AfternoonIfEarly(b.end.h) * 60 + b.end.m
              && AfternoonIfEarly(b.start.h) * 60 + b.start.m < AfternoonIfEarly(a.end.h) * 60 + a.end.m
  {
    if Parses(a) && Parses(b) {
      LettersAreDays();
      DaysAreLetters(GRID_DAYS, GRID_LETTERS, a.days, b.days);
      OverlapByEnds(GRID_DAYS, a.days, FoldedMinutes(a.start), FoldedMinutes(a.end),
                    b.days, FoldedMinutes(b.start), FoldedMinutes(b.end));
    }
  }

  lemma OverlapSymmetric(a: seq<Slot>, b: seq<Slot>)
    ensures AnyOverlap(a, b) == AnyOverlap(b, a)
  {
    assert forall x, y :: Overlaps(x, y) == Overlaps(y, x);
  }

  // hasTimeConflict is symmetric.
  lemma ConflictSymmetric(a: Pattern, b: Pattern)
    ensures Conflict(a, b) == Conflict(b, a)
  {
    OverlapSymmetric(ServerSlots(a), ServerSlots(b));
  }

  ghost predicate PositiveLength(s: seq<Slot>) { forall x <- s :: x.startMin < x.endMin }

  ghost predicate ShareAMinute(a: seq<Slot>, b: seq<Slot>) {
    exists day: nat, minute: nat :: Covers(a, day, minute) && Covers(b, day, minute)
  }

  // For positive-length slots, "conflict" means a minute held by both.
  lemma OverlapIsASharedMinute(a: seq<Slot>, b: seq<Slot>)
    requires PositiveLength(a) && PositiveLength(b)
    ensures AnyOverlap(a, b) <==> ShareAMinute(a, b)
  {
    if AnyOverlap(a, b) {
      var x, y :| x in a && y in b && Overlaps(x, y);
      var minute := if x.startMin < y.startMin then y.startMin else x.startMin;
      assert Covers(a, x.day, minute) && Covers(b, x.day, minute);
    }
    if ShareAMinute(a, b) {
      var day: nat, minute: nat :| Covers(a, day, minute) && Covers(b, day, minute);
      var x :| x in a && x.day == day && x.startMin <= minute < x.endMin;
      var y :| y in b && y.day == day && y.startMin <= minute < y.endMin;
      assert Overlaps(x, y);
    }
  }

  ghost predicate Positive(p: Pattern) { Parses(p) ==> Minutes(p.start) < Minutes(p.end) }

  lemma ServerSlotsExact(p: Pattern)
    requires Parses(p)
    ensures forall x :: x in ServerSlots(p)
                        <==> x == Slot(x.day, Minutes(p.start), Minutes(p.end)) && x.day in DaySet(SERVER_DAYS, p.days)
  {
    SlotsExact(SERVER_DAYS, p.days, Minutes(p.start), Minutes(p.end));
  }

  // hasTimeConflict says exactly that some day and minute lies in both.
  lemma ConflictIsASharedMinute(a: Pattern, b: Pattern)
    requires Positive(a) && Positive(b)
    ensures Conflict(a, b) <==> ShareAMinute(ServerSlots(a), ServerSlots(b))
  {
    if Parses(a) { ServerSlotsExact(a); }
    if Parses(b) { ServerSlotsExact(b); }
    OverlapIsASharedMinute(ServerSlots(a), ServerSlots(b));
  }

  // -------------------------------------------- the two readings of a pattern

  // Monday to Friday, hours 1-12, minutes below 60, at least one day.
  ghost predicate Weekday(p: Pattern) {
    && Parses(p) && p.days != ""
    && (forall c <- p.days :: c in GRID_DAYS)
    && 1 <= p.start.h <= 12 && 1 <= p.end.h <= 12
    && p.start.m < 60 && p.end.m < 60
  }

  // Both ends before 8:00, or both at or after it.
  ghost predicate SameSide(p: Pattern)
    requires Parses(p)
  {
    p.start.h < 8 <==> p.end.h < 8
  }

  // One minute long, across the point where the fold jumps.
  ghost predicate OneMinuteAcross(p: Pattern)
    requires Parses(p)
  {
    || (p.start == Clock(12, 59) && p.end == Clock(1, 0))
    || (p.start == Clock(7, 59) && p.end == Clock(8, 0))
  }

  // Both conflict tests in terms of the ends alone.
  lemma ConflictByEnds(a: Pattern, b: Pattern)
    requires Weekday(a) && Weekday(b)
    ensures var shared := DaySet(SERVER_DAYS, a.days) * DaySet(SERVER_DAYS, b.days) != {};
            && (Conflict(a, b) <==>
                  shared && Minutes(a.start) < Minutes(b.end) && Minutes(b.start) < Minutes(a.end))
            && (GridConflict(a, b) <==>
                  shared && FoldedMinutes(a.start) < FoldedMinutes(b.end)
                  && FoldedMinutes(b.start) < FoldedMinutes(a.end))
  {
    OverlapByEnds(SERVER_DAYS, a.days, Minutes(a.start), Minutes(a.end), b.days, Minutes(b.start), Minutes(b.end));
    OverlapByEnds(GRID_DAYS, a.days, FoldedMinutes(a.start), FoldedMinutes(a.end),
                  b.days, FoldedMinutes(b.start), FoldedMinutes(b.end));
    SameDays(a);
    SameDays(b);
  }

  lemma SameDays(p: Pattern)
    requires Weekday(p)
    ensures DaySet(GRID_DAYS, p.days) == DaySet(SERVER_DAYS, p.days) != {}
  {
    assert forall k | 0 <= k < |p.days| :: p.days[k] in p.days;
    assert GRID_DAYS[p.days[0]] in DaySet(GRID_DAYS, p.days);
  }

  ghost predicate AgreesWithGrid(p: Pattern) {
    forall q: Pattern | Weekday(q) && SameSide(q) :: Conflict(p, q) == GridConflict(p, q)
  }

  // A pattern that straddles 8:00 (11:30-1:00, say) is read differently by
  // the server and by the grid: some ordinary pattern tells them apart.
  lemma StraddlingDisagrees(p: Pattern) returns (q: Pattern)
    requires Weekday(p) && !SameSide(p) && !OneMinuteAcross(p)
    ensures Weekday(q) && SameSide(q) && Conflict(p, q) != GridConflict(p, q)
  {
    var start, end :=
      if p.start.h >= 8 then
        (if p.start == Clock(12, 59) then Clock(1, 0) else Clock(12, 0))
      else if p.start == Clock(7, 59) then Clock(8, 0) else Clock(1, 0),
      if p.start.h >= 8 then
        (if p.start == Clock(12, 59) then Clock(7, 59) else Clock(12, 59))
      else if p.start == Clock(7, 59) then Clock(12, 59) else Clock(7, 59);
    q := Pattern(p.days, start, end);
    ConflictByEnds(p, q);
    SameDays(p);
    var d :| d in DaySet(SERVER_DAYS, p.days);
    assert d in DaySet(SERVER_DAYS, p.days) * DaySet(SERVER_DAYS, q.days);
  }

  // The server's raw comparison and the grid's PM-folded one give the same
  // answer against every pattern lying on one side of 8:00 exactly for the
  // patterns that lie on one side themselves (or last the one minute across).
  lemma ServerAgreesWithGridIff(p: Pattern)
    requires Weekday(p)
    ensures AgreesWithGrid(p) <==> SameSide(p) || OneMinuteAcross(p)
  {
    if SameSide(p) || OneMinuteAcross(p) {
      forall q: Pattern | Weekday(q) && SameSide(q)
        ensures Conflict(p, q) == GridConflict(p, q)
      {
        ConflictByEnds(p, q);
      }
    } else {
      var q := StraddlingDisagrees(p);
      assert Weekday(q) && SameSide(q) && Conflict(p, q) != GridConflict(p, q);
    }
  }
}
