// The schedule grid's layout of one day: grouping of slots that run into one
// another and first-fit column assignment, in place on the slot objects. The
// columns of a group are as few as any layout could use, whatever the text of
// the patterns says, slots that end before they start included.
module Grid {
  import Registry
  import opened TimeConflict

  // The earlier slot is not over when the later one starts.
  predicate Clash(earlier: Slot, later: Slot) { later.startMin < earlier.endMin }

  // The slots before k that are not over when it starts.
  ghost function Running(slots: seq<Slot>, k: nat): set<nat>
    requires k < |slots|
  {
    set i | 0 <= i < k && Clash(slots[i], slots[k])
  }

  ghost function Load(slots: seq<Slot>, k: nat): nat
    requires k < |slots|
  {
    |Running(slots, k)| + 1
  }

  ghost predicate MaxLoad(slots: seq<Slot>, n: nat) {
    (forall k | 0 <= k < |slots| :: Load(slots, k) <= n) && exists k :: 0 <= k < |slots| && Load(slots, k) == n
  }

  // A layout in n columns without two clashing slots in one column.
  ghost predicate Proper(slots: seq<Slot>, columns: seq<nat>, n: nat) {
    && |columns| == |slots| && (forall c <- columns :: c < n)
    && forall i, j | 0 <= i < j < |slots| && Clash(slots[i], slots[j]) :: columns[i] != columns[j]
  }

  ghost predicate SortedByStart(slots: seq<Slot>) {
    forall i, j | 0 <= i < j < |slots| :: slots[i].startMin <= slots[j].startMin
  }

  // ------------------------------------------------------------- pigeonhole

  lemma {:induction false} Pigeonhole(s: set<nat>, columns: seq<nat>, n: nat)
    requires forall i <- s :: i < |columns| && columns[i] < n
    requires forall i, j | i in s && j in s && i != j :: columns[i] != columns[j]
    ensures |s| <= n
    decreases n
  {
    if n == 0 {
      if i :| i in s { assert false; }
    } else {
      var top := set i | i in s && columns[i] == n - 1;
      assert |top| <= 1 by {
        if i :| i in top { assert top == {i}; }
      }
      assert s == (s - top) + top;
      Pigeonhole(s - top, columns, n - 1);
    }
  }

  // No layout uses fewer columns than a slot has running beside it.
  lemma ColumnsNeeded(slots: seq<Slot>, columns: seq<nat>, n: nat, k: nat)
    requires Proper(slots, columns, n) && SortedByStart(slots) && k < |slots|
    ensures Load(slots, k) <= n
  {
    var s := Running(slots, k) + {k};
    assert forall i | 0 <= i < |columns| :: columns[i] in columns;
    forall i, j | i in s && j in s && i != j
      ensures columns[i] != columns[j]
    {
      assert if i < j then Clash(slots[i], slots[j]) else Clash(slots[j], slots[i]);
    }
    hide Proper;
    Pigeonhole(s, columns, n);
  }

  // A layout as wide as the largest load is optimal.
  lemma OptimalColumns(slots: seq<Slot>, columns: seq<nat>, n: nat, other: seq<nat>, m: nat)
    requires Proper(slots, columns, n) && SortedByStart(slots) && MaxLoad(slots, n) && Proper(slots, other, m)
    ensures n <= m
  {
    var k :| 0 <= k < |slots| && Load(slots, k) == n;
    ColumnsNeeded(slots, other, m, k);
  }

  // --------------------------------------------------- loads and shared minutes

  ghost function At(slots: seq<Slot>, minute: nat): set<nat> {
    set i | 0 <= i < |slots| && Holds(slots[i], minute)
  }

  // How many slots share a minute.
  ghost function Depth(slots: seq<Slot>, minute: nat): nat { |At(slots, minute)| }

  ghost predicate MaxDepth(slots: seq<Slot>, n: nat) {
    (forall minute: nat :: Depth(slots, minute) <= n) && exists minute: nat :: Depth(slots, minute) == n
  }

  // The slots sharing a minute were all running when the last of them started.
  lemma DepthIsLoaded(slots: seq<Slot>, minute: nat, k: nat)
    requires SortedByStart(slots) && k in At(slots, minute) && forall i <- At(slots, minute) :: i <= k
    ensures Depth(slots, minute) <= Load(slots, k)
  {
    forall i | i in At(slots, minute) && i != k
      ensures i in Running(slots, k)
    {
      assert i < k && slots[k].startMin <= minute < slots[i].endMin;
    }
    assert At(slots, minute) <= Running(slots, k) + {k};
    Registry.SubsetCard(At(slots, minute), Running(slots, k) + {k});
  }

  lemma {:induction false} LastOf(s: set<nat>) returns (k: nat)
    requires s != {}
    ensures k in s && forall i <- s :: i <= k
    decreases s
  {
    var x :| x in s;
    k := x;
    if s != {x} {
      var rest := LastOf(s - {x});
      k := if x < rest then rest else x;
      assert forall i <- s :: i == x || i in s - {x};
    }
  }

  // What runs when a slot of positive length starts shares its first minute.
  lemma LoadIsDepth(slots: seq<Slot>, k: nat)
    requires SortedByStart(slots) && k < |slots| && slots[k].startMin < slots[k].endMin
    ensures Load(slots, k) <= Depth(slots, slots[k].startMin)
  {
    var minute := slots[k].startMin;
    assert Running(slots, k) + {k} <= At(slots, minute);
    Registry.SubsetCard(Running(slots, k) + {k}, At(slots, minute));
  }

  // The largest load is the largest overlap in a minute exactly if some slot of
  // positive length carries it.
  lemma WidthIsDepthIff(slots: seq<Slot>, n: nat)
    requires SortedByStart(slots) && MaxLoad(slots, n)
    ensures MaxDepth(slots, n)
            <==> exists k :: 0 <= k < |slots| && slots[k].startMin < slots[k].endMin && Load(slots, k) == n
  {
    hide Load, Depth;
    forall minute: nat
      ensures Depth(slots, minute) <= n
    {
      DepthUnderLoad(slots, n, minute);
    }
    if k :| 0 <= k < |slots| && slots[k].startMin < slots[k].endMin && Load(slots, k) == n {
      LoadIsDepth(slots, k);
      assert Depth(slots, slots[k].startMin) == n;
    }
    if MaxDepth(slots, n) {
      LoadPositive(slots, n);
      var minute: nat :| Depth(slots, minute) == n;
      if At(slots, minute) == {} { NoDepth(slots, minute); }
      var k := LastOf(At(slots, minute));
      DepthIsLoaded(slots, minute, k);
      assert 0 <= k < |slots| && slots[k].startMin < slots[k].endMin && Load(slots, k) == n;
    }
  }

  lemma LoadPositive(slots: seq<Slot>, n: nat)
    requires MaxLoad(slots, n)
    ensures n > 0
  {
  }

  lemma NoDepth(slots: seq<Slot>, minute: nat)
    requires At(slots, minute) == {}
    ensures Depth(slots, minute) == 0
  {
  }

  lemma DepthUnderLoad(slots: seq<Slot>, n: nat, minute: nat)
    requires SortedByStart(slots) && MaxLoad(slots, n)
    ensures Depth(slots, minute) <= n
  {
    hide Load;
    if At(slots, minute) != {} {
      var k := LastOf(At(slots, minute));
      DepthIsLoaded(slots, minute, k);
    }
  }

  // --------------------------------------------------------------- first fit

  // Columns opened so far over `slots`: who sits where, and the last slot of
  // each column, started when all before it in the column were over.
  ghost predicate Columned(slots: seq<Slot>, columns: seq<nat>, last: seq<nat>) {
    && |columns| == |slots|
    && (forall i | 0 <= i < |columns| :: columns[i] < |last|)
    && (forall c | 0 <= c < |last| :: last[c] < |slots| && columns[last[c]] == c)
    && (forall i | 0 <= i < |columns| ::
          i == last[columns[i]] || slots[i].endMin <= slots[last[columns[i]]].startMin)
    && (forall i, j | 0 <= i < j < |slots| && Clash(slots[i], slots[j]) :: columns[i] != columns[j])
    && (last != [] ==> exists k :: 0 <= k < |slots| && Load(slots, k) == |last|)
  }

  // Some slot of column c before the k-th is not over when it starts.
  ghost predicate Occupied(slots: seq<Slot>, columns: seq<nat>, k: nat, c: nat)
    requires k < |slots| && k <= |columns|
  {
    exists i :: 0 <= i < k && columns[i] == c && Clash(slots[i], slots[k])
  }

  // Each slot took the leftmost column free for it.
  ghost predicate FirstFit(slots: seq<Slot>, columns: seq<nat>) {
    |columns| == |slots| && forall k, c: nat | 0 <= k < |slots| && c < columns[k] :: Occupied(slots, columns, k, c)
  }

  lemma FitsNext(slots: seq<Slot>, columns: seq<nat>, last: seq<nat>, s: Slot, c: nat)
    requires FirstFit(slots, columns) && Columned(slots, columns, last) && c <= |last|
    requires forall d | 0 <= d < c :: slots[last[d]].endMin > s.startMin
    ensures FirstFit(slots + [s], columns + [c])
  {
    var slots', columns' := slots + [s], columns + [c];
    forall k, d: nat | 0 <= k < |slots'| && d < columns'[k]
      ensures Occupied(slots', columns', k, d)
    {
      if k < |slots| {
        assert Occupied(slots, columns, k, d);
        var i :| 0 <= i < k && columns[i] == d && Clash(slots[i], slots[k]);
        assert columns'[i] == d && Clash(slots'[i], slots'[k]);
      } else {
        assert columns'[last[d]] == d && Clash(slots'[last[d]], slots'[k]);
      }
    }
  }

  lemma LoadStays(slots: seq<Slot>, s: Slot, k: nat)
    requires k < |slots|
    ensures Load(slots + [s], k) == Load(slots, k)
  {
    assert Running(slots + [s], k) == Running(slots, k);
  }

  // Placing the next slot in a column whose last slot is over.
  lemma PlaceInColumn(slots: seq<Slot>, columns: seq<nat>, last: seq<nat>, s: Slot, c: nat)
    requires Columned(slots, columns, last) && c < |last| && slots[last[c]].endMin <= s.startMin
             && SortedByStart(slots + [s])
    ensures Columned(slots + [s], columns + [c], last[c := |slots|])
  {
    var slots', columns', last' := slots + [s], columns + [c], last[c := |slots|];
    var k :| 0 <= k < |slots| && Load(slots, k) == |last|;
    LoadStays(slots, s, k);
    hide Load;
    assert slots'[|slots|] == s && slots'[last[c]] == slots[last[c]];
    forall i, j | 0 <= i < j < |slots'| && Clash(slots'[i], slots'[j])
      ensures columns'[i] != columns'[j]
    {
      if j < |slots| { assert Clash(slots[i], slots[j]); } else { assert slots'[i] == slots[i]; }
    }
    assert Load(slots', k) == |last'|;
  }

  // Opening a column: every column's last slot is still running, and no other
  // slot is.
  lemma OpenColumn(slots: seq<Slot>, columns: seq<nat>, last: seq<nat>, s: Slot)
    requires Columned(slots, columns, last) && SortedByStart(slots + [s])
    requires forall c | 0 <= c < |last| :: slots[last[c]].endMin > s.startMin
    ensures Columned(slots + [s], columns + [|last|], last + [|slots|])
  {
    var slots', columns', last' := slots + [s], columns + [|last|], last + [|slots|];
    AllRunning(slots, columns, last, s);
    hide Load;
    forall i, j | 0 <= i < j < |slots'| && Clash(slots'[i], slots'[j])
      ensures columns'[i] != columns'[j]
    {
      if j < |slots| { assert Clash(slots[i], slots[j]); }
    }
    assert Load(slots', |slots|) == |last'|;
  }

  lemma AllRunning(slots: seq<Slot>, columns: seq<nat>, last: seq<nat>, s: Slot)
    requires Columned(slots, columns, last) && SortedByStart(slots + [s])
    requires forall c | 0 <= c < |last| :: slots[last[c]].endMin > s.startMin
    ensures Load(slots + [s], |slots|) == |last| + 1
  {
    var slots', k := slots + [s], |slots|;
    forall i | i in Registry.Elems(last)
      ensures i in Running(slots', k)
    {
      var c :| 0 <= c < |last| && last[c] == i;
    }
    forall i | i in Running(slots', k)
      ensures i in Registry.Elems(last)
    {
      assert last[columns[i]] in last && slots'[last[columns[i]]].startMin <= slots'[k].startMin;
      assert slots'[i].endMin > slots'[k].startMin;
    }
    assert Running(slots', k) == Registry.Elems(last);
    Registry.DistinctCard(last);
  }

  // ------------------------------------------------------- the slot objects

  class PositionedSlot {
    const slot: Slot
    var colIndex: nat
    var numCols: nat
    var isConflict: bool

    constructor (slot: Slot)
      ensures this.slot == slot
    {
      this.slot := slot;
      colIndex, numCols, isConflict := 0, 0, false;
    }
  }

  ghost function Slots(group: seq<PositionedSlot>): (slots: seq<Slot>)
    ensures |slots| == |group| && forall i | 0 <= i < |group| :: slots[i] == group[i].slot
  {
    seq(|group|, i requires 0 <= i < |group| => group[i].slot)
  }

  // What a slot shows once placed.
  datatype Mark = Mark(colIndex: nat, numCols: nat, isConflict: bool)

  // The first slots carry these marks.
  ghost predicate Shows(group: seq<PositionedSlot>, marks: seq<Mark>)
    reads group
  {
    |marks| <= |group| && forall i | 0 <= i < |marks| ::
        Mark(group[i].colIndex, group[i].numCols, group[i].isConflict) == marks[i]
  }

  ghost function Indices(marks: seq<Mark>): seq<nat> { seq(|marks|, i requires 0 <= i < |marks| => marks[i].colIndex) }

  // One group laid out in n columns: no clash within a column, each slot in the
  // leftmost column free for it, n no more than some slot needs, and a conflict
  // shown exactly when n is above one.
  ghost predicate Arranged(slots: seq<Slot>, marks: seq<Mark>, n: nat) {
    && |marks| == |slots|
    && (forall i | 0 <= i < |marks| ::
          marks[i].colIndex < n && marks[i].numCols == n && (marks[i].isConflict <==> n > 1))
    && (forall i, j | 0 <= i < j < |slots| && Clash(slots[i], slots[j]) :: marks[i].colIndex != marks[j].colIndex)
    && MaxLoad(slots, n) && FirstFit(slots, Indices(marks))
  }

  ghost predicate Layable(group: seq<PositionedSlot>) {
    Registry.Distinct(group) && SortedByStart(Slots(group))
  }

  lemma SlotsNext(group: seq<PositionedSlot>, k: nat)
    requires k < |group| && Layable(group)
    ensures Slots(group[..k + 1]) == Slots(group[..k]) + [group[k].slot]
    ensures SortedByStart(Slots(group[..k]) + [group[k].slot])
  {
    var prefix := Slots(group[..k]) + [group[k].slot];
    assert forall i | 0 <= i < |prefix| :: prefix[i] == Slots(group)[i];
  }

  // The last slot of column c is group[last[c]].
  ghost predicate Tracks(group: seq<PositionedSlot>, columns: seq<seq<PositionedSlot>>, last: seq<nat>) {
    |last| == |columns|
    && forall c | 0 <= c < |columns| ::
         columns[c] != [] && last[c] < |group| && columns[c][|columns[c]| - 1] == group[last[c]]
  }

  // The first k slots hold these column indices.
  ghost predicate Chosen(group: seq<PositionedSlot>, chosen: seq<nat>)
    reads group
  {
    |chosen| <= |group| && forall i | 0 <= i < |chosen| :: group[i].colIndex == chosen[i]
  }

  // The leftmost column whose last slot is over when this one starts.
  method FindColumn(columns: seq<seq<PositionedSlot>>, slot: PositionedSlot) returns (placed: bool, i: nat)
    requires forall c | 0 <= c < |columns| :: columns[c] != []
    ensures placed ==> i < |columns| && columns[i][|columns[i]| - 1].slot.endMin <= slot.slot.startMin
    ensures forall c | 0 <= c < (if placed then i else |columns|) ::
            columns[c][|columns[c]| - 1].slot.endMin > slot.slot.startMin
  {
    i := 0;
    while i < |columns|
      invariant i <= |columns|
      invariant forall c | 0 <= c < i :: columns[c][|columns[c]| - 1].slot.endMin > slot.slot.startMin
    {
      var lastSlot := columns[i][|columns[i]| - 1];
      if lastSlot.slot.endMin <= slot.slot.startMin { return true, i; }
      i := i + 1;
    }
    return false, i;
  }

  lemma NoColumns(group: seq<PositionedSlot>)
    ensures Columned(Slots(group[..0]), [], []) && Tracks(group, [], [])
  {
  }

  lemma TracksPlace(group: seq<PositionedSlot>, columns: seq<seq<PositionedSlot>>, last: seq<nat>, i: nat, k: nat)
    requires Tracks(group, columns, last) && i < |columns| && k < |group|
    ensures Tracks(group, columns[i := columns[i] + [group[k]]], last[i := k])
  {
    var columns', last' := columns[i := columns[i] + [group[k]]], last[i := k];
    forall c | 0 <= c < |columns'|
      ensures columns'[c] != [] && last'[c] < |group| && columns'[c][|columns'[c]| - 1] == group[last'[c]]
    {
      if c != i { assert columns'[c] == columns[c] && last'[c] == last[c]; }
    }
  }

  lemma TracksOpen(group: seq<PositionedSlot>, columns: seq<seq<PositionedSlot>>, last: seq<nat>, k: nat)
    requires Tracks(group, columns, last) && k < |group|
    ensures Tracks(group, columns + [[group[k]]], last + [k])
  {
    var columns', last' := columns + [[group[k]]], last + [k];
    forall c | 0 <= c < |columns'|
      ensures columns'[c] != [] && last'[c] < |group| && columns'[c][|columns'[c]| - 1] == group[last'[c]]
    {
      if c < |columns| { assert columns'[c] == columns[c] && last'[c] == last[c]; }
    }
  }

  // A column found over is over by its last slot; all of them running otherwise.
  lemma TrackedEnds(group: seq<PositionedSlot>,
                    columns: seq<seq<PositionedSlot>>, last: seq<nat>, chosen: seq<nat>, k: nat)
    requires Tracks(group, columns, last) && k <= |group| && Columned(Slots(group[..k]), chosen, last)
    ensures forall c | 0 <= c < |columns| ::
              columns[c] != [] && last[c] < k && columns[c][|columns[c]| - 1].slot == Slots(group[..k])[last[c]]
  {
  }

  // After k slots: who sits where, which slot is last in each column.
  ghost predicate Filled(group: seq<PositionedSlot>, k: nat,
                         columns: seq<seq<PositionedSlot>>, last: seq<nat>, chosen: seq<nat>)
    reads group
  {
    && k <= |group| && |chosen| == k && |last| == |columns| && (k > 0 ==> columns != [])
    && Chosen(group, chosen) && Tracks(group, columns, last) && Columned(Slots(group[..k]), chosen, last)
    && FirstFit(Slots(group[..k]), chosen)
  }

  // First fit for one slot: the leftmost column that is free, else a new one.
  method PlaceSlot(group: seq<PositionedSlot>, k: nat,
                   columns: seq<seq<PositionedSlot>>, ghost last: seq<nat>, ghost chosen: seq<nat>)
    returns (columns': seq<seq<PositionedSlot>>, ghost last': seq<nat>, ghost chosen': seq<nat>)
    requires Layable(group) && k < |group| && Filled(group, k, columns, last, chosen)
    modifies group[k]
    ensures Filled(group, k + 1, columns', last', chosen')
  {
    hide Columned, Tracks, SortedByStart, Clash, FirstFit;
    var slot := group[k];
    SlotsNext(group, k);
    TrackedEnds(group, columns, last, chosen, k);
    assert forall i | 0 <= i < k :: group[i] != slot;
    hide Layable;
    var placed, i := FindColumn(columns, slot);
    FitsNext(Slots(group[..k]), chosen, last, slot.slot, if placed then i else |columns|);
    if placed {
      PlaceInColumn(Slots(group[..k]), chosen, last, slot.slot, i);
      TracksPlace(group, columns, last, i, k);
      columns' := columns[i := columns[i] + [slot]];
      slot.colIndex := i;
      chosen', last' := chosen + [i], last[i := k];
    } else {
      OpenColumn(Slots(group[..k]), chosen, last, slot.slot);
      TracksOpen(group, columns, last, k);
      slot.colIndex := |columns|;
      columns' := columns + [[slot]];
      chosen', last' := chosen + [|last|], last + [k];
    }
  }

  // First fit for the whole group.
  method FillColumns(group: seq<PositionedSlot>)
    returns (columns: seq<seq<PositionedSlot>>, ghost last: seq<nat>, ghost chosen: seq<nat>)
    requires Layable(group)
    modifies group
    ensures Filled(group, |group|, columns, last, chosen) && Columned(Slots(group), chosen, last)
            && FirstFit(Slots(group), chosen)
  {
    NoColumns(group);
    columns, last, chosen := [], [], [];
    assert Filled(group, 0, columns, last, chosen);
    hide Filled, Columned, Layable, FirstFit;
    for k := 0 to |group|
      invariant Filled(group, k, columns, last, chosen)
    {
      columns, last, chosen := PlaceSlot(group, k, columns, last, chosen);
    }
    AllFilled(group, columns, last, chosen);
  }

  lemma AllFilled(group: seq<PositionedSlot>, columns: seq<seq<PositionedSlot>>, last: seq<nat>, chosen: seq<nat>)
    requires Filled(group, |group|, columns, last, chosen)
    ensures Columned(Slots(group), chosen, last) && FirstFit(Slots(group), chosen)
  {
    assert group[..|group|] == group;
  }

  // The group's width goes to every slot of it.
  method StampWidth(group: seq<PositionedSlot>, width: nat)
    modifies group
    ensures forall s <- group :: s.colIndex == old(s.colIndex) && s.numCols == width && (s.isConflict <==> width > 1)
  {
    for k := 0 to |group|
      invariant forall s <- group :: s.colIndex == old(s.colIndex)
      invariant forall i | 0 <= i < k :: group[i].numCols == width && (group[i].isConflict <==> width > 1)
    {
      group[k].numCols := width;
      group[k].isConflict := width > 1;
    }
  }

  // assignColumns: fill the columns, then give the whole group their number.
  method AssignColumns(group: seq<PositionedSlot>) returns (ghost marks: seq<Mark>)
    requires Layable(group)
    modifies group
    ensures |marks| == |group| && Shows(group, marks)
    ensures group != [] ==> Arranged(Slots(group), marks, marks[0].numCols)
  {
    assert SortedByStart(Slots(group));
    hide Columned, MaxLoad, Layable, Tracks, Arranged, Clash, SortedByStart, FirstFit;
    marks := [];
    if |group| == 0 { return; }
    ghost var last, chosen;
    var columns;
    columns, last, chosen := FillColumns(group);
    ColumnedIsOptimal(Slots(group), chosen, last);
    StampWidth(group, |columns|);
    assert forall i | 0 <= i < |group| :: group[i] in group;
    marks := MarksOf(Slots(group), chosen, |columns|);
  }

  lemma MarksOf(slots: seq<Slot>, chosen: seq<nat>, n: nat) returns (marks: seq<Mark>)
    requires Proper(slots, chosen, n) && MaxLoad(slots, n) && FirstFit(slots, chosen)
    ensures Arranged(slots, marks, n)
    ensures |marks| == |chosen| && forall i | 0 <= i < |chosen| :: marks[i] == Mark(chosen[i], n, n > 1)
  {
    hide MaxLoad, Clash, FirstFit;
    marks := seq(|chosen|, i requires 0 <= i < |chosen| => Mark(chosen[i], n, n > 1));
    assert Indices(marks) == chosen;
    assert forall i | 0 <= i < |chosen| :: chosen[i] in chosen;
  }

  lemma ColumnedIsOptimal(slots: seq<Slot>, columns: seq<nat>, last: seq<nat>)
    requires Columned(slots, columns, last) && last != [] && SortedByStart(slots)
    ensures MaxLoad(slots, |last|) && Proper(slots, columns, |last|)
  {
    assert Proper(slots, columns, |last|);
    hide Load;
    forall k | 0 <= k < |slots| ensures Load(slots, k) <= |last| { ColumnsNeeded(slots, columns, |last|, k); }
  }

  // -------------------------------------------------------------- grouping

  // Ranges of indices, one after the other, from 0 to n.
  ghost predicate Ranges(groups: seq<(nat, nat)>, n: nat) {
    && (forall g | 0 <= g < |groups| :: groups[g].0 < groups[g].1 <= n)
    && (forall g, h | 0 <= g < h < |groups| ::
          groups[g].1 <= groups[h].0 && (h == g + 1 ==> groups[g].1 == groups[h].0))
    && (if groups == [] then n == 0 else groups[0].0 == 0 && groups[|groups| - 1].1 == n)
  }

  // Everything before lo is over when anything from lo on starts.
  ghost predicate Cut(slots: seq<Slot>, lo: nat) {
    forall i, j | 0 <= i < lo <= j < |slots| :: slots[i].endMin <= slots[j].startMin
  }

  // Each slot of the range but the first starts before an earlier one is over.
  ghost predicate Linked(slots: seq<Slot>, lo: nat, hi: nat)
    requires hi <= |slots|
  {
    forall j | lo < j < hi :: exists i :: lo <= i < j && Clash(slots[i], slots[j])
  }

  ghost predicate LaidRange(slots: seq<Slot>, marks: seq<Mark>, lo: nat, hi: nat) {
    lo < hi <= |marks| <= |slots| && Arranged(slots[lo..hi], marks[lo..hi], marks[lo].numCols) && Linked(slots, lo, hi)
  }

  // The marks so far lay out their slots group by group.
  ghost predicate Laid(slots: seq<Slot>, marks: seq<Mark>, groups: seq<(nat, nat)>) {
    && |marks| <= |slots| && Ranges(groups, |marks|)
    && forall g | 0 <= g < |groups| :: LaidRange(slots, marks, groups[g].0, groups[g].1) && Cut(slots, groups[g].0)
  }

  // groupEnd is the latest end in the range, -1 before there is one.
  ghost predicate IsGroupEnd(slots: seq<Slot>, lo: nat, hi: nat, groupEnd: int) {
    && lo <= hi <= |slots|
    && (forall i | lo <= i < hi :: slots[i].endMin <= groupEnd)
    && (lo == hi ==> hi == 0 && groupEnd == -1)
    && (lo < hi ==> exists i :: lo <= i < hi && slots[i].endMin == groupEnd)
  }

  // A slot starting at or after the end of the group begins a new one.
  lemma NewGroup(slots: seq<Slot>, lo: nat, k: nat, groupEnd: int)
    requires IsGroupEnd(slots, lo, k, groupEnd) && Cut(slots, lo) && SortedByStart(slots)
    requires k < |slots| && slots[k].startMin >= groupEnd
    ensures Cut(slots, k) && IsGroupEnd(slots, k, k + 1, slots[k].endMin) && Linked(slots, k, k + 1)
  {
  }

  // A slot starting earlier starts before the one that ends last is over.
  lemma LinksOn(slots: seq<Slot>, lo: nat, k: nat, groupEnd: int)
    requires IsGroupEnd(slots, lo, k, groupEnd) && k < |slots| && slots[k].startMin < groupEnd
    ensures exists i :: lo <= i < k && Clash(slots[i], slots[k])
  {
    var i :| lo <= i < k && slots[i].endMin == groupEnd;
    assert Clash(slots[i], slots[k]);
  }

  lemma EndGrows(slots: seq<Slot>, lo: nat, k: nat, groupEnd: int, newEnd: int)
    requires IsGroupEnd(slots, lo, k, groupEnd) && lo < k < |slots|
    requires newEnd == if slots[k].endMin > groupEnd then slots[k].endMin else groupEnd
    ensures IsGroupEnd(slots, lo, k + 1, newEnd)
  {
    var i :| lo <= i < k && slots[i].endMin == groupEnd;
    var last := if slots[k].endMin > groupEnd then k else i;
    assert lo <= last < k + 1 && slots[last].endMin == newEnd;
  }

  lemma SameGroup(slots: seq<Slot>, lo: nat, k: nat, groupEnd: int, newEnd: int)
    requires IsGroupEnd(slots, lo, k, groupEnd) && k < |slots| && slots[k].startMin < groupEnd && Linked(slots, lo, k)
    requires newEnd == if slots[k].endMin > groupEnd then slots[k].endMin else groupEnd
    ensures lo < k && Linked(slots, lo, k + 1) && IsGroupEnd(slots, lo, k + 1, newEnd)
  {
    hide *;
    LinksOn(slots, lo, k, groupEnd);
    EndGrows(slots, lo, k, groupEnd, newEnd);
    LinkedNext(slots, lo, k);
  }

  lemma LinkedNext(slots: seq<Slot>, lo: nat, k: nat)
    requires k < |slots| && Linked(slots, lo, k) && exists i :: lo <= i < k && Clash(slots[i], slots[k])
    ensures Linked(slots, lo, k + 1)
  {
    hide Clash;
  }

  // One more group behind those laid out.
  lemma LaidNext(slots: seq<Slot>, marks: seq<Mark>, groups: seq<(nat, nat)>, more: seq<Mark>)
    requires Laid(slots, marks, groups) && Cut(slots, |marks|) && more != [] && |marks| + |more| <= |slots|
    requires Arranged(slots[|marks|..|marks| + |more|], more, more[0].numCols)
             && Linked(slots, |marks|, |marks| + |more|)
    ensures Laid(slots, marks + more, groups + [(|marks|, |marks| + |more|)])
  {
    var marks', groups' := marks + more, groups + [(|marks|, |marks| + |more|)];
    hide Arranged, Linked, Cut;
    assert marks'[|marks|..|marks| + |more|] == more;
    forall g | 0 <= g < |groups'|
      ensures LaidRange(slots, marks', groups'[g].0, groups'[g].1) && Cut(slots, groups'[g].0)
    {
      if g < |groups| { assert marks'[groups[g].0..groups[g].1] == marks[groups[g].0..groups[g].1]; }
    }
  }

  lemma RangeLayable(day: seq<PositionedSlot>, lo: nat, k: nat)
    requires Layable(day) && lo <= k <= |day|
    ensures Layable(day[lo..k]) && Slots(day[lo..k]) == Slots(day)[lo..k]
  {
    var part := day[lo..k];
    assert forall i | 0 <= i < |part| :: Slots(part)[i] == Slots(day)[lo + i];
  }

  // The group lies behind the slots already marked and is none of them.
  lemma GroupApart(day: seq<PositionedSlot>, lo: nat, k: nat)
    requires Layable(day) && lo <= k <= |day|
    ensures forall i | 0 <= i < lo :: day[i] !in day[lo..k]
    ensures forall i | lo <= i < k :: day[lo..k][i - lo] == day[i]
  {
    hide SortedByStart;
  }

  // One group finished: laid out in place, the slots before it untouched.
  method FinishGroup(day: seq<PositionedSlot>, ghost marks: seq<Mark>, ghost groups: seq<(nat, nat)>,
                     currentGroup: seq<PositionedSlot>, ghost k: nat)
    returns (ghost marks': seq<Mark>, ghost groups': seq<(nat, nat)>)
    requires Layable(day) && |marks| <= k <= |day| && currentGroup == day[|marks|..k]
    requires Shows(day, marks) && Laid(Slots(day), marks, groups)
    requires Linked(Slots(day), |marks|, k) && Cut(Slots(day), |marks|)
    modifies currentGroup
    ensures |marks'| == k && Shows(day, marks') && Laid(Slots(day), marks', groups')
  {
    hide Arranged, Layable, Linked, Cut, Laid;
    RangeLayable(day, |marks|, k);
    GroupApart(day, |marks|, k);
    ghost var more := AssignColumns(currentGroup);
    marks', groups' := marks + more, groups;
    if more != [] {
      LaidNext(Slots(day), marks, groups, more);
      groups' := groups + [(|marks|, k)];
    } else {
      assert marks' == marks;
    }
  }

  // The day's loop: a slot starting at or after the group's end closes it.
  method LayOutDay(sortedSlots: seq<PositionedSlot>)
    returns (positionedSlots: seq<PositionedSlot>, ghost marks: seq<Mark>, ghost groups: seq<(nat, nat)>)
    requires Layable(sortedSlots)
    modifies sortedSlots
    ensures positionedSlots == sortedSlots && |marks| == |sortedSlots|
    ensures Shows(sortedSlots, marks) && Laid(Slots(sortedSlots), marks, groups)
  {
    hide Linked, Cut, IsGroupEnd, Laid, SortedByStart;
    ghost var slots := Slots(sortedSlots);
    positionedSlots, marks, groups := [], [], [];
    var currentGroup: seq<PositionedSlot> := [];
    var groupEnd: int := -1;
    NothingLaid(slots);
    for k := 0 to |sortedSlots|
      invariant |marks| <= k && positionedSlots == sortedSlots[..|marks|] && currentGroup == sortedSlots[|marks|..k]
      invariant Shows(sortedSlots, marks) && Laid(slots, marks, groups)
      invariant Linked(slots, |marks|, k) && Cut(slots, |marks|) && IsGroupEnd(slots, |marks|, k, groupEnd)
    {
      var slot := sortedSlots[k];
      assert slot.slot == slots[k];
      if slot.slot.startMin >= groupEnd {
        NewGroup(slots, |marks|, k, groupEnd);
        marks, groups := FinishGroup(sortedSlots, marks, groups, currentGroup, k);
        positionedSlots := positionedSlots + currentGroup;
        currentGroup, groupEnd := [slot], slot.slot.endMin;
      } else {
        SameGroup(slots, |marks|, k, groupEnd, if slot.slot.endMin > groupEnd then slot.slot.endMin else groupEnd);
        currentGroup := currentGroup + [slot];
        groupEnd := if slot.slot.endMin > groupEnd then slot.slot.endMin else groupEnd;
      }
    }
    marks, groups := FinishGroup(sortedSlots, marks, groups, currentGroup, |sortedSlots|);
    positionedSlots := positionedSlots + currentGroup;
  }

  lemma NothingLaid(slots: seq<Slot>)
    ensures Laid(slots, [], []) && Linked(slots, 0, 0) && Cut(slots, 0) && IsGroupEnd(slots, 0, 0, -1)
  {
  }

  // ------------------------------------------------------ what the day shows

  lemma RangesPrefix(groups: seq<(nat, nat)>, n: nat)
    requires Ranges(groups, n) && groups != []
    ensures Ranges(groups[..|groups| - 1], groups[|groups| - 1].0)
  {
    var last := |groups| - 1;
    assert forall h | 0 <= h < last :: groups[..last][h] == groups[h] && groups[h].1 <= groups[last].0;
    if last > 0 { assert groups[last - 1].1 == groups[last].0; }
  }

  lemma {:induction false} RangeOf(groups: seq<(nat, nat)>, n: nat, i: nat) returns (g: nat)
    requires Ranges(groups, n) && i < n
    ensures g < |groups| && groups[g].0 <= i < groups[g].1
    decreases |groups|
  {
    g := |groups| - 1;
    if i < groups[g].0 {
      RangesPrefix(groups, n);
      g := RangeOf(groups[..g], groups[g].0, i);
    }
  }

  // Slots of different groups never clash.
  lemma GroupsApart(slots: seq<Slot>, marks: seq<Mark>, groups: seq<(nat, nat)>, i: nat, j: nat) returns (g: nat)
    requires Laid(slots, marks, groups) && |marks| == |slots| && i < j < |slots| && Clash(slots[i], slots[j])
    ensures g < |groups| && groups[g].0 <= i < j < groups[g].1
  {
    hide LaidRange;
    g := RangeOf(groups, |slots|, j);
    assert Cut(slots, groups[g].0);
  }

  // The group a slot is in: from the last cut at or before it to the next.
  lemma GroupOf(slots: seq<Slot>, marks: seq<Mark>, groups: seq<(nat, nat)>, k: nat) returns (lo: nat, hi: nat)
    requires Laid(slots, marks, groups) && |marks| == |slots| && k < |slots|
    ensures lo <= k < hi <= |slots| && LaidRange(slots, marks, lo, hi) && Cut(slots, lo)
    ensures hi == |slots| || Cut(slots, hi)
    ensures forall j | lo < j < hi :: !Cut(slots, j)
  {
    var g := RangeOf(groups, |slots|, k);
    lo, hi := groups[g].0, groups[g].1;
    if g + 1 < |groups| { assert groups[g + 1].0 == hi; }
    hide Arranged;
    forall j | lo < j < hi
      ensures !Cut(slots, j)
    {
      var i :| lo <= i < j && Clash(slots[i], slots[j]);
    }
  }

  lemma SameLoad(slots: seq<Slot>, m: nat, n: nat)
    requires MaxLoad(slots, m) && MaxLoad(slots, n)
    ensures m == n
  {
    hide Load;
  }

  // No slot finds its own column occupied, and a layout that agrees with this one
  // up to here puts the slot no further right.
  lemma NoFurtherRight(slots: seq<Slot>, columns: seq<nat>, columns': seq<nat>, k: nat)
    requires |columns| == |slots| && FirstFit(slots, columns') && k < |slots| && columns[..k] == columns'[..k]
    requires forall i, j | 0 <= i < j < |slots| && Clash(slots[i], slots[j]) :: columns[i] != columns[j]
    ensures columns'[k] <= columns[k]
  {
    assert forall i | 0 <= i < k :: columns[..k][i] == columns[i] && columns'[..k][i] == columns'[i];
    assert !Occupied(slots, columns, k, columns[k]);
    assert Occupied(slots, columns', k, columns[k]) <==> Occupied(slots, columns, k, columns[k]);
  }

  // First fit leaves no choice.
  lemma {:induction false} SameFit(slots: seq<Slot>, columns: seq<nat>, columns': seq<nat>, k: nat)
    requires FirstFit(slots, columns) && FirstFit(slots, columns') && k <= |slots|
    requires forall i, j | 0 <= i < j < |slots| && Clash(slots[i], slots[j]) :: columns[i] != columns[j]
    requires forall i, j | 0 <= i < j < |slots| && Clash(slots[i], slots[j]) :: columns'[i] != columns'[j]
    ensures columns[..k] == columns'[..k]
  {
    if k > 0 {
      SameFit(slots, columns, columns', k - 1);
      NoFurtherRight(slots, columns, columns', k - 1);
      NoFurtherRight(slots, columns', columns, k - 1);
      assert columns[..k] == columns[..k - 1] + [columns[k - 1]]
             && columns'[..k] == columns'[..k - 1] + [columns'[k - 1]];
    }
  }

  lemma SameArranged(slots: seq<Slot>, marks: seq<Mark>, n: nat, marks': seq<Mark>, n': nat)
    requires Arranged(slots, marks, n) && Arranged(slots, marks', n')
    ensures marks == marks'
  {
    hide MaxLoad, FirstFit, Clash;
    SameLoad(slots, n, n');
    SameFit(slots, Indices(marks), Indices(marks'), |slots|);
    assert Indices(marks)[..|slots|] == Indices(marks) && Indices(marks')[..|slots|] == Indices(marks');
    assert forall i | 0 <= i < |marks| ::
           Indices(marks)[i] == marks[i].colIndex && Indices(marks')[i] == marks'[i].colIndex;
  }

  // The slots of a day decide every mark: what LayOutDay promises of them leaves
  // nothing open.
  lemma LayoutDetermined(slots: seq<Slot>, marks: seq<Mark>, groups: seq<(nat, nat)>, marks': seq<Mark>,
                         groups': seq<(nat, nat)>)
    requires Laid(slots, marks, groups) && |marks| == |slots| && Laid(slots, marks', groups') && |marks'| == |slots|
    ensures marks == marks'
  {
    hide Laid, Arranged, Cut, Linked;
    forall k | 0 <= k < |slots|
      ensures marks[k] == marks'[k]
    {
      var lo, hi := GroupOf(slots, marks, groups, k);
      var lo', hi' := GroupOf(slots, marks', groups', k);
      assert lo == lo' && hi == hi';
      SameArranged(slots[lo..hi], marks[lo..hi], marks[lo].numCols, marks'[lo..hi], marks'[lo].numCols);
      assert marks[lo..hi][k - lo] == marks[k] && marks'[lo..hi][k - lo] == marks'[k];
    }
  }

  // Block columns i of n and j of m share some width.
  predicate ColumnsMeet(i: nat, n: nat, j: nat, m: nat) { i * m < (j + 1) * n && j * n < (i + 1) * m }

  lemma DifferentColumns(i: nat, j: nat, n: nat)
    requires n > 0 && i != j
    ensures !ColumnsMeet(i, n, j, n)
  {
    if i < j { assert (i + 1) * n <= j * n; } else { assert (j + 1) * n <= i * n; }
  }

  lemma SlotInRange(slots: seq<Slot>, marks: seq<Mark>, lo: nat, hi: nat, i: nat)
    requires LaidRange(slots, marks, lo, hi) && lo <= i < hi
    ensures marks[i].colIndex < marks[i].numCols == marks[lo].numCols
            && (marks[i].isConflict <==> marks[lo].numCols > 1)
  {
    assert marks[lo..hi][i - lo] == marks[i];
    hide MaxLoad, Linked, Clash;
  }

  lemma PairInRange(slots: seq<Slot>, marks: seq<Mark>, lo: nat, hi: nat, i: nat, j: nat)
    requires LaidRange(slots, marks, lo, hi) && lo <= i < j < hi && Clash(slots[i], slots[j])
    ensures marks[i].colIndex != marks[j].colIndex
  {
    hide MaxLoad, Linked, Clash;
    assert marks[lo..hi][i - lo] == marks[i] && marks[lo..hi][j - lo] == marks[j];
    assert slots[lo..hi][i - lo] == slots[i] && slots[lo..hi][j - lo] == slots[j];
  }

  lemma ClashingApart(slots: seq<Slot>, marks: seq<Mark>, groups: seq<(nat, nat)>, i: nat, j: nat)
    requires Laid(slots, marks, groups) && |marks| == |slots| && i < j < |slots| && Clash(slots[i], slots[j])
    ensures marks[i].numCols == marks[j].numCols && marks[i].colIndex != marks[j].colIndex
    ensures marks[i].isConflict && marks[j].isConflict
    ensures !ColumnsMeet(marks[i].colIndex, marks[i].numCols, marks[j].colIndex, marks[j].numCols)
  {
    var g := GroupsApart(slots, marks, groups, i, j);
    var lo, hi := groups[g].0, groups[g].1;
    hide LaidRange, ColumnsMeet, Clash, Cut;
    SlotInRange(slots, marks, lo, hi, i);
    SlotInRange(slots, marks, lo, hi, j);
    PairInRange(slots, marks, lo, hi, i, j);
    DifferentColumns(marks[i].colIndex, marks[j].colIndex, marks[i].numCols);
  }

  // No two placed blocks of a day overlap in both time and column span.
  lemma BlocksNeverCollide(slots: seq<Slot>, marks: seq<Mark>, groups: seq<(nat, nat)>, i: nat, j: nat)
    requires Laid(slots, marks, groups) && |marks| == |slots| && i < |slots| && j < |slots| && i != j
             && Overlaps(slots[i], slots[j])
    ensures marks[i].numCols == marks[j].numCols && marks[i].colIndex != marks[j].colIndex
    ensures !ColumnsMeet(marks[i].colIndex, marks[i].numCols, marks[j].colIndex, marks[j].numCols)
  {
    hide Laid;
    if i < j { ClashingApart(slots, marks, groups, i, j); } else { ClashingApart(slots, marks, groups, j, i); }
  }

  // The later of two slots starts before the earlier is over.
  predicate Beside(slots: seq<Slot>, i: nat, j: nat)
    requires i < |slots| && j < |slots|
  {
    if i < j then Clash(slots[i], slots[j]) else Clash(slots[j], slots[i])
  }

  // A slot is marked as a conflict exactly when it and another of the day run
  // into each other.
  lemma ConflictIffBeside(slots: seq<Slot>, marks: seq<Mark>, groups: seq<(nat, nat)>, i: nat)
    requires Laid(slots, marks, groups) && |marks| == |slots| && i < |slots|
    ensures marks[i].isConflict <==> exists j :: 0 <= j < |slots| && j != i && Beside(slots, i, j)
  {
    hide LaidRange, Cut, Ranges, Clash;
    if marks[i].isConflict {
      var g := RangeOf(groups, |slots|, i);
      SlotInRange(slots, marks, groups[g].0, groups[g].1, i);
      var j := ConflictHasPartner(slots, marks, groups[g].0, groups[g].1, i);
    }
    if j :| 0 <= j < |slots| && j != i && Beside(slots, i, j) {
      if i < j { ClashingApart(slots, marks, groups, i, j); } else { ClashingApart(slots, marks, groups, j, i); }
    }
  }

  lemma LoadWithin(slots: seq<Slot>, k: nat)
    requires k < |slots|
    ensures Load(slots, k) <= |slots|
  {
    Pigeonhole(Running(slots, k), seq(|slots|, i => i), k);
  }

  lemma ConflictHasPartner(slots: seq<Slot>, marks: seq<Mark>, lo: nat, hi: nat, i: nat) returns (j: nat)
    requires LaidRange(slots, marks, lo, hi) && lo <= i < hi && marks[lo].numCols > 1
    ensures j < |slots| && j != i && Beside(slots, i, j)
  {
    var k :| 0 <= k < |slots[lo..hi]| && Load(slots[lo..hi], k) == marks[lo].numCols;
    LoadWithin(slots[lo..hi], k);
    hide MaxLoad, Load, Arranged;
    if i > lo {
      j :| lo <= j < i && Clash(slots[j], slots[i]);
    } else {
      j := lo + 1;
      var e :| lo <= e < j && Clash(slots[e], slots[j]);
    }
  }

  // Each group is as wide as its largest load, and no layout is narrower.
  lemma GroupsAreNarrowest(slots: seq<Slot>, marks: seq<Mark>, groups: seq<(nat, nat)>, g: nat, other: seq<nat>, m: nat)
    requires Laid(slots, marks, groups) && SortedByStart(slots) && g < |groups|
    requires Proper(slots[groups[g].0..groups[g].1], other, m)
    ensures MaxLoad(slots[groups[g].0..groups[g].1], marks[groups[g].0].numCols) && marks[groups[g].0].numCols <= m
  {
    hide Linked, Proper, Load, Cut, Ranges, FirstFit, Clash;
    var lo, hi := groups[g].0, groups[g].1;
    assert LaidRange(slots, marks, lo, hi);
    hide Laid;
    var k :| 0 <= k < |slots[lo..hi]| && Load(slots[lo..hi], k) == marks[lo].numCols;
    ColumnsNeeded(slots[lo..hi], other, m, k);
  }

  // ----------------------------------------------- the marks and the conflicts

  ghost predicate OneDay(slots: seq<Slot>, day: nat) { forall s <- slots :: s.day == day }

  // Between slots of positive length running into each other is overlapping.
  lemma BesideIsOverlap(slots: seq<Slot>, day: nat, i: nat, j: nat)
    requires SortedByStart(slots) && OneDay(slots, day) && PositiveLength(slots)
    requires i < |slots| && j < |slots| && i != j
    ensures Beside(slots, i, j) <==> Overlaps(slots[i], slots[j])
  {
    assert slots[i] in slots && slots[j] in slots;
  }

  // A slot is marked as a conflict exactly when it overlaps another of the day.
  lemma ConflictIffOverlap(slots: seq<Slot>, marks: seq<Mark>, groups: seq<(nat, nat)>, day: nat, i: nat)
    requires Laid(slots, marks, groups) && |marks| == |slots| && i < |slots|
    requires SortedByStart(slots) && OneDay(slots, day) && PositiveLength(slots)
    ensures marks[i].isConflict <==> exists j :: 0 <= j < |slots| && j != i && Overlaps(slots[i], slots[j])
  {
    ConflictIffBeside(slots, marks, groups, i);
    hide Laid, Beside, Overlaps, SortedByStart, OneDay, PositiveLength;
    forall j | 0 <= j < |slots| && j != i
      ensures Beside(slots, i, j) <==> Overlaps(slots[i], slots[j])
    {
      BesideIsOverlap(slots, day, i, j);
    }
  }

  // Not so for a slot that ends before it starts: 9:00-8:00 on a morning with a
  // class from 8:00 to 10:00 marks both, though they do not overlap.
  lemma StrayMark(marks: seq<Mark>, groups: seq<(nat, nat)>)
    requires Laid([Slot(1, 480, 600), Slot(1, 540, 480)], marks, groups) && |marks| == 2
    ensures marks[0].isConflict && marks[1].isConflict && !Overlaps(Slot(1, 480, 600), Slot(1, 540, 480))
  {
    hide Laid;
    ClashingApart([Slot(1, 480, 600), Slot(1, 540, 480)], marks, groups, 0, 1);
  }

  // A student's day on the grid: the slots of their patterns on that day, in
  // order of start, each pattern at most once, laid out and marked.
  datatype Day = Day(slots: seq<Slot>, owners: seq<nat>, marks: seq<Mark>, groups: seq<(nat, nat)>)

  ghost predicate ShowsDay(patterns: seq<Pattern>, day: nat, d: Day) {
    && |d.owners| == |d.slots| == |d.marks| && Laid(d.slots, d.marks, d.groups)
    && SortedByStart(d.slots) && OneDay(d.slots, day) && PositiveLength(d.slots) && Registry.Distinct(d.owners)
    && (forall k | 0 <= k < |d.slots| :: d.owners[k] < |patterns| && d.slots[k] in GridSlots(patterns[d.owners[k]]))
    && (forall i, x | 0 <= i < |patterns| && x in GridSlots(patterns[i]) && x.day == day :: PlacedFor(d, i, x))
  }

  ghost predicate PlacedFor(d: Day, i: nat, x: Slot) {
    exists k :: 0 <= k < |d.owners| == |d.slots| && d.owners[k] == i && d.slots[k] == x
  }

  // Some slot of pattern i is marked on this day.
  ghost predicate MarkedOn(d: Day, i: nat) {
    exists k :: 0 <= k < |d.owners| == |d.marks| && d.owners[k] == i && d.marks[k].isConflict
  }

  lemma MarkedIffOverlaps(patterns: seq<Pattern>, day: nat, d: Day, i: nat)
    requires ShowsDay(patterns, day, d)
    ensures MarkedOn(d, i) <==> exists k, l :: 0 <= k < |d.slots| && 0 <= l < |d.slots| && k != l && d.owners[k] == i
                                               && Overlaps(d.slots[k], d.slots[l])
  {
    hide Laid, SortedByStart, OneDay, PositiveLength, Overlaps, GridSlots;
    forall k | 0 <= k < |d.slots|
      ensures d.marks[k].isConflict <==> exists l :: 0 <= l < |d.slots| && l != k && Overlaps(d.slots[k], d.slots[l])
    {
      ConflictIffOverlap(d.slots, d.marks, d.groups, day, k);
    }
  }

  lemma MarkMeansConflict(patterns: seq<Pattern>, day: nat, d: Day, i: nat) returns (j: nat)
    requires ShowsDay(patterns, day, d) && i < |patterns| && MarkedOn(d, i)
    ensures j < |patterns| && j != i && GridConflict(patterns[i], patterns[j])
  {
    MarkedIffOverlaps(patterns, day, d, i);
    hide Laid, SortedByStart, OneDay, PositiveLength, Overlaps, GridSlots;
    var k, l :| 0 <= k < |d.slots| && 0 <= l < |d.slots| && k != l && d.owners[k] == i
    && Overlaps(d.slots[k], d.slots[l]);
    j := d.owners[l];
  }

  lemma ConflictMeansMark(patterns: seq<Pattern>, day: nat, d: Day, i: nat, j: nat, x: Slot, y: Slot)
    requires ShowsDay(patterns, day, d) && i < |patterns| && j < |patterns| && i != j
    requires x in GridSlots(patterns[i]) && y in GridSlots(patterns[j]) && Overlaps(x, y) && x.day == day
    ensures MarkedOn(d, i)
  {
    assert y.day == day;
    hide Laid, SortedByStart, OneDay, PositiveLength, Overlaps, GridSlots;
    assert PlacedFor(d, i, x) && PlacedFor(d, j, y);
    var k :| 0 <= k < |d.slots| && d.owners[k] == i && d.slots[k] == x;
    var l :| 0 <= l < |d.slots| && d.owners[l] == j && d.slots[l] == y;
    assert Overlaps(d.slots[k], d.slots[l]);
    MarkedIffOverlaps(patterns, day, d, i);
  }

  lemma GridDays(p: Pattern)
    ensures forall x <- GridSlots(p) :: 1 <= x.day <= 5
  {
    if Parses(p) { SlotsExact(GRID_DAYS, p.days, FoldedMinutes(p.start), FoldedMinutes(p.end)); }
  }

  // A class has a marked block somewhere in the week exactly when, as the grid
  // reads the patterns, it conflicts with another of the student's classes.
  lemma MarksAreConflicts(patterns: seq<Pattern>, week: map<nat, Day>, i: nat)
    requires i < |patterns| && forall day | 1 <= day <= 5 :: day in week && ShowsDay(patterns, day, week[day])
    ensures (exists day :: 1 <= day <= 5 && MarkedOn(week[day], i))
            <==> exists j :: 0 <= j < |patterns| && j != i && GridConflict(patterns[i], patterns[j])
  {
    hide ShowsDay, MarkedOn, GridSlots;
    if day :| 1 <= day <= 5 && MarkedOn(week[day], i) {
      var j := MarkMeansConflict(patterns, day, week[day], i);
    }
    if j :| 0 <= j < |patterns| && j != i && GridConflict(patterns[i], patterns[j]) {
      var x, y :| x in GridSlots(patterns[i]) && y in GridSlots(patterns[j]) && Overlaps(x, y);
      GridDays(patterns[i]);
      ConflictMeansMark(patterns, x.day, week[x.day], i, j, x, y);
    }
  }
}
