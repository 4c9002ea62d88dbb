// The interleaved machine refines the one-step operations: in every reachable
// state each transaction's private view is what a serial run would have, so a
// commit has exactly the effect of one atomic operation on the database as it
// is at that moment, and no step other than a commit changes the database.
module Interleaving {
  import opened Registry
  import opened Operations
  import opened Machine
  import opened LocalSteps

  // ------------------------------------------------------- one transaction

  ghost predicate WritesIn(ws: seq<Write>, held: set<SectionId>) {
    forall w <- ws | w.PutRow? || w.PutCols? :: w.section in held
  }

  ghost predicate SourceKnown(sections: map<SectionId, Section>, t: Txn)
    requires t.req.Swap?
  {
    t.home in sections && t.home != t.req.target
    && t.req.id in sections[t.home].rows && sections[t.home].rows[t.req.id].student == t.req.student
  }

  // No lock yet, or none needed.
  ghost predicate BeforeLock(sections: map<SectionId, Section>, t: Txn) {
    && t.held == {} && t.writes == []
    && match t.pc
       case Ready(out) => ((t.req.Promote? || t.req.Expire?) && out.NoSection?) || (t.req.Swap? && out.SameSection?)
       case Failed(code) => !Constraint(code)
       case Enrolling(e) => t.req.Enroll? && t.home == t.req.section && (e.EnrollGate? || e.EnrollLock?)
       case Dropping(d) =>
         t.req.Drop? && (d.DropRead? || (d.DropLock? && t.home in sections && t.req.id in sections[t.home].rows))
       case Swapping(w) =>
         t.req.Swap? && (w.SwapRead? || (w.SwapGate? && SourceKnown(sections, t))
                         || (w.SwapLock1? && SourceKnown(sections, t) && t.req.target in sections))
       case Promoting(p) => t.req.Promote? && t.home == t.req.section && p.PromoteLock?
       case Reordering(r) => t.req.Reorder? && t.home == t.req.section && r.ReorderLock?
       case Expiring(x) => t.req.Expire? && t.home == t.req.section && x.ExpireLock?
       case Editing(u) => t.req.Edit? && t.home == t.req.section && u.EditLock?
       case _ => false
  }

  // The first of swap's two locks is held.
  ghost predicate BetweenLocks(sections: map<SectionId, Section>, t: Txn) {
    && t.req.Swap? && t.pc == Swapping(SwapLock2) && t.writes == []
    && SourceKnown(sections, t) && t.req.target in sections
    && t.held == {Least(t.home, t.req.target)}
  }

  // The single section of the request is locked.
  ghost predicate UnderLock(sections: map<SectionId, Section>, t: Txn) {
    && t.held == {t.home} && t.home in sections
    && var sec := sections[t.home];
       match t.req
       case Enroll(_, s, _) => s == t.home && GoodEnrollPc(sec, t.req, t.pc, t.writes)
       case Drop(id) => id in sec.rows && GoodDropPc(sec, t.home, id, t.pc, t.writes)
       case Promote(s) => s == t.home && GoodPromotePc(sec, s, t.pc, t.writes)
       case Reorder(s, order) => s == t.home && GoodReorderPc(sec, s, order, t.pc, t.writes)
       case Expire(s) => s == t.home && GoodExpirePc(sec, s, t.pc, t.writes)
       case Edit(s, _, _) => s == t.home && GoodEditPc(sec, t.req, t.pc, t.writes)
       case Swap(_, _, _, _) => false
  }

  ghost predicate UnderBothLocks(sections: map<SectionId, Section>, t: Txn) {
    && t.req.Swap? && SourceKnown(sections, t) && t.req.target in sections
    && t.held == {t.home, t.req.target}
    && GoodSwapPc(sections[t.home], sections[t.req.target], t.home, t.req, t.pc, t.writes)
  }

  ghost predicate GoodTxn(sections: map<SectionId, Section>, t: Txn) {
    if !t.Unfinished() then t.held == {} && t.writes == [] else
      && WritesIn(t.writes, t.held)
      && (BeforeLock(sections, t) || BetweenLocks(sections, t) || UnderLock(sections, t) || UnderBothLocks(sections, t))
  }

  // Rows are never deleted and never change hands.
  ghost predicate Grows(sections: map<SectionId, Section>, sections': map<SectionId, Section>) {
    && sections'.Keys == sections.Keys
    && forall s, id | s in sections && id in sections[s].rows ::
         id in sections'[s].rows && sections'[s].rows[id].student == sections[s].rows[id].student
  }

  // Someone else's commit leaves a transaction's sections, hence its view, alone.
  lemma Undisturbed(sections: map<SectionId, Section>, sections': map<SectionId, Section>, t: Txn)
    requires GoodTxn(sections, t) && Grows(sections, sections')
    requires forall s <- t.held :: s in sections && sections'[s] == sections[s]
    ensures GoodTxn(sections', t)
  {
    hide GoodEnrollPc, GoodDropPc, GoodPromotePc, GoodReorderPc, GoodExpirePc, GoodEditPc, GoodSwapPc;
    if UnderLock(sections, t) {
      assert t.home in t.held;
      assert UnderLock(sections', t);
    } else if UnderBothLocks(sections, t) {
      assert t.home in t.held && t.req.target in t.held;
      assert UnderBothLocks(sections', t);
    } else if BetweenLocks(sections, t) {
      assert BetweenLocks(sections', t);
    } else if BeforeLock(sections, t) {
      assert BeforeLock(sections', t);
    }
  }

  // ------------------------------------------------------------ own steps

  lemma PreLockStep(cat: Catalog, sections: map<SectionId, Section>, t: Txn, now: nat, hold: bool)
    requires BeforeLock(sections, t) && Wants(t).None? && !t.pc.Ready? && !t.pc.Failed?
    ensures var t' := Exec(cat, sections, t, now, hold);
            BeforeLock(sections, t') && t'.req == t.req
  {
    hide HomeOf, ExecEnrollWrites, ExecSwapWrites, ExecPromote, ExecReorder, ExecExpire, ExecEdit, Seen, HolderRow;
    hide ViewAll;
    hide DuplicateCourse, PrerequisitesMet, ClashesWith, CreditSum, Others, OthersInTerm, Ordered, Waiting;
  }

  // A statement appends at most one write, to a section in `own`.
  ghost predicate Appends(t: Txn, t': Txn, own: set<SectionId>) {
    && t'.req == t.req && t'.home == t.home && t'.held == t.held
    && (t'.writes == t.writes
        || (|t'.writes| == |t.writes| + 1 && t'.writes[..|t.writes|] == t.writes
            && var w := t'.writes[|t.writes|]; (w.PutRow? || w.PutCols? ==> w.section in own)))
  }

  lemma AppendsWithin(t: Txn, t': Txn, own: set<SectionId>)
    requires Appends(t, t', own) && own <= t.held && WritesIn(t.writes, t.held)
    ensures WritesIn(t'.writes, t'.held)
  {
    forall w | w in t'.writes && (w.PutRow? || w.PutCols?)
      ensures w.section in t.held
    {
      var k :| 0 <= k < |t'.writes| && t'.writes[k] == w;
      if k < |t.writes| { assert t'.writes[..|t.writes|][k] == w; }
    }
  }

  lemma EnrollAppends(cat: Catalog, sections: map<SectionId, Section>, t: Txn, e: EnrollPc, now: nat, hold: bool)
    requires t.req.Enroll? && t.home == t.req.section
    ensures Appends(t, ExecEnroll(cat, sections, t, e, now, hold), {t.home})
  {
    hide View, ViewAll, Others, OthersInTerm, DuplicateCourse, PrerequisitesMet, ClashesWith, CreditSum, Gate;
    hide HolderRow, ActiveOf;
  }

  lemma SwapAppends(cat: Catalog, sections: map<SectionId, Section>, t: Txn, w: SwapPc, now: nat, hold: bool)
    requires t.req.Swap? && !w.SwapRead?
    ensures Appends(t, ExecSwap(cat, sections, t, w, now, hold), {t.home, t.req.target})
  {
    hide View, ViewAll, Others, OthersInTerm, DuplicateCourse, PrerequisitesMet, ClashesWith, CreditSum, Gate, ActiveOf;
    hide ExecSwapRead;
  }

  lemma OtherAppends(cat: Catalog, sections: map<SectionId, Section>, t: Txn, now: nat, hold: bool)
    requires match t.pc
             case Dropping(d) => t.req.Drop? && !d.DropRead?
             case Promoting(_) => t.req.Promote? && t.req.section == t.home
             case Reordering(_) => t.req.Reorder? && t.req.section == t.home
             case Expiring(_) => t.req.Expire? && t.req.section == t.home
             case Editing(_) => t.req.Edit? && t.req.section == t.home
             case _ => false
    ensures Appends(t, Exec(cat, sections, t, now, hold), {t.home})
  {
    hide View, HomeOf, Ordered, First, Waiting, Waiters;
  }

  lemma UnderLockStep(cat: Catalog, sections: map<SectionId, Section>, t: Txn, now: nat, hold: bool)
    requires UnderLock(sections, t) && SeatInvariant(sections[t.home]) && (t.req.Reorder? ==> Distinct(t.req.order))
    requires t.Unfinished() && !t.pc.Ready? && !t.pc.Failed? && WritesIn(t.writes, t.held)
    ensures var t' := Exec(cat, sections, t, now, hold);
            UnderLock(sections, t') && t'.req == t.req && t'.held == t.held && WritesIn(t'.writes, t'.held)
  {
    var s := t.home;
    var sec := sections[s];
    var t' := Exec(cat, sections, t, now, hold);
    match t.req {
      case Enroll(_, _, _) => EnrollStep(cat, sections, t, t.pc.e, now, hold, s, sec, t');
      case Drop(id) => DropStep(sections, t, t.pc.d, s, sec, id, t');
      case Promote(_) => PromoteStep(cat, sections, t, t.pc.p, now, s, sec, t');
      case Reorder(_, order) => ReorderStep(sections, t, t.pc.r, s, sec, order, t');
      case Expire(_) => ExpireStep(sections, t, t.pc.x, s, sec, t');
      case Edit(_, _, _) => EditStep(sections, t, t.pc.u, s, sec, t');
    }
    if t.pc.Enrolling? {
      EnrollAppends(cat, sections, t, t.pc.e, now, hold);
    } else {
      OtherAppends(cat, sections, t, now, hold);
    }
    AppendsWithin(t, t', {s});
    hide ExecEnroll, ExecDrop, ExecPromote, ExecReorder, ExecExpire, ExecEdit, SeatInvariant;
    hide GoodEnroll, GoodDrop, GoodPromote, GoodReorder, GoodExpire, GoodEdit, Wrote, WritesIn;
  }

  lemma UnderBothStep(cat: Catalog, sections: map<SectionId, Section>, t: Txn, now: nat, hold: bool)
    requires UnderBothLocks(sections, t) && SeatInvariant(sections[t.home]) && SeatInvariant(sections[t.req.target])
    requires t.Unfinished() && !t.pc.Ready? && !t.pc.Failed? && WritesIn(t.writes, t.held)
    ensures var t' := Exec(cat, sections, t, now, hold);
            UnderBothLocks(sections, t') && t'.req == t.req && t'.held == t.held && WritesIn(t'.writes, t'.held)
  {
    var t' := Exec(cat, sections, t, now, hold);
    SwapStep(cat, sections, t, t.pc.w, now, hold, sections[t.home], sections[t.req.target], t');
    SwapAppends(cat, sections, t, t.pc.w, now, hold);
    AppendsWithin(t, t', {t.home, t.req.target});
    hide ExecSwap, SeatInvariant, GoodSwap, Wrote, WritesIn;
  }
}
