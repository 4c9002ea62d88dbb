// Overlapping calls on one token family, statement by statement: for each way
// two calls can break a family, exactly which schedules do.
module RefreshFork {
  import opened Registry
  import opened Tokens
  import opened RefreshRace

  predicate By(m: Move, c: CallId) { m.Go? && m.c == c }

  // How many statements of c there are among the moves.
  function Statements(moves: seq<Move>, c: CallId): nat {
    if moves == [] then 0 else
      Statements(moves[..|moves| - 1], c) + if By(moves[|moves| - 1], c) then 1 else 0
  }

  ghost function OfFamily(v: Vault, f: Family): Table {
    map s | s in v.tokens && v.tokens[s].family == f :: v.tokens[s]
  }

  // The family's tokens are touched by the given calls and by logouts with the
  // given tokens only. Everything else goes on around them.
  ghost predicate Beside(w: World, m: Move, ttl: nat, f: Family, calls: set<CallId>, leaving: set<Secret>)
    requires CanMove(w, m)
  {
    || (m.Go? && m.c in calls)
    || (m.Other? && m.e.Logout? && m.e.presented in leaving)
    || OfFamily(Moved(w, m, ttl).vault, f) == OfFamily(w.vault, f)
  }

  ghost predicate RunsBeside(w: World, moves: seq<Move>, w': World, ttl: nat,
                             f: Family, calls: set<CallId>, leaving: set<Secret>)
    decreases |moves|
  {
    if moves == [] then w' == w else
      && CanMove(w, moves[0]) && Beside(w, moves[0], ttl, f, calls, leaving)
      && RunsBeside(Moved(w, moves[0], ttl), moves[1..], w', ttl, f, calls, leaving)
  }

  lemma ClockOn(w: World, m: Move, ttl: nat)
    requires CanMove(w, m)
    ensures Moved(w, m, ttl).vault.clock >= w.vault.clock
    ensures m.Go? ==> Moved(w, m, ttl).vault.clock == m.now
  {
  }

  lemma {:induction false} ClockRuns(w: World, moves: seq<Move>, w': World, ttl: nat,
                                     f: Family, calls: set<CallId>, leaving: set<Secret>)
    requires RunsBeside(w, moves, w', ttl, f, calls, leaving)
    ensures w'.vault.clock >= w.vault.clock
    decreases |moves|
  {
    if moves != [] {
      ClockOn(w, moves[0], ttl);
      hide CanMove, Moved, Beside;
      ClockRuns(Moved(w, moves[0], ttl), moves[1..], w', ttl, f, calls, leaving);
    }
  }

  // -------------------------------------------------------------- dead families

  // Whatever runs and however it overlaps: a dead family that no refresh is
  // inside stays dead, and no refresh gets inside.
  lemma DeadMove(w: World, m: Move, ttl: nat, f: Family)
    requires CanMove(w, m) && Dead(w.vault, f) && !Busy(w, f)
    ensures Dead(Moved(w, m, ttl).vault, f) && !Busy(Moved(w, m, ttl), f)
  {
    var w' := Moved(w, m, ttl);
    hide FreshSecret, Unissued;
    match m
    case Begin(c, _, _) => NoneEnters(w, w', c, f);
    case Go(c, now) =>
      assert !Inside(w.calls[c], f);
      NoneEnters(w, w', c, f);
    case Other(e) => assert w'.calls == w.calls;
  }

  lemma NoneEnters(w: World, w': World, c: CallId, f: Family)
    requires !Busy(w, f) && c in w'.calls && !Inside(w'.calls[c], f)
    requires forall d <- w'.calls | d != c :: d in w.calls && w'.calls[d] == w.calls[d]
    ensures !Busy(w', f)
  {
  }

  ghost predicate Run(w: World, moves: seq<Move>, w': World, ttl: nat)
    decreases |moves|
  {
    if moves == [] then w' == w else CanMove(w, moves[0]) && Run(Moved(w, moves[0], ttl), moves[1..], w', ttl)
  }

  lemma {:induction false} DeadAndQuietStaysDead(w: World, moves: seq<Move>, w': World, ttl: nat, f: Family)
    requires Run(w, moves, w', ttl) && Dead(w.vault, f) && !Busy(w, f)
    ensures Dead(w'.vault, f) && !Busy(w', f)
    decreases |moves|
  {
    if moves != [] {
      DeadMove(w, moves[0], ttl, f);
      hide Dead, Busy, CanMove, Moved;
      DeadAndQuietStaysDead(Moved(w, moves[0], ttl), moves[1..], w', ttl, f);
    }
  }

  // The row a call has read, once it has, is its family's owner's.
  ghost predicate ReadsOwned(call: Call, owner: map<Family, UserId>) {
    match call.pc
    case Creating(stored) => stored.family in owner && owner[stored.family] == stored.user
    case Finding(stored) => stored.family in owner && owner[stored.family] == stored.user
    case Updating(stored, _) => stored.family in owner && owner[stored.family] == stored.user
    case _ => true
  }

  ghost predicate AllOwned(w: World, owner: map<Family, UserId>) {
    OwnedBy(w.vault, owner) && forall c <- w.calls :: ReadsOwned(w.calls[c], owner)
  }

  ghost function OwnersOn(owner: map<Family, UserId>, m: Move): map<Family, UserId> {
    if m.Other? then OwnersAfter(owner, m.e) else owner
  }

  lemma OwnersMove(w: World, m: Move, ttl: nat, owner: map<Family, UserId>)
    requires AllOwned(w, owner) && CanMove(w, m)
    ensures AllOwned(Moved(w, m, ttl), OwnersOn(owner, m))
  {
    hide FreshSecret, After, Can;
    match m
    case Begin(_, _, _) =>
    case Go(c, now) => OwnersGo(w.vault, w.calls[c], now, ttl, owner);
    case Other(e) => OwnersElse(w, e, ttl, owner);
  }

  lemma OwnersGo(v: Vault, call: Call, now: nat, ttl: nat, owner: map<Family, UserId>)
    requires OwnedBy(v, owner) && ReadsOwned(call, owner)
    ensures var (v', pc) := Executed(v, call, now, ttl);
            OwnedBy(v', owner) && ReadsOwned(call.(pc := pc), owner)
  {
  }

  lemma OwnersElse(w: World, e: Step, ttl: nat, owner: map<Family, UserId>)
    requires AllOwned(w, owner) && CanMove(w, Other(e))
    ensures AllOwned(w.(vault := After(w.vault, e, ttl)), OwnersAfter(owner, e))
  {
    OwnersStep(w.vault, e, ttl, owner);
    assert e.Login? ==> e.family !in owner;
    hide After, OwnedBy, FreshSecret;
  }

  lemma {:induction false} OwnersRun(w: World, moves: seq<Move>, w': World, ttl: nat, owner: map<Family, UserId>)
    returns (owner': map<Family, UserId>)
    requires AllOwned(w, owner) && Run(w, moves, w', ttl)
    ensures AllOwned(w', owner')
    decreases |moves|
  {
    owner' := owner;
    if moves != [] {
      OwnersMove(w, moves[0], ttl, owner);
      hide AllOwned, CanMove, Moved;
      owner' := OwnersRun(Moved(w, moves[0], ttl), moves[1..], w', ttl, OwnersOn(owner, moves[0]));
    }
  }

  // In any interleaved run whatever, forks included, the tokens of a family are
  // all one user's.
  lemma OneUserPerFamily(start: nat, moves: seq<Move>, w: World, ttl: nat, s: Secret, t: Secret)
    requires Run(World(Vault(map[], map[], start), map[]), moves, w, ttl)
    requires s in w.vault.tokens && t in w.vault.tokens && w.vault.tokens[s].family == w.vault.tokens[t].family
    ensures w.vault.tokens[s].user == w.vault.tokens[t].user
  {
    var owner := OwnersRun(World(Vault(map[], map[], start), map[]), moves, w, ttl, map[]);
    hide Run;
  }

  // ------------------------------------------------- two refreshes of one token

  // A call's next statement after k of them: `live` says that its read found
  // the token live.
  function PcAt(stored: Token, next: Secret, k: nat, live: bool): Pc {
    if k == 0 then Reading
    else if live then
      (if k == 1 then Creating(stored) else if k == 2 then Finding(stored)
       else if k == 3 then Updating(stored, Some(next)) else Ended(Pair(next)))
    else if k == 1 then Revoking(stored.family) else Ended(REUSE_DETECTED)
  }

  // Some statement of x, so its read too, came before the n-th of y.
  ghost predicate ReadsInTime(moves: seq<Move>, x: CallId, y: CallId, n: nat) {
    exists i | 0 <= i < |moves| :: By(moves[i], x) && Statements(moves[..i], y) < n
  }

  // Call c presents p and has made k statements.
  ghost predicate At(w: World, c: CallId, p: Secret, next: Secret, stored: Token, k: nat, live: bool) {
    && c in w.calls && w.calls[c] == Call(p, next, PcAt(stored, next, k, live))
    && k <= (if live then 4 else 2) && (k == 0 ==> !live)
  }

  // The token next is in the family exactly from the call's second statement on.
  ghost predicate Born(tokens: Table, next: Secret, k: nat, live: bool, revoked: bool) {
    && (next in tokens <==> live && k >= 2)
    && (next in tokens ==> Live(tokens[next]) == !revoked)
  }

  ghost predicate Racing(w: World, stored: Token, p: Secret, a: CallId, b: CallId, na: Secret, nb: Secret,
                         ka: nat, kb: nat, la: bool, lb: bool)
  {
    var tokens := OfFamily(w.vault, stored.family);
    && a != b && p != na && p != nb && na != nb && Live(stored)
    && At(w, a, p, na, stored, ka, la) && At(w, b, p, nb, stored, kb, lb)
    && (ka > 0 && !la ==> lb && kb == 4) && (kb > 0 && !lb ==> la && ka == 4)
    && p in tokens && (if (la && ka == 4) || (lb && kb == 4) then !Live(tokens[p]) else tokens[p] == stored)
    && Born(tokens, na, ka, la, !lb && kb == 2) && Born(tokens, nb, kb, lb, !la && ka == 2)
    && forall s <- tokens | s != p && s != na && s != nb :: !Live(tokens[s])
  }

  lemma RacingTurns(w: World, stored: Token, p: Secret, a: CallId, b: CallId, na: Secret, nb: Secret,
                    ka: nat, kb: nat, la: bool, lb: bool)
    requires Racing(w, stored, p, a, b, na, nb, ka, kb, la, lb)
    ensures Racing(w, stored, p, b, a, nb, na, kb, ka, lb, la)
  {
    hide OfFamily;
  }

  // What one statement does to the family's tokens.
  lemma FamilyAfter(v: Vault, call: Call, now: nat, ttl: nat, f: Family)
    requires call.pc.Creating? ==> call.pc.stored.family == f
    requires call.pc.Revoking? ==> call.pc.family == f
    requires call.pc.Updating? ==> call.presented in OfFamily(v, f)
    ensures var tokens, tokens' := OfFamily(v, f), OfFamily(Executed(v, call, now, ttl).0, f);
            match call.pc
            case Creating(stored) => tokens' == tokens[call.next := Token(stored.user, f, now + ttl, None, None)]
            case Updating(_, replacement) =>
              tokens' == tokens[call.presented := tokens[call.presented].(revokedAt := Some(now),
                    replacedBy := replacement)]
            case Revoking(_) => tokens' == FamilyRevoked(tokens, f, now)
            case _ => tokens' == tokens
  {
    hide Live;
  }

  lemma RacingStatement(w: World, now: nat, ttl: nat, stored: Token, p: Secret, a: CallId, b: CallId,
                        na: Secret, nb: Secret, ka: nat, kb: nat, la: bool, lb: bool)
    requires Racing(w, stored, p, a, b, na, nb, ka, kb, la, lb) && CanMove(w, Go(a, now)) && now <= stored.expiresAt
    ensures Racing(Executing(w, a, now, ttl), stored, p, a, b, na, nb, ka + 1, kb, la || (ka == 0 && kb < 4), lb)
  {
    var f := stored.family;
    FamilyAfter(w.vault, w.calls[a], now, ttl, f);
    hide FamilyRevoked;
    if w.calls[a].pc.Revoking? { AllRevoked(OfFamily(w.vault, f), f, now); }
  }

  lemma AllRevoked(tokens: Table, f: Family, now: nat)
    requires forall s <- tokens :: tokens[s].family == f
    ensures var tokens' := FamilyRevoked(tokens, f, now);
            tokens'.Keys == tokens.Keys && forall s <- tokens' :: !Live(tokens'[s])
  {
  }

  lemma MoreMoves(moves: seq<Move>, m: Move, x: CallId, y: CallId, n: nat)
    ensures Statements(moves + [m], x) == Statements(moves, x) + if By(m, x) then 1 else 0
    ensures ReadsInTime(moves + [m], x, y, n) == (ReadsInTime(moves, x, y, n) || (By(m, x) && Statements(moves, y) < n))
  {
    var all := moves + [m];
    assert all[..|moves|] == moves;
    assert forall i | 0 <= i < |moves| :: all[..i] == moves[..i] && all[i] == moves[i];
    hide Statements;
    if ReadsInTime(moves, x, y, n) {
      var i :| 0 <= i < |moves| && By(moves[i], x) && Statements(moves[..i], y) < n;
      assert By(all[i], x) && Statements(all[..i], y) < n;
    }
    if By(m, x) && Statements(moves, y) < n { assert By(all[|moves|], x) && Statements(all[..|moves|], y) < n; }
  }

  lemma RacingMove(w: World, m: Move, ttl: nat, stored: Token, p: Secret, a: CallId, b: CallId,
                   na: Secret, nb: Secret, done: seq<Move>)
    requires Racing(w, stored, p, a, b, na, nb, Statements(done, a), Statements(done, b),
                    ReadsInTime(done, a, b, 4), ReadsInTime(done, b, a, 4))
    requires CanMove(w, m) && Beside(w, m, ttl, stored.family, {a, b}, {})
    requires Moved(w, m, ttl).vault.clock <= stored.expiresAt
    ensures Racing(Moved(w, m, ttl), stored, p, a, b, na, nb, Statements(done + [m], a), Statements(done + [m], b),
                   ReadsInTime(done + [m], a, b, 4), ReadsInTime(done + [m], b, a, 4))
  {
    hide Racing, OfFamily, Statements, ReadsInTime, Executing;
    ClockOn(w, m, ttl);
    MoreMoves(done, m, a, b, 4);
    MoreMoves(done, m, b, a, 4);
    var ka, kb := Statements(done, a), Statements(done, b);
    var la, lb := ReadsInTime(done, a, b, 4), ReadsInTime(done, b, a, 4);
    RacingReads(w, stored, p, a, b, na, nb, ka, kb, la, lb);
    if By(m, a) {
      RacingStatement(w, m.now, ttl, stored, p, a, b, na, nb, ka, kb, la, lb);
    } else if By(m, b) {
      RacingTurns(w, stored, p, a, b, na, nb, ka, kb, la, lb);
      RacingStatement(w, m.now, ttl, stored, p, b, a, nb, na, kb, ka, lb, la);
      RacingTurns(Moved(w, m, ttl), stored, p, b, a, nb, na, kb + 1, ka, lb || (kb == 0 && ka < 4), la);
    } else {
      OthersMove(w, m, ttl, stored.family, {a, b}, {});
      RacingStays(w, Moved(w, m, ttl), stored, p, a, b, na, nb, ka, kb, la, lb);
    }
  }

  // A call that has made statements read in time exactly if it found the token
  // live; a further statement while the other has not spent it is no news.
  lemma RacingReads(w: World, stored: Token, p: Secret, a: CallId, b: CallId, na: Secret, nb: Secret,
                    ka: nat, kb: nat, la: bool, lb: bool)
    requires Racing(w, stored, p, a, b, na, nb, ka, kb, la, lb)
    ensures a != b && (ka > 0 && kb < 4 ==> la)
    ensures kb > 0 && ka < 4 ==> lb
  {
    hide OfFamily;
  }

  lemma OthersMove(w: World, m: Move, ttl: nat, f: Family, calls: set<CallId>, leaving: set<Secret>)
    requires CanMove(w, m) && Beside(w, m, ttl, f, calls, leaving)
    requires !(m.Go? && m.c in calls) && !(m.Other? && m.e.Logout? && m.e.presented in leaving)
    ensures OfFamily(Moved(w, m, ttl).vault, f) == OfFamily(w.vault, f)
    ensures forall c <- calls | c in w.calls :: c in Moved(w, m, ttl).calls && Moved(w, m, ttl).calls[c] == w.calls[c]
  {
    hide OfFamily, FreshSecret, Unissued;
  }

  lemma RacingStays(w: World, w': World, stored: Token, p: Secret, a: CallId, b: CallId, na: Secret, nb: Secret,
                    ka: nat, kb: nat, la: bool, lb: bool)
    requires Racing(w, stored, p, a, b, na, nb, ka, kb, la, lb)
    requires OfFamily(w'.vault, stored.family) == OfFamily(w.vault, stored.family)
    requires forall c <- {a, b} | c in w.calls :: c in w'.calls && w'.calls[c] == w.calls[c]
    ensures Racing(w', stored, p, a, b, na, nb, ka, kb, la, lb)
  {
    hide OfFamily;
  }

  lemma {:induction false} RacingRuns(w: World, moves: seq<Move>, w': World, ttl: nat, stored: Token, p: Secret,
                                      a: CallId, b: CallId, na: Secret, nb: Secret, done: seq<Move>)
    requires Racing(w, stored, p, a, b, na, nb, Statements(done, a), Statements(done, b),
                    ReadsInTime(done, a, b, 4), ReadsInTime(done, b, a, 4))
    requires RunsBeside(w, moves, w', ttl, stored.family, {a, b}, {}) && w'.vault.clock <= stored.expiresAt
    ensures Racing(w', stored, p, a, b, na, nb, Statements(done + moves, a), Statements(done + moves, b),
                   ReadsInTime(done + moves, a, b, 4), ReadsInTime(done + moves, b, a, 4))
    decreases |moves|
  {
    if moves == [] {
      assert done + moves == done;
    } else {
      assert done + moves == (done + [moves[0]]) + moves[1..];
      ClockRuns(Moved(w, moves[0], ttl), moves[1..], w', ttl, stored.family, {a, b}, {});
      hide Racing, OfFamily, Statements, ReadsInTime, CanMove, Moved, Beside;
      RacingMove(w, moves[0], ttl, stored, p, a, b, na, nb, done);
      RacingRuns(Moved(w, moves[0], ttl), moves[1..], w', ttl, stored, p, a, b, na, nb, done + [moves[0]]);
    }
  }

  // A refresh call about to start, with a secret of its own.
  ghost predicate Starting(w: World, c: CallId, p: Secret) {
    c in w.calls && w.calls[c].presented == p && w.calls[c].pc.Reading? && FreshSecret(w.vault, w.calls[c].next)
  }

  // The live tokens of a family.
  ghost function LiveIn(v: Vault, f: Family): set<Secret> {
    set s | s in v.tokens && v.tokens[s].family == f && Live(v.tokens[s])
  }

  lemma LiveAlone(v: Vault, p: Secret, ttl: nat)
    requires Inv(v, ttl) && p in v.tokens && Live(v.tokens[p])
    ensures forall s <- OfFamily(v, v.tokens[p].family) | s != p :: !Live(v.tokens[s])
  {
    forall s <- OfFamily(v, v.tokens[p].family) | Live(v.tokens[s])
      ensures s == p
    {
      OneLivePerFamily(v, ttl, p, s);
    }
  }

  // Two refreshes of one live, unexpired token, each run to its end: each reads
  // before the other's update exactly if both answer with a pair and the family
  // is forked, with both new tokens live. Otherwise the family is dead.
  lemma TwoRefreshesForkIff(w: World, moves: seq<Move>, w': World, ttl: nat, p: Secret, a: CallId, b: CallId)
    requires Inv(w.vault, ttl) && p in w.vault.tokens && Live(w.vault.tokens[p])
    requires a != b && Starting(w, a, p) && Starting(w, b, p) && w.calls[a].next != w.calls[b].next
    requires RunsBeside(w, moves, w', ttl, w.vault.tokens[p].family, {a, b}, {})
    requires w'.vault.clock <= w.vault.tokens[p].expiresAt
    requires a in w'.calls && b in w'.calls && Finished(w'.calls[a].pc) && Finished(w'.calls[b].pc)
    ensures var bothInTime := ReadsInTime(moves, a, b, 4) && ReadsInTime(moves, b, a, 4);
            var na, nb := w.calls[a].next, w.calls[b].next;
            && bothInTime == (w'.calls[a].pc == Ended(Pair(na)) && w'.calls[b].pc == Ended(Pair(nb)))
            && LiveIn(w'.vault, w.vault.tokens[p].family) == if bothInTime then {na, nb} else {}
  {
    var stored, na, nb := w.vault.tokens[p], w.calls[a].next, w.calls[b].next;
    LiveAlone(w.vault, p, ttl);
    RacingStart(w, stored, p, a, b, na, nb);
    hide Inv, Racing, RunsBeside, LiveIn;
    assert [] + moves == moves;
    RacingRuns(w, moves, w', ttl, stored, p, a, b, na, nb, []);
    RacingEnd(w', stored, p, a, b, na, nb, Statements(moves, a), Statements(moves, b),
              ReadsInTime(moves, a, b, 4), ReadsInTime(moves, b, a, 4));
  }

  lemma RacingStart(w: World, stored: Token, p: Secret, a: CallId, b: CallId, na: Secret, nb: Secret)
    requires p in w.vault.tokens && stored == w.vault.tokens[p] && Live(stored)
    requires forall s <- OfFamily(w.vault, stored.family) | s != p :: !Live(w.vault.tokens[s])
    requires a != b && Starting(w, a, p) && Starting(w, b, p)
    requires na == w.calls[a].next && nb == w.calls[b].next && na != nb
    ensures Racing(w, stored, p, a, b, na, nb, Statements([], a), Statements([], b),
                   ReadsInTime([], a, b, 4), ReadsInTime([], b, a, 4))
  {
  }

  lemma RacingEnd(w: World, stored: Token, p: Secret, a: CallId, b: CallId, na: Secret, nb: Secret,
                  ka: nat, kb: nat, la: bool, lb: bool)
    requires Racing(w, stored, p, a, b, na, nb, ka, kb, la, lb)
    requires Finished(w.calls[a].pc) && Finished(w.calls[b].pc)
    ensures (la && lb) == (w.calls[a].pc == Ended(Pair(na)) && w.calls[b].pc == Ended(Pair(nb)))
    ensures LiveIn(w.vault, stored.family) == if la && lb then {na, nb} else {}
  {
    assert forall s :: s in LiveIn(w.vault, stored.family) <==>
        s in OfFamily(w.vault, stored.family) && Live(OfFamily(w.vault, stored.family)[s]);
    hide OfFamily, LiveIn;
  }

  // Every schedule can be run out: a call that has not ended can always move.
  lemma {:induction false} RacingFinishes(w: World, now: nat, ttl: nat, stored: Token, p: Secret, a: CallId, b: CallId,
                                          na: Secret, nb: Secret, ka: nat, kb: nat, la: bool, lb: bool)
    returns (moves: seq<Move>, w': World)
    requires Racing(w, stored, p, a, b, na, nb, ka, kb, la, lb) && w.vault.clock <= now <= stored.expiresAt
    ensures RunsBeside(w, moves, w', ttl, stored.family, {a, b}, {}) && w'.vault.clock <= now
    ensures a in w'.calls && b in w'.calls && Finished(w'.calls[a].pc) && Finished(w'.calls[b].pc)
    decreases 8 - ka - kb
  {
    hide OfFamily, RunsBeside, Executing, Born;
    if !Finished(w.calls[a].pc) {
      ClockOn(w, Go(a, now), ttl);
      RacingStatement(w, now, ttl, stored, p, a, b, na, nb, ka, kb, la, lb);
      moves, w' := RacingFinishes(Executing(w, a, now, ttl), now, ttl, stored, p, a, b, na, nb,
                                  ka + 1, kb, la || (ka == 0 && kb < 4), lb);
      OneMore(w, Go(a, now), moves, w', ttl, stored.family, {a, b}, {});
      moves := [Go(a, now)] + moves;
    } else if !Finished(w.calls[b].pc) {
      ClockOn(w, Go(b, now), ttl);
      RacingTurns(w, stored, p, a, b, na, nb, ka, kb, la, lb);
      RacingStatement(w, now, ttl, stored, p, b, a, nb, na, kb, ka, lb, la);
      RacingTurns(Executing(w, b, now, ttl), stored, p, b, a, nb, na, kb + 1, ka, lb || (kb == 0 && ka < 4), la);
      moves, w' := RacingFinishes(Executing(w, b, now, ttl), now, ttl, stored, p, a, b, na, nb,
                                  ka, kb + 1, la, lb || (kb == 0 && ka < 4));
      OneMore(w, Go(b, now), moves, w', ttl, stored.family, {a, b}, {});
      moves := [Go(b, now)] + moves;
    } else {
      moves, w' := [], w;
      assert RunsBeside(w, moves, w', ttl, stored.family, {a, b}, {}) by { NoMove(w, ttl, stored.family, {a, b}, {}); }
    }
  }

  lemma NoMove(w: World, ttl: nat, f: Family, calls: set<CallId>, leaving: set<Secret>)
    ensures RunsBeside(w, [], w, ttl, f, calls, leaving)
  {
  }

  lemma OneMore(w: World, m: Move, moves: seq<Move>, w': World, ttl: nat,
                f: Family, calls: set<CallId>, leaving: set<Secret>)
    requires CanMove(w, m) && Beside(w, m, ttl, f, calls, leaving)
    requires RunsBeside(Moved(w, m, ttl), moves, w', ttl, f, calls, leaving)
    ensures RunsBeside(w, [m] + moves, w', ttl, f, calls, leaving)
  {
    assert ([m] + moves)[1..] == moves;
    hide CanMove, Beside, Moved;
  }

  // And a fork is within reach whenever two refreshes of a live, unexpired
  // token are about to start.
  lemma ForkHappens(w: World, now: nat, ttl: nat, p: Secret, a: CallId, b: CallId) returns (moves: seq<Move>, w': World)
    requires Inv(w.vault, ttl) && p in w.vault.tokens && Live(w.vault.tokens[p])
    requires a != b && Starting(w, a, p) && Starting(w, b, p) && w.calls[a].next != w.calls[b].next
    requires w.vault.clock <= now <= w.vault.tokens[p].expiresAt
    ensures RunsBeside(w, moves, w', ttl, w.vault.tokens[p].family, {a, b}, {})
    ensures LiveIn(w'.vault, w.vault.tokens[p].family) == {w.calls[a].next, w.calls[b].next}
  {
    var stored, na, nb := w.vault.tokens[p], w.calls[a].next, w.calls[b].next;
    var f := stored.family;
    LiveAlone(w.vault, p, ttl);
    RacingStart(w, stored, p, a, b, na, nb);
    assert Racing(w, stored, p, a, b, na, nb, 0, 0, false, false);
    hide Inv, RunsBeside, LiveIn, OfFamily, Executing, Born;
    var w1, w2 := Executing(w, a, now, ttl), Executing(Executing(w, a, now, ttl), b, now, ttl);
    ClockOn(w, Go(a, now), ttl);
    RacingStatement(w, now, ttl, stored, p, a, b, na, nb, 0, 0, false, false);
    RacingTurns(w1, stored, p, a, b, na, nb, 1, 0, true, false);
    ClockOn(w1, Go(b, now), ttl);
    RacingStatement(w1, now, ttl, stored, p, b, a, nb, na, 0, 1, false, true);
    RacingTurns(w2, stored, p, b, a, nb, na, 1, 1, true, true);
    moves, w' := RacingFinishes(w2, now, ttl, stored, p, a, b, na, nb, 1, 1, true, true);
    OneMore(w1, Go(b, now), moves, w', ttl, f, {a, b}, {});
    OneMore(w, Go(a, now), [Go(b, now)] + moves, w', ttl, f, {a, b}, {});
    moves := [Go(a, now)] + ([Go(b, now)] + moves);
    InTimeBoth(moves, now, a, b);
    hide *;
    TwoRefreshesForkIff(w, moves, w', ttl, p, a, b);
  }

  lemma InTimeBoth(moves: seq<Move>, now: nat, a: CallId, b: CallId)
    requires a != b && |moves| >= 2 && moves[0] == Go(a, now) && moves[1] == Go(b, now)
    ensures ReadsInTime(moves, a, b, 4) && ReadsInTime(moves, b, a, 4)
  {
    assert By(moves[0], a) && Statements(moves[..0], b) < 4;
    assert moves[..1] == [Go(a, now)];
    assert By(moves[1], b) && Statements(moves[..1], a) < 4;
  }

  // ------------------------------------------- a refresh and a replay

  // The second statement of b, its revocation, found a between its read and its
  // creation.
  ghost predicate RevokesInGap(moves: seq<Move>, a: CallId, b: CallId) {
    exists i | 0 <= i < |moves| :: By(moves[i], b) && Statements(moves[..i], b) == 1 && Statements(moves[..i], a) == 1
  }

  // a refreshes the live p, b replays the spent q of the same family.
  ghost predicate Replaying(w: World, stored: Token, p: Secret, q: Secret, a: CallId, b: CallId, na: Secret, nb: Secret,
                            ka: nat, kb: nat, la: bool, gap: bool)
  {
    var tokens := OfFamily(w.vault, stored.family);
    && a != b && p != na && q != na && p != q && Live(stored)
    && At(w, a, p, na, stored, ka, la) && At(w, b, q, nb, stored, kb, false)
    && (ka > 0 && !la ==> kb == 2) && (gap ==> kb == 2 && la) && (kb == 2 && la && !gap ==> ka >= 2)
    && p in tokens && (if (la && ka == 4) || kb == 2 then !Live(tokens[p]) else tokens[p] == stored)
    && q in tokens && Born(tokens, na, ka, la, kb == 2 && !gap)
    && forall s <- tokens | s != p && s != na :: !Live(tokens[s])
  }

  lemma ReplayingStatement(w: World, now: nat, ttl: nat, stored: Token, p: Secret, q: Secret, a: CallId, b: CallId,
                           na: Secret, nb: Secret, ka: nat, kb: nat, la: bool, gap: bool)
    requires Replaying(w, stored, p, q, a, b, na, nb, ka, kb, la, gap) && now <= stored.expiresAt
    ensures CanMove(w, Go(a, now)) ==>
              Replaying(Executing(w, a, now, ttl), stored, p, q, a, b, na, nb, ka + 1, kb, la || (ka == 0 && kb < 2),
                        gap)
    ensures CanMove(w, Go(b, now)) ==>
              Replaying(Executing(w, b, now, ttl), stored, p, q, a, b, na, nb, ka, kb + 1, la,
                        gap || (kb == 1 && ka == 1))
  {
    var f := stored.family;
    var tokens := OfFamily(w.vault, f);
    FamilyOnly(w.vault, f);
    hide FamilyRevoked, OfFamily;
    if CanMove(w, Go(a, now)) {
      FamilyAfter(w.vault, w.calls[a], now, ttl, f);
      if w.calls[a].pc.Revoking? { AllRevoked(tokens, f, now); }
    }
    if CanMove(w, Go(b, now)) {
      FamilyAfter(w.vault, w.calls[b], now, ttl, f);
      if w.calls[b].pc.Revoking? { AllRevoked(tokens, f, now); }
    }
  }

  lemma FamilyOnly(v: Vault, f: Family)
    ensures forall s <- OfFamily(v, f) ::
            OfFamily(v, f)[s].family == f && s in v.tokens && OfFamily(v, f)[s] == v.tokens[s]
    ensures forall s <- v.tokens | v.tokens[s].family == f :: s in OfFamily(v, f)
  {
  }

  lemma MoreGap(moves: seq<Move>, m: Move, a: CallId, b: CallId)
    ensures RevokesInGap(moves + [m], a, b) ==
              (RevokesInGap(moves, a, b) || (By(m, b) && Statements(moves, b) == 1 && Statements(moves, a) == 1))
  {
    var all := moves + [m];
    assert all[..|moves|] == moves;
    assert forall i | 0 <= i < |moves| :: all[..i] == moves[..i] && all[i] == moves[i];
    hide Statements;
    if RevokesInGap(moves, a, b) {
      var i :| 0 <= i < |moves| && By(moves[i], b) && Statements(moves[..i], b) == 1 && Statements(moves[..i], a) == 1;
      assert By(all[i], b) && Statements(all[..i], b) == 1 && Statements(all[..i], a) == 1;
    }
    if By(m, b) && Statements(moves, b) == 1 && Statements(moves, a) == 1 {
      assert By(all[|moves|], b) && Statements(all[..|moves|], b) == 1 && Statements(all[..|moves|], a) == 1;
    }
  }

  lemma ReplayingReads(w: World, stored: Token, p: Secret, q: Secret, a: CallId, b: CallId, na: Secret, nb: Secret,
                       ka: nat, kb: nat, la: bool, gap: bool)
    requires Replaying(w, stored, p, q, a, b, na, nb, ka, kb, la, gap)
    ensures a != b && (ka > 0 && kb < 2 ==> la)
  {
    hide OfFamily;
  }

  lemma ReplayingStays(w: World, w': World, stored: Token, p: Secret, q: Secret, a: CallId, b: CallId,
                       na: Secret, nb: Secret, ka: nat, kb: nat, la: bool, gap: bool)
    requires Replaying(w, stored, p, q, a, b, na, nb, ka, kb, la, gap)
    requires OfFamily(w'.vault, stored.family) == OfFamily(w.vault, stored.family)
    requires forall c <- {a, b} | c in w.calls :: c in w'.calls && w'.calls[c] == w.calls[c]
    ensures Replaying(w', stored, p, q, a, b, na, nb, ka, kb, la, gap)
  {
    hide OfFamily;
  }

  lemma ReplayingMove(w: World, m: Move, ttl: nat, stored: Token, p: Secret, q: Secret, a: CallId, b: CallId,
                      na: Secret, nb: Secret, done: seq<Move>)
    requires Replaying(w, stored, p, q, a, b, na, nb, Statements(done, a), Statements(done, b),
                       ReadsInTime(done, a, b, 2), RevokesInGap(done, a, b))
    requires CanMove(w, m) && Beside(w, m, ttl, stored.family, {a, b}, {})
    requires Moved(w, m, ttl).vault.clock <= stored.expiresAt
    ensures Replaying(Moved(w, m, ttl), stored, p, q, a, b, na, nb, Statements(done + [m], a),
                      Statements(done + [m], b),
                      ReadsInTime(done + [m], a, b, 2), RevokesInGap(done + [m], a, b))
  {
    hide Replaying, OfFamily, Statements, ReadsInTime, RevokesInGap, Executing;
    ClockOn(w, m, ttl);
    MoreMoves(done, m, a, b, 2);
    MoreMoves(done, m, b, a, 2);
    MoreGap(done, m, a, b);
    var ka, kb := Statements(done, a), Statements(done, b);
    var la, gap := ReadsInTime(done, a, b, 2), RevokesInGap(done, a, b);
    ReplayingReads(w, stored, p, q, a, b, na, nb, ka, kb, la, gap);
    if By(m, a) || By(m, b) {
      ReplayingStatement(w, m.now, ttl, stored, p, q, a, b, na, nb, ka, kb, la, gap);
    } else {
      OthersMove(w, m, ttl, stored.family, {a, b}, {});
      ReplayingStays(w, Moved(w, m, ttl), stored, p, q, a, b, na, nb, ka, kb, la, gap);
    }
  }

  lemma {:induction false} ReplayingRuns(w: World, moves: seq<Move>, w': World, ttl: nat, stored: Token,
                                         p: Secret, q: Secret, a: CallId, b: CallId, na: Secret, nb: Secret,
                                             done: seq<Move>)
    requires Replaying(w, stored, p, q, a, b, na, nb, Statements(done, a), Statements(done, b),
                       ReadsInTime(done, a, b, 2), RevokesInGap(done, a, b))
    requires RunsBeside(w, moves, w', ttl, stored.family, {a, b}, {}) && w'.vault.clock <= stored.expiresAt
    ensures Replaying(w', stored, p, q, a, b, na, nb, Statements(done + moves, a), Statements(done + moves, b),
                      ReadsInTime(done + moves, a, b, 2), RevokesInGap(done + moves, a, b))
    decreases |moves|
  {
    if moves == [] {
      assert done + moves == done;
    } else {
      assert done + moves == (done + [moves[0]]) + moves[1..];
      ClockRuns(Moved(w, moves[0], ttl), moves[1..], w', ttl, stored.family, {a, b}, {});
      hide Replaying, OfFamily, Statements, ReadsInTime, RevokesInGap, CanMove, Moved, Beside;
      ReplayingMove(w, moves[0], ttl, stored, p, q, a, b, na, nb, done);
      ReplayingRuns(Moved(w, moves[0], ttl), moves[1..], w', ttl, stored, p, q, a, b, na, nb, done + [moves[0]]);
    }
  }

  // A replay of a spent token beside a refresh of the live one, each run to its
  // end: the replay is always refused as a reuse, but the family it killed is
  // live again exactly if its revocation fell between the refresh's read and
  // its creation.
  lemma ReplayLosesIff(w: World, moves: seq<Move>, w': World, ttl: nat, p: Secret, q: Secret, a: CallId, b: CallId)
    requires Inv(w.vault, ttl) && p in w.vault.tokens && Live(w.vault.tokens[p])
    requires q in w.vault.tokens && !Live(w.vault.tokens[q]) && w.vault.tokens[q].family == w.vault.tokens[p].family
    requires a != b && Starting(w, a, p) && Starting(w, b, q)
    requires RunsBeside(w, moves, w', ttl, w.vault.tokens[p].family, {a, b}, {})
    requires w'.vault.clock <= w.vault.tokens[p].expiresAt
    requires a in w'.calls && b in w'.calls && Finished(w'.calls[a].pc) && Finished(w'.calls[b].pc)
    ensures w'.calls[b].pc == Ended(REUSE_DETECTED)
    ensures LiveIn(w'.vault, w.vault.tokens[p].family) == if RevokesInGap(moves, a, b) then {w.calls[a].next} else {}
  {
    var stored, na, nb := w.vault.tokens[p], w.calls[a].next, w.calls[b].next;
    LiveAlone(w.vault, p, ttl);
    ReplayingStart(w, stored, p, q, a, b, na, nb);
    hide Inv, Replaying, RunsBeside, LiveIn;
    assert [] + moves == moves;
    ReplayingRuns(w, moves, w', ttl, stored, p, q, a, b, na, nb, []);
    ReplayingEnd(w', stored, p, q, a, b, na, nb, Statements(moves, a), Statements(moves, b),
                 ReadsInTime(moves, a, b, 2), RevokesInGap(moves, a, b));
  }

  lemma ReplayingStart(w: World, stored: Token, p: Secret, q: Secret, a: CallId, b: CallId, na: Secret, nb: Secret)
    requires p in w.vault.tokens && stored == w.vault.tokens[p] && Live(stored)
    requires q in w.vault.tokens && !Live(w.vault.tokens[q]) && w.vault.tokens[q].family == stored.family
    requires forall s <- OfFamily(w.vault, stored.family) | s != p :: !Live(w.vault.tokens[s])
    requires a != b && Starting(w, a, p) && Starting(w, b, q) && na == w.calls[a].next && nb == w.calls[b].next
    ensures Replaying(w, stored, p, q, a, b, na, nb, Statements([], a), Statements([], b),
                      ReadsInTime([], a, b, 2), RevokesInGap([], a, b))
  {
  }

  lemma ReplayingEnd(w: World, stored: Token, p: Secret, q: Secret, a: CallId, b: CallId, na: Secret, nb: Secret,
                     ka: nat, kb: nat, la: bool, gap: bool)
    requires Replaying(w, stored, p, q, a, b, na, nb, ka, kb, la, gap)
    requires Finished(w.calls[a].pc) && Finished(w.calls[b].pc)
    ensures w.calls[b].pc == Ended(REUSE_DETECTED)
    ensures LiveIn(w.vault, stored.family) == if gap then {na} else {}
  {
    FamilyOnly(w.vault, stored.family);
    assert forall s :: s in LiveIn(w.vault, stored.family) <==>
        s in OfFamily(w.vault, stored.family) && Live(OfFamily(w.vault, stored.family)[s]);
    hide OfFamily, LiveIn;
  }

  // ------------------------------------------- a refresh and a logout

  predicate Leaves(m: Move, p: Secret) { m.Other? && m.e.Logout? && m.e.presented == p }

  // A logout with p came before any statement of a.
  ghost predicate LeavesFirst(moves: seq<Move>, p: Secret, a: CallId) {
    exists i | 0 <= i < |moves| :: Leaves(moves[i], p) && Statements(moves[..i], a) == 0
  }

  ghost predicate Leaving(w: World, stored: Token, p: Secret, a: CallId, na: Secret, ka: nat, out: bool) {
    var tokens := OfFamily(w.vault, stored.family);
    && p != na && Live(stored) && At(w, a, p, na, stored, ka, ka > 0 && !out)
    && p in tokens && (ka == 0 && !out ==> tokens[p] == stored) && (out || ka == 4 ==> !Live(tokens[p]))
    && Born(tokens, na, ka, ka > 0 && !out, false)
    && forall s <- tokens | s != p && s != na :: !Live(tokens[s])
  }

  lemma LeavingStatement(w: World, now: nat, ttl: nat, stored: Token, p: Secret, a: CallId, na: Secret, ka: nat,
                         out: bool)
    requires Leaving(w, stored, p, a, na, ka, out) && now <= stored.expiresAt && CanMove(w, Go(a, now))
    ensures Leaving(Executing(w, a, now, ttl), stored, p, a, na, ka + 1, out)
  {
    var f := stored.family;
    FamilyOnly(w.vault, f);
    hide FamilyRevoked, OfFamily;
    FamilyAfter(w.vault, w.calls[a], now, ttl, f);
    if w.calls[a].pc.Revoking? { AllRevoked(OfFamily(w.vault, f), f, now); }
  }

  lemma LeavingLogout(w: World, m: Move, ttl: nat, stored: Token, p: Secret, a: CallId, na: Secret, ka: nat, out: bool)
    requires Leaving(w, stored, p, a, na, ka, out) && CanMove(w, m) && Leaves(m, p)
    ensures Leaving(Moved(w, m, ttl), stored, p, a, na, ka, out || ka == 0)
  {
    var tokens, tokens' := OfFamily(w.vault, stored.family), OfFamily(Moved(w, m, ttl).vault, stored.family);
    FamilyOnly(w.vault, stored.family);
    assert tokens' == LoggedOut(tokens, p, m.e.now);
    hide OfFamily, PcAt;
  }

  lemma LeavingMove(w: World, m: Move, ttl: nat, stored: Token, p: Secret, a: CallId, na: Secret, done: seq<Move>)
    requires Leaving(w, stored, p, a, na, Statements(done, a), LeavesFirst(done, p, a))
    requires CanMove(w, m) && Beside(w, m, ttl, stored.family, {a}, {p})
    requires Moved(w, m, ttl).vault.clock <= stored.expiresAt
    ensures Leaving(Moved(w, m, ttl), stored, p, a, na, Statements(done + [m], a), LeavesFirst(done + [m], p, a))
  {
    hide Leaving, OfFamily, Statements, ReadsInTime, LeavesFirst, Executing;
    ClockOn(w, m, ttl);
    MoreMoves(done, m, a, a, 0);
    MoreLeaves(done, m, p, a);
    var ka, out := Statements(done, a), LeavesFirst(done, p, a);
    if By(m, a) {
      LeavingStatement(w, m.now, ttl, stored, p, a, na, ka, out);
    } else if Leaves(m, p) {
      LeavingLogout(w, m, ttl, stored, p, a, na, ka, out);
    } else {
      OthersMove(w, m, ttl, stored.family, {a}, {p});
      LeavingStays(w, Moved(w, m, ttl), stored, p, a, na, ka, out);
    }
  }

  lemma MoreLeaves(moves: seq<Move>, m: Move, p: Secret, a: CallId)
    ensures LeavesFirst(moves + [m], p, a) == (LeavesFirst(moves, p, a) || (Leaves(m, p) && Statements(moves, a) == 0))
  {
    var all := moves + [m];
    assert all[..|moves|] == moves;
    assert forall i | 0 <= i < |moves| :: all[..i] == moves[..i] && all[i] == moves[i];
    hide Statements;
    if LeavesFirst(moves, p, a) {
      var i :| 0 <= i < |moves| && Leaves(moves[i], p) && Statements(moves[..i], a) == 0;
      assert Leaves(all[i], p) && Statements(all[..i], a) == 0;
    }
    if Leaves(m, p) && Statements(moves, a) == 0 {
      assert Leaves(all[|moves|], p) && Statements(all[..|moves|], a) == 0;
    }
  }

  lemma LeavingStays(w: World, w': World, stored: Token, p: Secret, a: CallId, na: Secret, ka: nat, out: bool)
    requires Leaving(w, stored, p, a, na, ka, out)
    requires OfFamily(w'.vault, stored.family) == OfFamily(w.vault, stored.family)
    requires forall c <- {a} | c in w.calls :: c in w'.calls && w'.calls[c] == w.calls[c]
    ensures Leaving(w', stored, p, a, na, ka, out)
  {
    hide OfFamily;
  }

  lemma {:induction false} LeavingRuns(w: World, moves: seq<Move>, w': World, ttl: nat, stored: Token,
                                       p: Secret, a: CallId, na: Secret, done: seq<Move>)
    requires Leaving(w, stored, p, a, na, Statements(done, a), LeavesFirst(done, p, a))
    requires RunsBeside(w, moves, w', ttl, stored.family, {a}, {p}) && w'.vault.clock <= stored.expiresAt
    ensures Leaving(w', stored, p, a, na, Statements(done + moves, a), LeavesFirst(done + moves, p, a))
    decreases |moves|
  {
    if moves == [] {
      assert done + moves == done;
    } else {
      assert done + moves == (done + [moves[0]]) + moves[1..];
      ClockRuns(Moved(w, moves[0], ttl), moves[1..], w', ttl, stored.family, {a}, {p});
      hide Leaving, OfFamily, Statements, LeavesFirst, CanMove, Moved, Beside;
      LeavingMove(w, moves[0], ttl, stored, p, a, na, done);
      LeavingRuns(Moved(w, moves[0], ttl), moves[1..], w', ttl, stored, p, a, na, done + [moves[0]]);
    }
  }

  // Logouts with a live token beside a refresh of it, run to its end: the
  // family is dead, and the refresh refused, exactly if a logout came before
  // the refresh's read. A later logout ends nothing: the new token lives on.
  lemma LogoutLosesIff(w: World, moves: seq<Move>, w': World, ttl: nat, p: Secret, a: CallId)
    requires Inv(w.vault, ttl) && p in w.vault.tokens && Live(w.vault.tokens[p]) && Starting(w, a, p)
    requires RunsBeside(w, moves, w', ttl, w.vault.tokens[p].family, {a}, {p})
    requires w'.vault.clock <= w.vault.tokens[p].expiresAt
    requires a in w'.calls && Finished(w'.calls[a].pc)
    ensures w'.calls[a].pc == Ended(if LeavesFirst(moves, p, a) then REUSE_DETECTED else Pair(w.calls[a].next))
    ensures LiveIn(w'.vault, w.vault.tokens[p].family) == if LeavesFirst(moves, p, a) then {} else {w.calls[a].next}
  {
    var stored, na := w.vault.tokens[p], w.calls[a].next;
    LiveAlone(w.vault, p, ttl);
    assert Leaving(w, stored, p, a, na, Statements([], a), LeavesFirst([], p, a));
    hide Inv, Leaving, RunsBeside, LiveIn;
    assert [] + moves == moves;
    LeavingRuns(w, moves, w', ttl, stored, p, a, na, []);
    LeavingEnd(w', stored, p, a, na, Statements(moves, a), LeavesFirst(moves, p, a));
  }

  lemma LeavingEnd(w: World, stored: Token, p: Secret, a: CallId, na: Secret, ka: nat, out: bool)
    requires Leaving(w, stored, p, a, na, ka, out) && Finished(w.calls[a].pc)
    ensures w.calls[a].pc == Ended(if out then REUSE_DETECTED else Pair(na))
    ensures LiveIn(w.vault, stored.family) == if out then {} else {na}
  {
    FamilyOnly(w.vault, stored.family);
    assert forall s :: s in LiveIn(w.vault, stored.family) <==>
        s in OfFamily(w.vault, stored.family) && Live(OfFamily(w.vault, stored.family)[s]);
    hide OfFamily, LiveIn;
  }
}
