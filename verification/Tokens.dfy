// Refresh tokens: families of tokens, each replacing the one before it, with
// login, refresh, logout and the nightly purge as atomic steps.
module Tokens {
  import opened Registry

  type Secret = nat
  type Family = nat
  type UserId = nat

  // Spent tokens are kept a week past their expiry (milliseconds).
  const RETENTION: nat := 7 * 24 * 60 * 60 * 1000

  datatype Token = Token(user: UserId, family: Family, expiresAt: nat, revokedAt: Option<nat>,
                         replacedBy: Option<Secret>)

  // The table, keyed by the secret: the hash is injective and unique.
  type Table = map<Secret, Token>

  datatype Result = INVALID | REUSE_DETECTED | EXPIRED | Pair(secret: Secret)

  function Issued(tokens: Table, secret: Secret, user: UserId, family: Family, now: nat, ttl: nat): Table {
    tokens[secret := Token(user, family, now + ttl, None, None)]
  }

  function Retired(tokens: Table, spent: Secret, replacement: Secret, now: nat): Table
    requires spent in tokens
  {
    tokens[spent := tokens[spent].(revokedAt := Some(now), replacedBy := Some(replacement))]
  }

  function FamilyRevoked(tokens: Table, family: Family, now: nat): Table {
    map s | s in tokens ::
      if tokens[s].family == family && tokens[s].revokedAt.None? then tokens[s].(revokedAt := Some(now)) else tokens[s]
  }

  // next: the random secret of the new pair.
  function Refreshed(tokens: Table, presented: Secret, next: Secret, now: nat, ttl: nat): (Table, Result) {
    if presented !in tokens then (tokens, INVALID)
    else
      var stored := tokens[presented];
      if stored.revokedAt.Some? then (FamilyRevoked(tokens, stored.family, now), REUSE_DETECTED)
      else if stored.expiresAt < now then (tokens, EXPIRED)
      else
        var issued := Issued(tokens, next, stored.user, stored.family, now, ttl);
        (Retired(issued, presented, next, now), Pair(next))
  }

  function LoggedOut(tokens: Table, presented: Secret, now: nat): Table {
    if presented in tokens && tokens[presented].revokedAt.None?
    then tokens[presented := tokens[presented].(revokedAt := Some(now))] else tokens
  }

  function Purged(tokens: Table, now: nat): Table {
    map s | s in tokens && !(tokens[s].expiresAt < now - RETENTION) :: tokens[s]
  }

  // ---------------------------------------------------------------- the steps

  // chain: every secret ever issued, family by family, in order of issue.
  datatype Vault = Vault(tokens: Table, chain: map<Family, seq<Secret>>, clock: nat)

  datatype Step =
    | Login(user: UserId, family: Family, secret: Secret, now: nat)
    | Refresh(presented: Secret, next: Secret, now: nat)
    | Logout(presented: Secret, now: nat)
    | Purge(now: nat)

  ghost predicate FreshSecret(v: Vault, secret: Secret) {
    secret !in v.tokens && forall f <- v.chain :: secret !in v.chain[f]
  }

  ghost predicate Can(v: Vault, e: Step) {
    && e.now >= v.clock
    && match e
       case Login(_, family, secret, _) => family !in v.chain && FreshSecret(v, secret)
       case Refresh(_, next, _) => FreshSecret(v, next)
       case _ => true
  }

  ghost function After(v: Vault, e: Step, ttl: nat): Vault {
    match e
    case Login(user, family, secret, now) =>
      Vault(Issued(v.tokens, secret, user, family, now, ttl), v.chain[family := [secret]], now)
    case Refresh(presented, next, now) =>
      var (tokens, result) := Refreshed(v.tokens, presented, next, now, ttl);
      var f := if presented in v.tokens then v.tokens[presented].family else 0;
      Vault(tokens, if result.Pair? && f in v.chain then v.chain[f := v.chain[f] + [next]] else v.chain, now)
    case Logout(presented, now) => Vault(LoggedOut(v.tokens, presented, now), v.chain, now)
    case Purge(now) => Vault(Purged(v.tokens, now), v.chain, now)
  }

  // ---------------------------------------------------------------- invariant

  predicate Live(t: Token) { t.revokedAt.None? }

  // Position i of family f's chain: linked to the next, spent unless last, and
  // never outlived by it.
  ghost predicate LinkOk(v: Vault, f: Family, i: nat, ttl: nat)
    requires f in v.chain && i < |v.chain[f]|
  {
    var c := v.chain[f];
    c[i] in v.tokens ==>
      var t := v.tokens[c[i]];
      && t.family == f && t.expiresAt <= v.clock + ttl
      && (t.replacedBy == if i + 1 < |c| then Some(c[i + 1]) else None)
      && (i + 1 < |c| ==> t.revokedAt.Some? && c[i + 1] in v.tokens && t.expiresAt <= v.tokens[c[i + 1]].expiresAt)
  }

  ghost predicate ChainOk(v: Vault, f: Family, ttl: nat)
    requires f in v.chain
  {
    Distinct(v.chain[f]) && v.chain[f] != [] && forall i | 0 <= i < |v.chain[f]| :: LinkOk(v, f, i, ttl)
  }

  ghost predicate Inv(v: Vault, ttl: nat) {
    && (forall s <- v.tokens :: v.tokens[s].family in v.chain && s in v.chain[v.tokens[s].family])
    && (forall f <- v.chain :: ChainOk(v, f, ttl))
    && (forall f, g, s | f in v.chain && g in v.chain && s in v.chain[f] && s in v.chain[g] :: f == g)
  }

  // At most one unrevoked token per family: the newest.
  lemma OneLivePerFamily(v: Vault, ttl: nat, s: Secret, t: Secret)
    requires Inv(v, ttl) && s in v.tokens && t in v.tokens
    requires Live(v.tokens[s]) && Live(v.tokens[t]) && v.tokens[s].family == v.tokens[t].family
    ensures var c := v.chain[v.tokens[s].family]; c != [] && s == t == c[|c| - 1]
  {
    var f := v.tokens[s].family;
    var c := v.chain[f];
    var i :| 0 <= i < |c| && c[i] == s;
    var j :| 0 <= j < |c| && c[j] == t;
    assert ChainOk(v, f, ttl) && LinkOk(v, f, i, ttl) && LinkOk(v, f, j, ttl);
  }

  // The link of a token leads to the next one issued to its family, which is
  // still in the table: replacedById forms one acyclic chain per family.
  lemma LinksMoveOn(v: Vault, ttl: nat, s: Secret) returns (i: nat)
    requires Inv(v, ttl) && s in v.tokens
    ensures var f := v.tokens[s].family;
            f in v.chain && i < |v.chain[f]| && v.chain[f][i] == s && Distinct(v.chain[f])
            && if i + 1 == |v.chain[f]| then v.tokens[s].replacedBy.None? else
                 var next := v.chain[f][i + 1];
                 v.tokens[s].replacedBy == Some(next) && next in v.tokens && v.tokens[next].family == f
  {
    var f := v.tokens[s].family;
    var c := v.chain[f];
    i :| 0 <= i < |c| && c[i] == s;
    assert ChainOk(v, f, ttl) && LinkOk(v, f, i, ttl);
    if i + 1 < |c| { assert LinkOk(v, f, i + 1, ttl); }
  }

  // A family's chain untouched by a step keeps its links.
  lemma ChainStays(v: Vault, v': Vault, f: Family, ttl: nat)
    requires f in v.chain && ChainOk(v, f, ttl) && f in v'.chain && v'.chain[f] == v.chain[f] && v.clock <= v'.clock
    requires forall s <- v.chain[f] ::
             (s in v'.tokens <==> s in v.tokens) && (s in v.tokens ==> v'.tokens[s] == v.tokens[s])
    ensures ChainOk(v', f, ttl)
  {
    var c := v.chain[f];
    forall i | 0 <= i < |c|
      ensures LinkOk(v', f, i, ttl)
    {
      assert LinkOk(v, f, i, ttl) && c[i] in c && (i + 1 < |c| ==> c[i + 1] in c);
    }
  }

  // The same when tokens of the family are only revoked.
  lemma ChainRevoked(v: Vault, v': Vault, f: Family, ttl: nat)
    requires f in v.chain && ChainOk(v, f, ttl) && f in v'.chain && v'.chain[f] == v.chain[f] && v.clock <= v'.clock
    requires v'.tokens.Keys == v.tokens.Keys
    requires forall s <- v.tokens :: v'.tokens[s] == v.tokens[s]
               || (v.tokens[s].revokedAt.None? && v'.tokens[s] == v.tokens[s].(revokedAt := v'.tokens[s].revokedAt))
    ensures ChainOk(v', f, ttl)
  {
    var c := v.chain[f];
    forall i | 0 <= i < |c|
      ensures LinkOk(v', f, i, ttl)
    {
      assert LinkOk(v, f, i, ttl);
    }
  }

  lemma LoginKeeps(v: Vault, e: Step, ttl: nat)
    requires Inv(v, ttl) && Can(v, e) && e.Login?
    ensures Inv(After(v, e, ttl), ttl)
  {
    var v' := After(v, e, ttl);
    hide ChainOk;
    forall f <- v'.chain
      ensures ChainOk(v', f, ttl)
    {
      if f in v.chain { ChainStays(v, v', f, ttl); } else { NewChain(v', e.family, e.secret, ttl); }
    }
  }

  lemma NewChain(v: Vault, f: Family, s: Secret, ttl: nat)
    requires f in v.chain && v.chain[f] == [s] && s in v.tokens
    requires v.tokens[s].family == f && v.tokens[s].replacedBy.None? && v.tokens[s].expiresAt <= v.clock + ttl
    ensures ChainOk(v, f, ttl)
  {
  }

  // Rotation extends the presented token's chain by one.
  lemma RotateKeeps(v: Vault, e: Step, ttl: nat)
    requires Inv(v, ttl) && Can(v, e) && e.Refresh? && Refreshed(v.tokens, e.presented, e.next, e.now, ttl).1.Pair?
    ensures Inv(After(v, e, ttl), ttl)
  {
    hide ChainOk;
    var v' := After(v, e, ttl);
    var f := v.tokens[e.presented].family;
    forall g <- v'.chain
      ensures ChainOk(v', g, ttl)
    {
      if g == f { RotatedChain(v, v', f, e, ttl); } else { ChainStays(v, v', g, ttl); }
    }
    assert forall s :: s in v'.chain[f] <==> s in v.chain[f] || s == e.next;
  }

  lemma RotatedChain(v: Vault, v': Vault, f: Family, e: Step, ttl: nat)
    requires Inv(v, ttl) && Can(v, e) && e.Refresh? && v' == After(v, e, ttl)
    requires Refreshed(v.tokens, e.presented, e.next, e.now, ttl).1.Pair? && f == v.tokens[e.presented].family
    ensures f in v'.chain && ChainOk(v', f, ttl)
  {
    var c, n := v.chain[f], |v.chain[f]|;
    OneLivePerFamily(v, ttl, e.presented, e.presented);
    assert ChainOk(v, f, ttl) && c[n - 1] == e.presented;
    assert v'.chain[f] == c + [e.next] && e.next !in c;
    forall i | 0 <= i <= n
      ensures LinkOk(v', f, i, ttl)
    {
      if i < n {
        assert LinkOk(v, f, i, ttl) && v'.chain[f][i] == c[i];
        if i + 1 < n { assert v'.chain[f][i + 1] == c[i + 1] && c[i] != e.presented; }
      }
    }
  }

  lemma RevokeKeeps(v: Vault, e: Step, ttl: nat)
    requires Inv(v, ttl) && Can(v, e)
    requires e.Logout? || (e.Refresh? && !Refreshed(v.tokens, e.presented, e.next, e.now, ttl).1.Pair?)
    ensures Inv(After(v, e, ttl), ttl)
  {
    hide ChainOk;
    var v' := After(v, e, ttl);
    OnlyRevoked(v, e, ttl);
    hide After;
    forall f <- v'.chain
      ensures ChainOk(v', f, ttl)
    {
      ChainRevoked(v, v', f, ttl);
    }
  }

  lemma OnlyRevoked(v: Vault, e: Step, ttl: nat)
    requires Can(v, e) && (e.Logout? || (e.Refresh? && !Refreshed(v.tokens, e.presented, e.next, e.now, ttl).1.Pair?))
    ensures var v' := After(v, e, ttl);
            v'.chain == v.chain && v.clock <= v'.clock && v'.tokens.Keys == v.tokens.Keys
            && forall s <- v.tokens :: v'.tokens[s] == v.tokens[s]
                 || (v.tokens[s].revokedAt.None? && v'.tokens[s] == v.tokens[s].(revokedAt := v'.tokens[s].revokedAt))
  {
  }

  // The purge takes a chain's oldest tokens only.
  lemma ChainPurged(v: Vault, v': Vault, f: Family, now: nat, ttl: nat)
    requires f in v.chain && ChainOk(v, f, ttl) && f in v'.chain && v'.chain[f] == v.chain[f] && v.clock <= v'.clock
    requires v'.tokens == Purged(v.tokens, now)
    ensures ChainOk(v', f, ttl)
  {
    forall i | 0 <= i < |v'.chain[f]|
      ensures LinkOk(v', f, i, ttl)
    {
      assert LinkOk(v, f, i, ttl);
    }
  }

  lemma PurgeKeeps(v: Vault, e: Step, ttl: nat)
    requires Inv(v, ttl) && Can(v, e) && e.Purge?
    ensures Inv(After(v, e, ttl), ttl)
  {
    hide ChainOk;
    var v' := After(v, e, ttl);
    forall f <- v'.chain
      ensures ChainOk(v', f, ttl)
    {
      ChainPurged(v, v', f, e.now, ttl);
    }
  }

  lemma StepKeeps(v: Vault, e: Step, ttl: nat)
    requires Inv(v, ttl) && Can(v, e)
    ensures Inv(After(v, e, ttl), ttl)
  {
    hide Inv;
    match e
    case Login(_, _, _, _) => LoginKeeps(v, e, ttl);
    case Refresh(p, next, now) =>
      if Refreshed(v.tokens, p, next, now, ttl).1.Pair? { RotateKeeps(v, e, ttl); } else { RevokeKeeps(v, e, ttl); }
    case Logout(_, _) => RevokeKeeps(v, e, ttl);
    case Purge(_) => PurgeKeeps(v, e, ttl);
  }

  ghost predicate History(v: Vault, steps: seq<Step>, v': Vault, ttl: nat)
    decreases |steps|
  {
    if steps == [] then v' == v else Can(v, steps[0]) && History(After(v, steps[0], ttl), steps[1..], v', ttl)
  }

  lemma {:induction false} HistoryKeeps(v: Vault, steps: seq<Step>, v': Vault, ttl: nat)
    requires Inv(v, ttl) && History(v, steps, v', ttl)
    ensures Inv(v', ttl) && v'.clock >= v.clock
    decreases |steps|
  {
    if steps != [] {
      StepKeeps(v, steps[0], ttl);
      assert After(v, steps[0], ttl).clock >= v.clock;
      hide Inv, After, Can;
      HistoryKeeps(After(v, steps[0], ttl), steps[1..], v', ttl);
    }
  }

  // owner: who logged in to open each family ever opened. Its tokens are theirs.
  ghost predicate OwnedBy(v: Vault, owner: map<Family, UserId>) {
    && owner.Keys == v.chain.Keys
    && forall s <- v.tokens :: v.tokens[s].family in owner && v.tokens[s].user == owner[v.tokens[s].family]
  }

  ghost function OwnersAfter(owner: map<Family, UserId>, e: Step): map<Family, UserId> {
    if e.Login? then owner[e.family := e.user] else owner
  }

  lemma OwnersStep(v: Vault, e: Step, ttl: nat, owner: map<Family, UserId>)
    requires OwnedBy(v, owner) && Can(v, e)
    ensures OwnedBy(After(v, e, ttl), OwnersAfter(owner, e))
  {
    hide FreshSecret;
  }

  lemma {:induction false} OwnersKept(v: Vault, steps: seq<Step>, v': Vault, ttl: nat, owner: map<Family, UserId>)
    returns (owner': map<Family, UserId>)
    requires OwnedBy(v, owner) && History(v, steps, v', ttl)
    ensures OwnedBy(v', owner') && owner.Keys <= owner'.Keys && forall f <- owner :: owner'[f] == owner[f]
    ensures forall e <- steps | e.Login? :: e.family in owner' && owner'[e.family] == e.user
    decreases |steps|
  {
    owner' := owner;
    if steps != [] {
      var e, mid := steps[0], After(v, steps[0], ttl);
      OwnersStep(v, e, ttl, owner);
      assert e.Login? ==> e.family !in owner;
      hide OwnedBy, After, Can;
      owner' := OwnersKept(mid, steps[1..], v', ttl, OwnersAfter(owner, e));
      assert forall d <- steps :: d == e || d in steps[1..];
    }
  }

  // From an empty table on, in every reachable state: one chain per family, of
  // two unrevoked tokens of a family each is its newest, and all tokens of a
  // family belong to the user whose login opened it.
  lemma FamiliesHold(steps: seq<Step>, start: nat, v: Vault, ttl: nat, s: Secret, t: Secret)
    requires History(Vault(map[], map[], start), steps, v, ttl)
    ensures Inv(v, ttl)
    ensures (s in v.tokens && t in v.tokens && Live(v.tokens[s]) && Live(v.tokens[t])
             && v.tokens[s].family == v.tokens[t].family) ==> s == t
    ensures s in v.tokens && t in v.tokens && v.tokens[s].family == v.tokens[t].family ==>
              v.tokens[s].user == v.tokens[t].user
    ensures forall e <- steps | e.Login? && s in v.tokens && v.tokens[s].family == e.family ::
            v.tokens[s].user == e.user
  {
    HistoryKeeps(Vault(map[], map[], start), steps, v, ttl);
    var owner := OwnersKept(Vault(map[], map[], start), steps, v, ttl, map[]);
    if s in v.tokens && t in v.tokens && Live(v.tokens[s]) && Live(v.tokens[t])
       && v.tokens[s].family == v.tokens[t].family {
      OneLivePerFamily(v, ttl, s, t);
    }
    hide Inv, History;
  }

  // ------------------------------------------------------------ dead families

  // Issued once, and no token of it is unrevoked.
  ghost predicate Dead(v: Vault, f: Family) {
    f in v.chain && forall s <- v.tokens | v.tokens[s].family == f :: v.tokens[s].revokedAt.Some?
  }

  // Presenting a stored spent token is refused and kills its whole family.
  lemma ReplayKillsFamily(v: Vault, presented: Secret, next: Secret, now: nat, ttl: nat)
    requires Inv(v, ttl) && Can(v, Refresh(presented, next, now)) && presented in v.tokens
             && v.tokens[presented].revokedAt.Some?
    ensures Refreshed(v.tokens, presented, next, now, ttl).1 == REUSE_DETECTED
    ensures Dead(After(v, Refresh(presented, next, now), ttl), v.tokens[presented].family)
  {
    hide ChainOk;
  }

  lemma DeadStep(v: Vault, e: Step, ttl: nat, f: Family)
    requires Can(v, e) && Dead(v, f)
    ensures Dead(After(v, e, ttl), f)
    ensures e.Refresh? && e.presented in v.tokens && v.tokens[e.presented].family == f ==>
              Refreshed(v.tokens, e.presented, e.next, e.now, ttl).1 == REUSE_DETECTED
  {
  }

  // A dead family never gains a live token.
  lemma {:induction false} DeadStaysDead(v: Vault, steps: seq<Step>, v': Vault, ttl: nat, f: Family)
    requires Dead(v, f) && History(v, steps, v', ttl)
    ensures Dead(v', f)
    decreases |steps|
  {
    if steps != [] {
      DeadStep(v, steps[0], ttl, f);
      hide Dead, After, Can;
      DeadStaysDead(After(v, steps[0], ttl), steps[1..], v', ttl, f);
    }
  }

  // What refresh accepts, the purge keeps: only tokens a week past their
  // expiry go, now and at any later time.
  lemma PurgeKeepsUsable(tokens: Table, s: Secret, now: nat, later: nat, next: Secret, ttl: nat)
    requires now <= later && Refreshed(tokens, s, next, later, ttl).1.Pair?
    ensures s in Purged(tokens, now) && Purged(tokens, now)[s] == tokens[s]
    ensures Refreshed(Purged(tokens, now), s, next, later, ttl).1.Pair?
  {
  }

  lemma RotationLeavesOne(v: Vault, presented: Secret, next: Secret, now: nat, ttl: nat)
    requires Inv(v, ttl) && Can(v, Refresh(presented, next, now))
             && Refreshed(v.tokens, presented, next, now, ttl).1.Pair?
    ensures var v' := After(v, Refresh(presented, next, now), ttl);
            next in v'.tokens && v'.tokens[next].family == v.tokens[presented].family && Live(v'.tokens[next])
            && forall t <- v'.tokens | v'.tokens[t].family == v.tokens[presented].family && Live(v'.tokens[t]) ::
                t == next
  {
    hide ChainOk;
    forall t <- v.tokens | v.tokens[t].family == v.tokens[presented].family && Live(v.tokens[t])
      ensures t == presented
    {
      OneLivePerFamily(v, ttl, presented, t);
    }
  }

  // The unrevoked tokens of a family.
  ghost function LiveIn(tokens: Table, family: Family): set<Secret> {
    set s | s in tokens && tokens[s].family == family && Live(tokens[s])
  }

  // A rotation leaves the new token as the only live one, a reuse none.
  lemma RefreshLeavesLive(v: Vault, presented: Secret, next: Secret, now: nat, ttl: nat)
    requires Inv(v, ttl) && Can(v, Refresh(presented, next, now))
    ensures var (tokens, result) := Refreshed(v.tokens, presented, next, now, ttl);
            && (result.Pair? ==> presented in v.tokens && LiveIn(tokens, v.tokens[presented].family) == {next})
            && (result == REUSE_DETECTED ==>
                  presented in v.tokens && LiveIn(tokens, v.tokens[presented].family) == {})
  {
    if Refreshed(v.tokens, presented, next, now, ttl).1.Pair? { RotationLeavesOne(v, presented, next, now, ttl); }
    hide Inv, FreshSecret;
  }

  // Refresh's answer and what it leaves, token by token.
  lemma RefreshedIs(tokens: Table, presented: Secret, next: Secret, now: nat, ttl: nat)
    ensures var (tokens', result) := Refreshed(tokens, presented, next, now, ttl);
            && (result == INVALID <==> presented !in tokens)
            && (result == REUSE_DETECTED <==> presented in tokens && tokens[presented].revokedAt.Some?)
            && (result == EXPIRED <==> presented in tokens && tokens[presented].revokedAt.None?
                                       && tokens[presented].expiresAt < now)
            && (result.Pair? ==> result == Pair(next) && RotatedTo(tokens, presented, next, now, ttl, tokens'))
            && (result == REUSE_DETECTED ==> RevokedIn(tokens, tokens[presented].family, now, tokens'))
            && (result == INVALID || result == EXPIRED ==> tokens' == tokens)
  {
  }

  // The presented token spent and linked to a new one of the same user and family.
  ghost predicate RotatedTo(tokens: Table, presented: Secret, next: Secret, now: nat, ttl: nat, tokens': Table) {
    && presented in tokens && tokens'.Keys == tokens.Keys + {next}
    && (presented != next ==>
          && tokens'[next] == Token(tokens[presented].user, tokens[presented].family, now + ttl, None, None)
          && tokens'[presented] == tokens[presented].(revokedAt := Some(now), replacedBy := Some(next)))
    && forall s <- tokens | s != presented && s != next :: tokens'[s] == tokens[s]
  }

  // The family's unrevoked tokens revoked, and nothing else.
  ghost predicate RevokedIn(tokens: Table, family: Family, now: nat, tokens': Table) {
    && tokens'.Keys == tokens.Keys
    && forall s <- tokens ::
         tokens'[s] == if tokens[s].family == family && tokens[s].revokedAt.None?
                       then tokens[s].(revokedAt := Some(now)) else tokens[s]
  }

  lemma FamilyUnused(v: Vault, family: Family, ttl: nat)
    requires Inv(v, ttl) && family !in v.chain
    ensures forall s <- v.tokens :: v.tokens[s].family != family
  {
    hide ChainOk;
  }

  // Ending the live token of a family ends the family.
  lemma RevokingTheLiveOne(v: Vault, ttl: nat, s: Secret, now: nat)
    requires Inv(v, ttl) && s in v.tokens && Live(v.tokens[s]) && now >= v.clock
    ensures Dead(After(v, Logout(s, now), ttl), v.tokens[s].family)
  {
    forall t <- v.tokens | v.tokens[t].family == v.tokens[s].family && Live(v.tokens[t])
      ensures t == s
    {
      OneLivePerFamily(v, ttl, s, t);
    }
    hide ChainOk;
  }

  // ------------------------------------------------------- the service's code

  // The token table with, for reference, what was ever issued and the clock.
  class AuthService {
    var tokens: Table
    ghost var chain: map<Family, seq<Secret>>
    ghost var clock: nat
    const refreshExpiryMs: nat

    ghost function State(): Vault
      reads this
    {
      Vault(tokens, chain, clock)
    }

    ghost predicate Valid()
      reads this
    {
      Inv(State(), refreshExpiryMs)
    }

    ghost function LiveOf(family: Family): set<Secret>
      reads this
    {
      LiveIn(tokens, family)
    }

    constructor (refreshExpiryMs: nat, now: nat)
      ensures Valid() && State() == Vault(map[], map[], now) && this.refreshExpiryMs == refreshExpiryMs
    {
      tokens, chain, clock := map[], map[], now;
      this.refreshExpiryMs := refreshExpiryMs;
    }

    method CreateToken(user: UserId, family: Family, secret: Secret, now: nat)
      modifies this`tokens
      ensures tokens == Issued(old(tokens), secret, user, family, now, refreshExpiryMs)
    {
      tokens := tokens[secret := Token(user, family, now + refreshExpiryMs, None, None)];
    }

    // A login opens a family whose one live token is the new one.
    method Login(user: UserId, family: Family, secret: Secret, now: nat)
      requires Valid() && Can(State(), Step.Login(user, family, secret, now))
      modifies this
      ensures Valid() && State() == After(old(State()), Step.Login(user, family, secret, now), refreshExpiryMs)
      ensures LiveOf(family) == {secret} && forall s <- old(tokens) :: s in tokens && tokens[s] == old(tokens)[s]
      ensures tokens == old(tokens)[secret := Token(user, family, now + refreshExpiryMs, None, None)]
    {
      FamilyUnused(State(), family, refreshExpiryMs);
      hide Inv;
      StepKeeps(State(), Step.Login(user, family, secret, now), refreshExpiryMs);
      CreateToken(user, family, secret, now);
      chain, clock := chain[family := [secret]], now;
    }

    // A pair makes the new token, of the same user, the one live token of the
    // family and retires the one presented; a reuse leaves the family without a
    // live one; any other answer leaves the table alone.
    method Refresh(presented: Secret, next: Secret, now: nat) returns (result: Result)
      requires Valid() && Can(State(), Step.Refresh(presented, next, now))
      modifies this
      ensures Valid() && State() == After(old(State()), Step.Refresh(presented, next, now), refreshExpiryMs)
      ensures (tokens, result) == Refreshed(old(tokens), presented, next, now, refreshExpiryMs)
      ensures result == INVALID <==> presented !in old(tokens)
      ensures result == REUSE_DETECTED <==> presented in old(tokens) && old(tokens)[presented].revokedAt.Some?
      ensures result == EXPIRED <==>
                presented in old(tokens) && old(tokens)[presented].revokedAt.None?
                && old(tokens)[presented].expiresAt < now
      ensures result.Pair? ==>
                && result == Pair(next) && presented in old(tokens) && next in tokens
                && tokens[next] == Token(old(tokens)[presented].user, old(tokens)[presented].family,
                                         now + refreshExpiryMs, None, None)
      ensures result.Pair? ==> RotatedTo(old(tokens), presented, next, now, refreshExpiryMs, tokens)
      ensures result == REUSE_DETECTED ==>
                presented in old(tokens) && RevokedIn(old(tokens), old(tokens)[presented].family, now, tokens)
      ensures result.Pair? ==> presented in old(tokens) && LiveOf(old(tokens)[presented].family) == {next}
      ensures result == REUSE_DETECTED ==> presented in tokens && LiveOf(tokens[presented].family) == {}
      ensures result == INVALID || result == EXPIRED ==> tokens == old(tokens)
    {
      ghost var v := State();
      assert presented in tokens ==> tokens[presented].family in chain;
      RefreshLeavesLive(v, presented, next, now, refreshExpiryMs);
      RefreshedIs(tokens, presented, next, now, refreshExpiryMs);
      assert presented in tokens ==> presented != next;
      hide Inv, FreshSecret, RotatedTo, RevokedIn, LiveIn;
      StepKeeps(v, Step.Refresh(presented, next, now), refreshExpiryMs);
      clock := now;
      if presented !in tokens { return INVALID; }
      var stored := tokens[presented];
      if stored.revokedAt.Some? {
        RevokeAll(stored.family, now);
        return REUSE_DETECTED;
      }
      if stored.expiresAt < now { return EXPIRED; }
      CreateToken(stored.user, stored.family, next, now);
      tokens := tokens[presented := stored.(revokedAt := Some(now), replacedBy := Some(next))];
      chain := chain[stored.family := chain[stored.family] + [next]];
      return Pair(next);
    }

    // No token of the family stays live; no other token changes.
    method RevokeAll(family: Family, now: nat)
      modifies this`tokens
      ensures tokens == FamilyRevoked(old(tokens), family, now)
      ensures LiveOf(family) == {}
      ensures forall s <- old(tokens) | s !in old(LiveOf(family)) :: s in tokens && tokens[s] == old(tokens)[s]
      ensures forall s <- old(LiveOf(family)) :: s in tokens && tokens[s] == old(tokens)[s].(revokedAt := Some(now))
    {
      tokens := FamilyRevoked(tokens, family, now);
    }

    // Logging out with a live token leaves its family without one.
    method Logout(presented: Secret, now: nat)
      requires Valid() && now >= clock
      modifies this
      ensures Valid() && State() == After(old(State()), Step.Logout(presented, now), refreshExpiryMs)
      ensures (presented in old(tokens) && Live(old(tokens)[presented])) ==> LiveOf(old(tokens)[presented].family) == {}
      ensures forall s <- old(tokens) | s != presented :: s in tokens && tokens[s] == old(tokens)[s]
      ensures tokens.Keys == old(tokens).Keys && (presented in tokens ==>
                tokens[presented] == if Live(old(tokens)[presented])
                    then old(tokens)[presented].(revokedAt := Some(now))
                                     else old(tokens)[presented])
    {
      ghost var v := State();
      StepKeeps(v, Step.Logout(presented, now), refreshExpiryMs);
      clock := now;
      if presented in tokens && tokens[presented].revokedAt.None? {
        RevokingTheLiveOne(v, refreshExpiryMs, presented, now);
        tokens := tokens[presented := tokens[presented].(revokedAt := Some(now))];
      }
    }

    // What is more than a week past its expiry goes and nothing else; no token
    // that refresh would accept now or later is among it.
    method PurgeRefreshTokens(now: nat) returns (count: nat)
      requires Valid() && now >= clock
      modifies this
      ensures Valid() && State() == After(old(State()), Step.Purge(now), refreshExpiryMs)
      ensures count == |old(tokens).Keys - tokens.Keys|
      ensures forall s :: s in tokens <==> s in old(tokens) && old(tokens)[s].expiresAt + 604_800_000 >= now
      ensures forall s <- old(tokens) :: if s in tokens then tokens[s] == old(tokens)[s] else
                old(tokens)[s].expiresAt + RETENTION < now
                && forall later: nat, next: Secret | later >= now ::
                     !Refreshed(old(tokens), s, next, later, refreshExpiryMs).1.Pair?
    {
      ghost var v := State();
      hide Inv;
      StepKeeps(v, Step.Purge(now), refreshExpiryMs);
      clock := now;
      var kept := Purged(tokens, now);
      SubsetCard(kept.Keys, tokens.Keys);
      assert |tokens.Keys - kept.Keys| == |tokens.Keys| - |kept.Keys|;
      count := |tokens| - |kept|;
      tokens := kept;
    }
  }
}
