// Refresh as it really runs: four statements, each its own round trip, with no
// transaction around them. What the token families keep when refreshes do not
// overlap within a family, and exactly which overlaps break them.
module RefreshRace {
  import opened Registry
  import opened Tokens

  type CallId = nat

  // The next statement of a refresh call, with the row read so far.
  datatype Pc =
    | Reading
    | Revoking(family: Family)
    | Creating(stored: Token)
    | Finding(stored: Token)
    | Updating(stored: Token, replacement: Option<Secret>)
    | Ended(result: Result)
    | Vanished

  datatype Call = Call(presented: Secret, next: Secret, pc: Pc)

  datatype World = World(vault: Vault, calls: map<CallId, Call>)

  // One statement of a call, at time now.
  function Executed(v: Vault, call: Call, now: nat, ttl: nat): (Vault, Pc) {
    var idle := v.(clock := now);
    match call.pc
    case Reading =>
      if call.presented !in v.tokens then (idle, Ended(INVALID)) else
        var stored := v.tokens[call.presented];
        if stored.revokedAt.Some? then (idle, Revoking(stored.family))
        else if stored.expiresAt < now then (idle, Ended(EXPIRED))
        else (idle, Creating(stored))
    case Revoking(family) => (idle.(tokens := FamilyRevoked(v.tokens, family, now)), Ended(REUSE_DETECTED))
    case Creating(stored) =>
      var f := stored.family;
      (Vault(Issued(v.tokens, call.next, stored.user, f, now, ttl),
             if f in v.chain then v.chain[f := v.chain[f] + [call.next]] else v.chain, now), Finding(stored))
    case Finding(stored) => (idle, Updating(stored, if call.next in v.tokens then Some(call.next) else None))
    case Updating(_, replacement) =>
      // UPDATE by id; the row may have been purged meanwhile.
      if call.presented in v.tokens
      then (idle.(tokens := v.tokens[call.presented := v.tokens[call.presented].(revokedAt := Some(now),
            replacedBy := replacement)]),
            Ended(Pair(call.next)))
      else (idle, Vanished)
    case _ => (v, call.pc)
  }

  predicate Finished(pc: Pc) { pc.Ended? || pc.Vanished? }

  function Executing(w: World, c: CallId, now: nat, ttl: nat): World
    requires c in w.calls
  {
    var (v, pc) := Executed(w.vault, w.calls[c], now, ttl);
    World(v, w.calls[c := w.calls[c].(pc := pc)])
  }

  datatype Move =
    | Begin(c: CallId, presented: Secret, next: Secret)
    | Go(c: CallId, now: nat)
    | Other(e: Step)

  // A random secret no one has.
  ghost predicate Unissued(w: World, secret: Secret) {
    FreshSecret(w.vault, secret) && forall c <- w.calls :: w.calls[c].next != secret
  }

  ghost predicate CanMove(w: World, m: Move) {
    match m
    case Begin(c, _, next) => c !in w.calls && Unissued(w, next)
    case Go(c, now) => c in w.calls && !Finished(w.calls[c].pc) && now >= w.vault.clock
    case Other(e) => !e.Refresh? && Can(w.vault, e) && (e.Login? ==> Unissued(w, e.secret))
  }

  ghost function Moved(w: World, m: Move, ttl: nat): World
    requires CanMove(w, m)
  {
    match m
    case Begin(c, presented, next) => w.(calls := w.calls[c := Call(presented, next, Reading)])
    case Go(c, now) => Executing(w, c, now, ttl)
    case Other(e) => w.(vault := After(w.vault, e, ttl))
  }

  // The call run alone: its statements one after the other, at these times.
  function RunAlone(v: Vault, call: Call, times: seq<nat>, ttl: nat): (Vault, Call)
    decreases |times|
  {
    if times == [] || Finished(call.pc) then (v, call) else
      var (v', pc) := Executed(v, call, times[0], ttl);
      RunAlone(v', call.(pc := pc), times[1..], ttl)
  }

  // With no one beside it the call answers what the one-step refresh answers. A
  // pair's new token is the presented one's user's, in its family, and runs from
  // the moment of the create; the presented one is spent at the moment of the
  // update and linked to it; a reuse revokes the family at the moment of the
  // second statement.
  lemma AloneIsRefresh(v: Vault, c: Call, t1: nat, t2: nat, t3: nat, t4: nat, ttl: nat)
    requires c.pc.Reading? && FreshSecret(v, c.next)
    ensures var (v', call') := RunAlone(v, c, [t1, t2, t3, t4], ttl);
            call'.pc.Ended?
            && match call'.pc.result
               case INVALID => c.presented !in v.tokens && v'.tokens == v.tokens
               case EXPIRED =>
                 c.presented in v.tokens && v.tokens[c.presented].revokedAt.None?
                 && v.tokens[c.presented].expiresAt < t1 && v'.tokens == v.tokens
               case REUSE_DETECTED =>
                 c.presented in v.tokens && v.tokens[c.presented].revokedAt.Some?
                 && RevokedIn(v.tokens, v.tokens[c.presented].family, t2, v'.tokens)
               case Pair(secret) =>
                 secret == c.next && c.presented in v.tokens && v.tokens[c.presented].revokedAt.None?
                 && v.tokens[c.presented].expiresAt >= t1
                 && var stored := v.tokens[c.presented];
                    v'.tokens == v.tokens[c.next := Token(stored.user, stored.family, t2 + ttl, None, None)]
                                         [c.presented := stored.(revokedAt := Some(t4), replacedBy := Some(c.next))]
  {
    assert [t1, t2, t3, t4][1..] == [t2, t3, t4] && [t2, t3, t4][1..] == [t3, t4] && [t3, t4][1..] == [t4]
           && [t4][1..] == [];
    var (v1, pc1) := Executed(v, c, t1, ttl);
    var c1 := c.(pc := pc1);
    assert RunAlone(v, c, [t1, t2, t3, t4], ttl) == RunAlone(v1, c1, [t2, t3, t4], ttl);
    var (v2, pc2) := Executed(v1, c1, t2, ttl);
    var c2 := c.(pc := pc2);
    assert !Finished(pc1) ==> RunAlone(v1, c1, [t2, t3, t4], ttl) == RunAlone(v2, c2, [t3, t4], ttl);
    var (v3, pc3) := Executed(v2, c2, t3, ttl);
    var (v4, pc4) := Executed(v3, c.(pc := pc3), t4, ttl);
    assert pc2.Finding? ==> RunAlone(v2, c2, [t3, t4], ttl) == RunAlone(v3, c.(pc := pc3), [t4], ttl)
                            == RunAlone(v4, c.(pc := pc4), [], ttl);
  }

  // All at one moment, it is the one-step refresh.
  lemma AloneAtOnce(v: Vault, c: Call, now: nat, ttl: nat)
    requires c.pc.Reading? && FreshSecret(v, c.next)
    ensures var (v', call') := RunAlone(v, c, [now, now, now, now], ttl);
            call'.pc.Ended? && (v'.tokens, call'.pc.result) == Refreshed(v.tokens, c.presented, c.next, now, ttl)
  {
    AloneIsRefresh(v, c, now, now, now, now, ttl);
    var (v', call') := RunAlone(v, c, [now, now, now, now], ttl);
    hide RunAlone;
    if call'.pc.result == REUSE_DETECTED {
      assert v'.tokens == FamilyRevoked(v.tokens, v.tokens[c.presented].family, now);
    }
  }

  // --------------------------------------------------------------- no overlap

  // Between its read of a live token of f and the end of its update.
  predicate Inside(call: Call, f: Family) {
    match call.pc
    case Creating(stored) => stored.family == f
    case Finding(stored) => stored.family == f
    case Updating(stored, _) => stored.family == f
    case _ => false
  }

  ghost predicate Busy(w: World, f: Family) { exists c <- w.calls :: Inside(w.calls[c], f) }

  // No move enters, revokes or logs out a family another refresh is inside.
  ghost predicate Apart(w: World, m: Move) {
    match m
    case Go(c, _) =>
      c in w.calls ==>
        (match w.calls[c].pc
         case Reading =>
           (w.calls[c].presented in w.vault.tokens && Live(w.vault.tokens[w.calls[c].presented])) ==>
             !Busy(w, w.vault.tokens[w.calls[c].presented].family)
         case Revoking(f) => !Busy(w, f)
         case _ => true)
    case Other(Logout(p, _)) => p in w.vault.tokens && Live(w.vault.tokens[p]) ==> !Busy(w, w.vault.tokens[p].family)
    case _ => true
  }

  // ---------------------------------------------------------------- invariant

  // The call has issued its token and not yet spent the one presented.
  predicate Midway(call: Call) { call.pc.Finding? || call.pc.Updating? }

  function Spent(t: Token, next: Secret): Token { t.(revokedAt := Some(0), replacedBy := Some(next)) }

  // The family as it will be once the call's update is in.
  ghost function Settling(v: Vault, p: Secret, next: Secret): Vault {
    if p in v.tokens then v.(tokens := v.tokens[p := Spent(v.tokens[p], next)]) else v
  }

  // A call inside a family presents its newest token, or has just issued the newest.
  ghost predicate CallOk(v: Vault, call: Call, ttl: nat) {
    match call.pc
    case Reading => FreshSecret(v, call.next)
    case Creating(stored) =>
      && FreshSecret(v, call.next) && stored.family in v.chain
      && var ch := v.chain[stored.family];
         ch != [] && ch[|ch| - 1] == call.presented && stored.expiresAt <= v.clock + ttl
         && (call.presented in v.tokens ==> v.tokens[call.presented] == stored && Live(stored))
    case Finding(stored) => MidwayOk(v, call, stored.family, ttl)
    case Updating(stored, replacement) =>
      MidwayOk(v, call, stored.family, ttl) && (call.presented in v.tokens ==> replacement == Some(call.next))
    case _ => true
  }

  ghost predicate MidwayOk(v: Vault, call: Call, f: Family, ttl: nat) {
    f in v.chain && ChainOk(Settling(v, call.presented, call.next), f, ttl)
    && var ch := v.chain[f];
       |ch| >= 2 && ch[|ch| - 2] == call.presented && ch[|ch| - 1] == call.next
  }

  ghost predicate Owned(v: Vault) {
    && (forall s <- v.tokens :: v.tokens[s].family in v.chain && s in v.chain[v.tokens[s].family])
    && (forall f, g, s | f in v.chain && g in v.chain && s in v.chain[f] && s in v.chain[g] :: f == g)
  }

  ghost predicate IsMidway(w: World, f: Family) { exists c <- w.calls :: Inside(w.calls[c], f) && Midway(w.calls[c]) }

  ghost predicate RaceInv(w: World, ttl: nat) {
    && Owned(w.vault)
    && (forall f <- w.vault.chain | !IsMidway(w, f) :: ChainOk(w.vault, f, ttl))
    && (forall c <- w.calls :: CallOk(w.vault, w.calls[c], ttl))
    && (forall c, d, f | c in w.calls && d in w.calls && Inside(w.calls[c], f) && Inside(w.calls[d], f) :: c == d)
    && (forall c, d | c in w.calls && d in w.calls && c != d :: w.calls[c].next != w.calls[d].next)
  }

  // --------------------------------------------------------------- frames

  // The family's chain and its stored tokens are as they were.
  ghost predicate SameFamily(v: Vault, v': Vault, f: Family) {
    && v.clock <= v'.clock && f in v.chain && f in v'.chain && v'.chain[f] == v.chain[f]
    && forall s <- v.chain[f] :: (s in v'.tokens <==> s in v.tokens) && (s in v.tokens ==> v'.tokens[s] == v.tokens[s])
  }

  lemma SettlingStays(v: Vault, v': Vault, f: Family, p: Secret, next: Secret, ttl: nat)
    requires SameFamily(v, v', f) && p in v.chain[f] && ChainOk(Settling(v, p, next), f, ttl)
    ensures ChainOk(Settling(v', p, next), f, ttl)
  {
    ChainStays(Settling(v, p, next), Settling(v', p, next), f, ttl) by { hide ChainOk; }
  }

  lemma CallStays(v: Vault, v': Vault, call: Call, ttl: nat)
    requires CallOk(v, call, ttl) && v.clock <= v'.clock
    requires forall f | Inside(call, f) :: SameFamily(v, v', f)
    requires call.pc.Reading? || call.pc.Creating? ==> FreshSecret(v', call.next)
    ensures CallOk(v', call, ttl)
  {
    hide ChainOk, FreshSecret, SameFamily, Settling;
    match call.pc
    case Creating(stored) => CreatingStays(v, v', call, stored, ttl);
    case Finding(stored) => MidwayStays(v, v', call, stored.family, ttl);
    case Updating(stored, _) => MidwayStays(v, v', call, stored.family, ttl);
    case _ =>
  }

  lemma CreatingStays(v: Vault, v': Vault, call: Call, stored: Token, ttl: nat)
    requires call.pc == Creating(stored) && CallOk(v, call, ttl) && SameFamily(v, v', stored.family)
             && FreshSecret(v', call.next)
    ensures CallOk(v', call, ttl)
  {
    var ch := v.chain[stored.family];
    assert ch[|ch| - 1] in ch;
    hide FreshSecret;
  }

  lemma MidwayStays(v: Vault, v': Vault, call: Call, f: Family, ttl: nat)
    requires MidwayOk(v, call, f, ttl) && SameFamily(v, v', f)
    ensures MidwayOk(v', call, f, ttl) && (call.presented in v'.tokens <==> call.presented in v.tokens)
  {
    var ch := v.chain[f];
    assert ch[|ch| - 2] in ch;
    SettlingStays(v, v', f, call.presented, call.next, ttl);
    hide ChainOk, Settling;
  }

  // Only the clock has moved on.
  lemma ClockOnly(v: Vault, now: nat)
    requires now >= v.clock
    ensures forall f <- v.chain :: SameFamily(v, v.(clock := now), f)
    ensures Owned(v) ==> Owned(v.(clock := now))
    ensures forall s :: FreshSecret(v, s) ==> FreshSecret(v.(clock := now), s)
  {
  }

  // A live token of a family in order is its newest.
  lemma LiveIsNewest(v: Vault, f: Family, p: Secret, ttl: nat)
    requires Owned(v) && f in v.chain && ChainOk(v, f, ttl) && p in v.tokens && v.tokens[p].family == f
             && Live(v.tokens[p])
    ensures var ch := v.chain[f]; ch != [] && ch[|ch| - 1] == p && v.tokens[p].expiresAt <= v.clock + ttl
  {
    var ch := v.chain[f];
    var i :| 0 <= i < |ch| && ch[i] == p;
    assert LinkOk(v, f, i, ttl);
  }

  // ------------------------------------------------------- the call's own steps

  lemma CreatedChain(v: Vault, call: Call, stored: Token, now: nat, ttl: nat)
    requires Owned(v) && call.pc == Creating(stored) && CallOk(v, call, ttl) && ChainOk(v, stored.family, ttl)
             && now >= v.clock
    ensures var v' := Executed(v, call, now, ttl).0; Owned(v') && MidwayOk(v', call, stored.family, ttl)
  {
    CreatedOwned(v, call, stored, now, ttl);
    var v', f := Executed(v, call, now, ttl).0, stored.family;
    var ch, n := v.chain[f], |v.chain[f]|;
    assert v'.chain[f] == ch + [call.next] && call.next !in ch;
    var e := Settling(v', call.presented, call.next);
    assert LinkOk(e, f, n, ttl);
    hide LinkOk, Owned;
    forall i | 0 <= i <= n
      ensures LinkOk(e, f, i, ttl)
    {
      if i < n { CreatedLink(v, call, stored, now, ttl, i); }
    }
  }

  lemma CreatedOwned(v: Vault, call: Call, stored: Token, now: nat, ttl: nat)
    requires Owned(v) && call.pc == Creating(stored) && CallOk(v, call, ttl) && now >= v.clock
    ensures Owned(Executed(v, call, now, ttl).0)
  {
    hide ChainOk, MidwayOk;
    var v', f := Executed(v, call, now, ttl).0, stored.family;
    assert forall s :: s in v'.chain[f] <==> s in v.chain[f] || s == call.next;
  }

  lemma CreatedLink(v: Vault, call: Call, stored: Token, now: nat, ttl: nat, i: nat)
    requires Owned(v) && call.pc == Creating(stored) && CallOk(v, call, ttl) && ChainOk(v, stored.family, ttl)
             && now >= v.clock
    requires i < |v.chain[stored.family]|
    ensures var e := Settling(Executed(v, call, now, ttl).0, call.presented, call.next);
            i < |e.chain[stored.family]| && LinkOk(e, stored.family, i, ttl)
  {
    var f, ch := stored.family, v.chain[stored.family];
    var e := Settling(Executed(v, call, now, ttl).0, call.presented, call.next);
    assert LinkOk(v, f, i, ttl) && e.chain[f] == ch + [call.next] && call.next !in ch;
    assert e.chain[f][i] == ch[i] && ch[i] in ch;
    if i + 1 < |ch| { assert e.chain[f][i + 1] == ch[i + 1] && ch[i] != call.presented; }
  }

  // Once updated, the family is in order again.
  lemma UpdatedChain(v: Vault, call: Call, stored: Token, now: nat, ttl: nat)
    requires Owned(v) && call.pc.Updating? && call.pc.stored == stored && CallOk(v, call, ttl) && now >= v.clock
    ensures var v' :=
            Executed(v, call, now, ttl).0; Owned(v') && stored.family in v'.chain && ChainOk(v', stored.family, ttl)
  {
    var v', f := Executed(v, call, now, ttl).0, stored.family;
    var e := Settling(v, call.presented, call.next);
    forall i | 0 <= i < |v'.chain[f]|
      ensures LinkOk(v', f, i, ttl)
    {
      assert LinkOk(e, f, i, ttl);
    }
  }

  lemma ReplacementFound(v: Vault, call: Call, f: Family, ttl: nat)
    requires MidwayOk(v, call, f, ttl)
    ensures call.presented in v.tokens ==> call.next in v.tokens
  {
    var n := |v.chain[f]|;
    assert LinkOk(Settling(v, call.presented, call.next), f, n - 2, ttl);
  }

  // --------------------------------------------------------------- whole moves

  // Nobody but c is inside f.
  ghost predicate OnlyInside(w: World, c: CallId, f: Family) {
    forall d <- w.calls | d != c :: !Inside(w.calls[d], f)
  }

  // The statement of c may have touched the families in `own`, which only c
  // is inside; everything else is as it was.
  ghost predicate Local(w: World, c: CallId, v': Vault, call': Call, own: set<Family>)
    requires c in w.calls
  {
    var v, call := w.vault, w.calls[c];
    && v.clock <= v'.clock && v'.chain.Keys == v.chain.Keys
    && call'.next == call.next
    && (forall f <- v.chain | f !in own :: SameFamily(v, v', f))
    && (forall f <- own :: OnlyInside(w, c, f))
    && (forall f | Inside(call, f) || Inside(call', f) :: f in own)
    && (forall d <- w.calls | d != c && FreshSecret(v, w.calls[d].next) :: FreshSecret(v', w.calls[d].next))
  }

  lemma LocalKeeps(w: World, c: CallId, v': Vault, call': Call, own: set<Family>, ttl: nat)
    requires RaceInv(w, ttl) && c in w.calls && Local(w, c, v', call', own)
    requires Owned(v') && CallOk(v', call', ttl)
    requires forall f <- own | f in v'.chain && !(Inside(call', f) && Midway(call')) :: ChainOk(v', f, ttl)
    ensures RaceInv(World(v', w.calls[c := call']), ttl)
  {
    hide ChainOk, Owned, CallOk, FreshSecret;
    var w' := World(v', w.calls[c := call']);
    forall f <- v'.chain | !IsMidway(w', f)
      ensures ChainOk(v', f, ttl)
    {
      if f in own {
        assert !(Inside(w'.calls[c], f) && Midway(w'.calls[c]));
      } else {
        ChainElsewhere(w, c, v', call', own, f, ttl);
      }
    }
    forall d <- w'.calls
      ensures CallOk(v', w'.calls[d], ttl)
    {
      if d != c { OtherCallStays(w, c, v', call', own, d, ttl); }
    }
    forall d, e, f | d in w'.calls && e in w'.calls && Inside(w'.calls[d], f) && Inside(w'.calls[e], f)
      ensures d == e
    {
      assert d != c && e != c ==> Inside(w.calls[d], f) && Inside(w.calls[e], f);
    }
  }

  lemma ChainElsewhere(w: World, c: CallId, v': Vault, call': Call, own: set<Family>, f: Family, ttl: nat)
    requires RaceInv(w, ttl) && c in w.calls && Local(w, c, v', call', own) && f in v'.chain && f !in own
    requires !IsMidway(World(v', w.calls[c := call']), f)
    ensures ChainOk(v', f, ttl)
  {
    hide CallOk, FreshSecret;
    var w' := World(v', w.calls[c := call']);
    forall d <- w.calls
      ensures !(Inside(w.calls[d], f) && Midway(w.calls[d]))
    {
      if d != c { assert w'.calls[d] == w.calls[d]; }
    }
    hide ChainOk;
    ChainStays(w.vault, v', f, ttl);
  }

  lemma OtherCallStays(w: World, c: CallId, v': Vault, call': Call, own: set<Family>, d: CallId, ttl: nat)
    requires RaceInv(w, ttl) && c in w.calls && Local(w, c, v', call', own) && d in w.calls && d != c
    ensures CallOk(v', w.calls[d], ttl)
  {
    hide ChainOk, FreshSecret, SameFamily;
    var v, call := w.vault, w.calls[d];
    assert CallOk(v, call, ttl);
    forall f | Inside(call, f)
      ensures SameFamily(v, v', f)
    {
      InsideKnown(v, call, f, ttl);
      assert f !in own;
    }
    CallStays(v, v', call, ttl);
  }

  lemma InsideKnown(v: Vault, call: Call, f: Family, ttl: nat)
    requires CallOk(v, call, ttl) && Inside(call, f)
    ensures f in v.chain
  {
    hide ChainOk;
  }

  // A read that finds a live token enters its family.
  lemma EnterKeeps(w: World, c: CallId, now: nat, ttl: nat)
    requires RaceInv(w, ttl) && CanMove(w, Go(c, now)) && Apart(w, Go(c, now)) && w.calls[c].pc.Reading?
    requires Executed(w.vault, w.calls[c], now, ttl).1.Creating?
    ensures RaceInv(Executing(w, c, now, ttl), ttl)
  {
    var v, call := w.vault, w.calls[c];
    var f := v.tokens[call.presented].family;
    var call' := call.(pc := Creating(v.tokens[call.presented]));
    assert Executing(w, c, now, ttl) == World(v.(clock := now), w.calls[c := call']) by { hide RaceInv, Apart; }
    EnterFacts(w, c, now, ttl);
    hide *;
    LocalKeeps(w, c, v.(clock := now), call', {f}, ttl);
  }

  lemma EnterFacts(w: World, c: CallId, now: nat, ttl: nat)
    requires RaceInv(w, ttl) && CanMove(w, Go(c, now)) && Apart(w, Go(c, now)) && w.calls[c].pc.Reading?
    requires Executed(w.vault, w.calls[c], now, ttl).1.Creating?
    ensures var v, call := w.vault, w.calls[c];
            var f, v', call' :=
                v.tokens[call.presented].family, v.(clock := now), call.(pc := Creating(v.tokens[call.presented]));
            Local(w, c, v', call', {f}) && Owned(v') && CallOk(v', call', ttl) && f in v'.chain && ChainOk(v', f, ttl)
  {
    hide ChainOk, SameFamily, FreshSecret, Owned, CallOk;
    var v, call := w.vault, w.calls[c];
    var f := v.tokens[call.presented].family;
    RaceOwned(w, ttl);
    OwnedFamily(v, call.presented);
    assert OnlyInside(w, c, f);
    QuietChain(w, f, ttl);
    assert CallOk(v, call, ttl);
    hide RaceInv, OnlyInside, Busy, Apart;
    ClockOnly(v, now);
    ClockChain(v, now, f, ttl);
    EnteredOk(v, call, now, f, ttl);
  }

  lemma EnteredOk(v: Vault, call: Call, now: nat, f: Family, ttl: nat)
    requires Owned(v) && call.pc.Reading? && CallOk(v, call, ttl) && now >= v.clock && f in v.chain
             && ChainOk(v, f, ttl)
    requires call.presented in v.tokens && v.tokens[call.presented].family == f && Live(v.tokens[call.presented])
    ensures CallOk(v.(clock := now), call.(pc := Creating(v.tokens[call.presented])), ttl)
  {
    hide ChainOk, Owned;
    LiveIsNewest(v, f, call.presented, ttl);
  }

  lemma ClockChain(v: Vault, now: nat, f: Family, ttl: nat)
    requires f in v.chain && ChainOk(v, f, ttl) && now >= v.clock
    ensures ChainOk(v.(clock := now), f, ttl)
  {
    hide ChainOk;
    ChainStays(v, v.(clock := now), f, ttl);
  }

  lemma ReadKeeps(w: World, c: CallId, now: nat, ttl: nat)
    requires RaceInv(w, ttl) && CanMove(w, Go(c, now)) && Apart(w, Go(c, now)) && w.calls[c].pc.Reading?
    ensures RaceInv(Executing(w, c, now, ttl), ttl)
  {
    hide ChainOk, SameFamily, FreshSecret, Owned;
    if Executed(w.vault, w.calls[c], now, ttl).1.Creating? {
      EnterKeeps(w, c, now, ttl);
    } else {
      ClockOnly(w.vault, now);
      LocalKeeps(w, c, w.vault.(clock := now), w.calls[c].(pc := Executed(w.vault, w.calls[c], now, ttl).1), {}, ttl);
    }
  }

  lemma OwnedFamily(v: Vault, s: Secret)
    requires Owned(v) && s in v.tokens
    ensures v.tokens[s].family in v.chain
  {
  }

  lemma RevokeStep(w: World, c: CallId, now: nat, ttl: nat)
    requires RaceInv(w, ttl) && CanMove(w, Go(c, now)) && Apart(w, Go(c, now)) && w.calls[c].pc.Revoking?
    ensures RaceInv(Executing(w, c, now, ttl), ttl)
  {
    hide ChainOk, SameFamily, FreshSecret, Owned, FamilyRevoked, CallOk;
    var v, call := w.vault, w.calls[c];
    var f := call.pc.family;
    var (v', pc') := Executed(v, call, now, ttl);
    RaceOwned(w, ttl);
    assert OnlyInside(w, c, f);
    if f in v.chain { QuietChain(w, f, ttl); }
    hide RaceInv, Busy, OnlyInside, Apart;
    RevokedVault(v, f, now);
    if f in v.chain { RevokedChain(v, f, now, ttl); }
    EndedOk(v', call.(pc := pc'), ttl);
    LocalKeeps(w, c, v', call.(pc := pc'), {f}, ttl);
  }

  lemma RevokedChain(v: Vault, f: Family, now: nat, ttl: nat)
    requires f in v.chain && ChainOk(v, f, ttl) && now >= v.clock
    ensures ChainOk(Vault(FamilyRevoked(v.tokens, f, now), v.chain, now), f, ttl)
  {
    ChainRevoked(v, Vault(FamilyRevoked(v.tokens, f, now), v.chain, now), f, ttl) by { hide ChainOk; }
  }

  lemma EndedOk(v: Vault, call: Call, ttl: nat)
    requires call.pc.Ended? || call.pc.Vanished? || call.pc.Revoking?
    ensures CallOk(v, call, ttl)
  {
  }

  lemma RevokedVault(v: Vault, f: Family, now: nat)
    requires Owned(v) && now >= v.clock
    ensures var v' := Vault(FamilyRevoked(v.tokens, f, now), v.chain, now);
            Owned(v') && (forall g <- v.chain | g != f :: SameFamily(v, v', g))
            && forall s :: FreshSecret(v, s) ==> FreshSecret(v', s)
  {
  }

  lemma CreateKeeps(w: World, c: CallId, now: nat, ttl: nat)
    requires RaceInv(w, ttl) && CanMove(w, Go(c, now)) && w.calls[c].pc.Creating?
    ensures RaceInv(Executing(w, c, now, ttl), ttl)
  {
    hide ChainOk, SameFamily, FreshSecret, Owned, Settling;
    var v, call := w.vault, w.calls[c];
    var f := call.pc.stored.family;
    var (v', pc') := Executed(v, call, now, ttl);
    AloneInside(w, c, f, ttl);
    assert !IsMidway(w, f);
    CreatedChain(v, call, call.pc.stored, now, ttl);
    CreatedElsewhere(w, c, now, ttl);
    hide RaceInv, IsMidway, Executed, MidwayOk;
    LocalKeeps(w, c, v', call.(pc := pc'), {f}, ttl);
  }

  lemma AloneInside(w: World, c: CallId, f: Family, ttl: nat)
    requires RaceInv(w, ttl) && c in w.calls && Inside(w.calls[c], f)
    ensures OnlyInside(w, c, f) && CallOk(w.vault, w.calls[c], ttl) && f in w.vault.chain && Owned(w.vault)
  {
    hide ChainOk, Owned, FreshSecret;
    InsideKnown(w.vault, w.calls[c], f, ttl);
  }

  lemma CreatedElsewhere(w: World, c: CallId, now: nat, ttl: nat)
    requires RaceInv(w, ttl) && CanMove(w, Go(c, now)) && w.calls[c].pc.Creating?
    ensures var v, v', f := w.vault, Executed(w.vault, w.calls[c], now, ttl).0, w.calls[c].pc.stored.family;
            && Executed(w.vault, w.calls[c], now, ttl).1 == Finding(w.calls[c].pc.stored)
            && v'.chain.Keys == v.chain.Keys && v.clock <= v'.clock && f in v.chain
            && (forall g <- v.chain | g != f :: SameFamily(v, v', g))
            && forall d <- w.calls | d != c && FreshSecret(v, w.calls[d].next) :: FreshSecret(v', w.calls[d].next)
  {
    hide ChainOk, Owned;
    var v, call := w.vault, w.calls[c];
    assert CallOk(v, call, ttl);
    assert forall d <- w.calls | d != c :: w.calls[d].next != call.next;
    hide RaceInv;
    ExecutedElsewhere(v, call, now, ttl);
  }

  lemma ExecutedElsewhere(v: Vault, call: Call, now: nat, ttl: nat)
    requires call.pc.Creating? && FreshSecret(v, call.next) && call.pc.stored.family in v.chain && now >= v.clock
    ensures var v', f := Executed(v, call, now, ttl).0, call.pc.stored.family;
            && (forall g <- v.chain | g != f :: SameFamily(v, v', g))
            && forall s | s != call.next && FreshSecret(v, s) :: FreshSecret(v', s)
  {
  }

  lemma SettleStep(w: World, c: CallId, now: nat, ttl: nat)
    requires RaceInv(w, ttl) && CanMove(w, Go(c, now)) && Midway(w.calls[c])
    ensures RaceInv(Executing(w, c, now, ttl), ttl)
  {
    hide ChainOk, SameFamily, FreshSecret, Owned, Settling;
    var v, call := w.vault, w.calls[c];
    var f := call.pc.stored.family;
    var (v', pc') := Executed(v, call, now, ttl);
    AloneInside(w, c, f, ttl);
    hide RaceInv, IsMidway;
    if call.pc.Finding? {
      ClockOnly(v, now);
      MidwayStays(v, v', call, f, ttl);
      ReplacementFound(v, call, f, ttl);
      hide MidwayOk;
      LocalKeeps(w, c, v', call.(pc := pc'), {f}, ttl);
    } else {
      UpdatedChain(v, call, call.pc.stored, now, ttl);
      UpdatedElsewhere(v, call, now, ttl);
      hide MidwayOk;
      LocalKeeps(w, c, v', call.(pc := pc'), {f}, ttl);
    }
  }

  lemma UpdatedElsewhere(v: Vault, call: Call, now: nat, ttl: nat)
    requires Owned(v) && call.pc.Updating? && CallOk(v, call, ttl) && now >= v.clock
    ensures var v' := Executed(v, call, now, ttl).0;
            && v'.chain == v.chain && v.clock <= v'.clock
            && (forall g <- v.chain | g != call.pc.stored.family :: SameFamily(v, v', g))
            && forall s :: FreshSecret(v, s) ==> FreshSecret(v', s)
  {
    hide ChainOk;
    var f := call.pc.stored.family;
    var ch := v.chain[f];
    assert ch[|ch| - 2] in ch;
  }

  lemma GoKeeps(w: World, c: CallId, now: nat, ttl: nat)
    requires RaceInv(w, ttl) && CanMove(w, Go(c, now)) && Apart(w, Go(c, now))
    ensures RaceInv(Executing(w, c, now, ttl), ttl)
  {
    hide RaceInv, Executing;
    match w.calls[c].pc
    case Reading => ReadKeeps(w, c, now, ttl);
    case Revoking(_) => RevokeStep(w, c, now, ttl);
    case Creating(_) => CreateKeeps(w, c, now, ttl);
    case _ => SettleStep(w, c, now, ttl);
  }

  // A change of the vault that is no refresh: the families in `own` are no
  // call's business.
  lemma VaultKeeps(w: World, v': Vault, own: set<Family>, ttl: nat)
    requires RaceInv(w, ttl) && Owned(v') && w.vault.clock <= v'.clock && w.vault.chain.Keys <= v'.chain.Keys
    requires forall f <- w.vault.chain | f !in own :: SameFamily(w.vault, v', f)
    requires forall f <- own :: !Busy(w, f)
    requires forall f <- v'.chain | f in own || f !in w.vault.chain :: ChainOk(v', f, ttl)
    requires forall c <- w.calls | FreshSecret(w.vault, w.calls[c].next) :: FreshSecret(v', w.calls[c].next)
    ensures RaceInv(w.(vault := v'), ttl)
  {
    hide ChainOk, Owned, FreshSecret, SameFamily;
    var w' := w.(vault := v');
    forall f <- v'.chain | !IsMidway(w', f)
      ensures ChainOk(v', f, ttl)
    {
      if f !in own && f in w.vault.chain {
        assert !IsMidway(w, f);
        SameChain(w.vault, v', f, ttl);
      }
    }
    forall c <- w.calls
      ensures CallOk(v', w.calls[c], ttl)
    {
      CallUnmoved(w, v', own, c, ttl);
    }
  }

  lemma SameChain(v: Vault, v': Vault, f: Family, ttl: nat)
    requires SameFamily(v, v', f) && ChainOk(v, f, ttl)
    ensures ChainOk(v', f, ttl)
  {
    hide ChainOk;
    ChainStays(v, v', f, ttl);
  }

  lemma CallUnmoved(w: World, v': Vault, own: set<Family>, c: CallId, ttl: nat)
    requires RaceInv(w, ttl) && w.vault.clock <= v'.clock && c in w.calls
    requires forall f <- w.vault.chain | f !in own :: SameFamily(w.vault, v', f)
    requires forall f <- own :: !Busy(w, f)
    requires FreshSecret(w.vault, w.calls[c].next) ==> FreshSecret(v', w.calls[c].next)
    ensures CallOk(v', w.calls[c], ttl)
  {
    hide ChainOk, Owned, FreshSecret, SameFamily;
    var call := w.calls[c];
    assert CallOk(w.vault, call, ttl);
    forall f | Inside(call, f)
      ensures SameFamily(w.vault, v', f)
    {
      InsideKnown(w.vault, call, f, ttl);
      assert Busy(w, f);
    }
    CallStays(w.vault, v', call, ttl);
  }

  lemma LoginMove(w: World, e: Step, ttl: nat)
    requires RaceInv(w, ttl) && CanMove(w, Other(e)) && e.Login?
    ensures RaceInv(w.(vault := After(w.vault, e, ttl)), ttl)
  {
    hide ChainOk;
    var v, v' := w.vault, After(w.vault, e, ttl);
    assert Owned(v) && (forall c <- w.calls :: w.calls[c].next != e.secret);
    hide RaceInv;
    LoginElsewhere(v, e, ttl);
    NewChain(v', e.family, e.secret, ttl);
    hide Owned, FreshSecret, SameFamily, After;
    VaultKeeps(w, v', {}, ttl);
  }

  lemma LoginElsewhere(v: Vault, e: Step, ttl: nat)
    requires Owned(v) && e.Login? && Can(v, e)
    ensures var v' := After(v, e, ttl);
            && Owned(v') && v.clock <= v'.clock && v'.chain == v.chain[e.family := [e.secret]]
            && e.secret in v'.tokens && v'.tokens[e.secret] == Token(e.user, e.family, e.now + ttl, None, None)
            && v'.clock == e.now
            && (forall f <- v.chain :: SameFamily(v, v', f))
            && forall s | s != e.secret && FreshSecret(v, s) :: FreshSecret(v', s)
  {
    var v' := After(v, e, ttl);
    assert Owned(v') by { hide SameFamily; }
    hide Owned;
  }

  lemma LogoutMove(w: World, e: Step, ttl: nat)
    requires RaceInv(w, ttl) && CanMove(w, Other(e)) && Apart(w, Other(e)) && e.Logout?
    ensures RaceInv(w.(vault := After(w.vault, e, ttl)), ttl)
  {
    hide ChainOk, FreshSecret, Owned, SameFamily;
    var v, v' := w.vault, After(w.vault, e, ttl);
    RaceOwned(w, ttl);
    if e.presented in v.tokens && Live(v.tokens[e.presented]) {
      var f := v.tokens[e.presented].family;
      assert !Busy(w, f);
      OwnedFamily(v, e.presented);
      QuietChain(w, f, ttl);
      hide RaceInv, Busy;
      LogoutElsewhere(v, e, ttl);
      OnlyRevoked(v, e, ttl);
      hide After, Apart, CanMove;
      ChainRevoked(v, v', f, ttl);
      VaultKeeps(w, v', {f}, ttl);
    } else {
      assert v' == v.(clock := e.now);
      hide RaceInv, After, Busy;
      ClockOnly(v, e.now);
      VaultKeeps(w, v', {}, ttl);
    }
  }

  lemma QuietChain(w: World, f: Family, ttl: nat)
    requires RaceInv(w, ttl) && f in w.vault.chain && !Busy(w, f)
    ensures ChainOk(w.vault, f, ttl)
  {
    hide ChainOk, Owned, CallOk;
    assert !IsMidway(w, f);
  }

  lemma RaceOwned(w: World, ttl: nat)
    requires RaceInv(w, ttl)
    ensures Owned(w.vault)
  {
  }

  lemma LogoutElsewhere(v: Vault, e: Step, ttl: nat)
    requires Owned(v) && e.Logout? && Can(v, e) && e.presented in v.tokens
    ensures var v' := After(v, e, ttl);
            && Owned(v') && v.clock <= v'.clock && v'.chain == v.chain
            && (forall f <- v.chain | f != v.tokens[e.presented].family :: SameFamily(v, v', f))
            && forall s | FreshSecret(v, s) :: FreshSecret(v', s)
  {
  }

  lemma PurgeMove(w: World, e: Step, ttl: nat)
    requires RaceInv(w, ttl) && CanMove(w, Other(e)) && e.Purge?
    ensures RaceInv(w.(vault := After(w.vault, e, ttl)), ttl)
  {
    hide ChainOk, FreshSecret;
    var v, v' := w.vault, After(w.vault, e, ttl);
    var w' := w.(vault := v');
    forall f <- v'.chain | !IsMidway(w', f)
      ensures ChainOk(v', f, ttl)
    {
      assert !IsMidway(w, f);
      ChainPurged(v, v', f, e.now, ttl);
    }
    forall c <- w.calls
      ensures CallOk(v', w.calls[c], ttl)
    {
      assert CallOk(v, w.calls[c], ttl);
      CallPurged(v, v', w.calls[c], e.now, ttl);
    }
  }

  lemma CallPurged(v: Vault, v': Vault, call: Call, now: nat, ttl: nat)
    requires CallOk(v, call, ttl) && v'.chain == v.chain && v.clock <= v'.clock && v'.tokens == Purged(v.tokens, now)
    ensures CallOk(v', call, ttl)
  {
    hide ChainOk;
    if Midway(call) { MidwayPurged(v, v', call, call.pc.stored.family, now, ttl); }
    hide MidwayOk;
  }

  lemma MidwayPurged(v: Vault, v': Vault, call: Call, f: Family, now: nat, ttl: nat)
    requires MidwayOk(v, call, f, ttl) && v'.chain == v.chain && v.clock <= v'.clock
             && v'.tokens == Purged(v.tokens, now)
    ensures MidwayOk(v', call, f, ttl)
  {
    var e, e' := Settling(v, call.presented, call.next), Settling(v', call.presented, call.next);
    assert e'.tokens == Purged(e.tokens, now);
    ChainPurged(e, e', f, now, ttl) by { hide ChainOk; }
  }

  lemma BeginKeeps(w: World, c: CallId, presented: Secret, next: Secret, ttl: nat)
    requires RaceInv(w, ttl) && CanMove(w, Begin(c, presented, next))
    ensures RaceInv(w.(calls := w.calls[c := Call(presented, next, Reading)]), ttl)
  {
    hide ChainOk, Owned, FreshSecret;
    var w' := w.(calls := w.calls[c := Call(presented, next, Reading)]);
    forall f <- w.vault.chain | !IsMidway(w', f)
      ensures ChainOk(w.vault, f, ttl)
    {
      forall d <- w.calls
        ensures !(Inside(w.calls[d], f) && Midway(w.calls[d]))
      {
        assert w'.calls[d] == w.calls[d];
      }
    }
    hide CallOk;
    assert CallOk(w.vault, Call(presented, next, Reading), ttl) by { NewCallOk(w.vault, presented, next, ttl); }
  }

  lemma NewCallOk(v: Vault, presented: Secret, next: Secret, ttl: nat)
    requires FreshSecret(v, next)
    ensures CallOk(v, Call(presented, next, Reading), ttl)
  {
  }

  lemma MoveKeeps(w: World, m: Move, ttl: nat)
    requires RaceInv(w, ttl) && CanMove(w, m) && Apart(w, m)
    ensures RaceInv(Moved(w, m, ttl), ttl)
  {
    hide RaceInv, Executing, Unissued, FreshSecret;
    match m
    case Begin(c, presented, next) => BeginKeeps(w, c, presented, next, ttl);
    case Go(c, now) => GoKeeps(w, c, now, ttl);
    case Other(e) =>
      if e.Login? { LoginMove(w, e, ttl); } else if e.Logout? { LogoutMove(w, e, ttl); } else { PurgeMove(w, e, ttl); }
  }

  // A run in which no refresh overlaps another refresh, a logout or a
  // revocation of its family.
  ghost predicate RunsApart(w: World, moves: seq<Move>, w': World, ttl: nat)
    decreases |moves|
  {
    if moves == [] then w' == w else
      CanMove(w, moves[0]) && Apart(w, moves[0]) && RunsApart(Moved(w, moves[0], ttl), moves[1..], w', ttl)
  }

  lemma {:induction false} RunKeeps(w: World, moves: seq<Move>, w': World, ttl: nat)
    requires RaceInv(w, ttl) && RunsApart(w, moves, w', ttl)
    ensures RaceInv(w', ttl)
    decreases |moves|
  {
    if moves != [] {
      MoveKeeps(w, moves[0], ttl);
      hide RaceInv, CanMove, Moved, Apart;
      RunKeeps(Moved(w, moves[0], ttl), moves[1..], w', ttl);
    }
  }

  // From an empty table on, in every such run: a family no refresh is inside
  // is in order, and two tokens of a family are live together only while a
  // refresh that issued the newer has yet to spend the older.
  lemma FamiliesHoldApart(start: nat, moves: seq<Move>, w: World, ttl: nat, s: Secret, t: Secret)
    requires RunsApart(World(Vault(map[], map[], start), map[]), moves, w, ttl)
    ensures forall f <- w.vault.chain | !Busy(w, f) :: ChainOk(w.vault, f, ttl)
    ensures (s in w.vault.tokens && t in w.vault.tokens && s != t && Live(w.vault.tokens[s]) && Live(w.vault.tokens[t])
             && w.vault.tokens[s].family == w.vault.tokens[t].family) ==> IsMidway(w, w.vault.tokens[s].family)
  {
    RunKeeps(World(Vault(map[], map[], start), map[]), moves, w, ttl);
    hide ChainOk, CallOk;
    forall f <- w.vault.chain | !Busy(w, f)
      ensures ChainOk(w.vault, f, ttl)
    {
      assert !IsMidway(w, f);
    }
    if s in w.vault.tokens && t in w.vault.tokens && Live(w.vault.tokens[s]) && Live(w.vault.tokens[t])
       && w.vault.tokens[s].family == w.vault.tokens[t].family && !IsMidway(w, w.vault.tokens[s].family) {
      LiveIsNewest(w.vault, w.vault.tokens[s].family, s, ttl);
      LiveIsNewest(w.vault, w.vault.tokens[s].family, t, ttl);
    }
  }
}
