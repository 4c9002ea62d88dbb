// Single-flight refresh on the clients: requests, fetch replies and retention
// timers in any order. The edge proxy keeps one flight per refresh token for
// ten seconds after it settles; the browser's slot is the same machine with
// one key and a quarter of a second.
module SingleFlight {
  import opened Registry
  import opened Tokens

  const PROXY_RETENTION_MS: nat := 10000
  const BROWSER_RETENTION_MS: nat := 250

  type Key = nat
  type RequestId = nat
  type FlightId = nat

  // set-cookie headers, null, or an empty array; in the browser ok, not ok, or
  // a rejected promise.
  datatype Reply = RENEWED | REJECTED | UNREACHABLE

  datatype Landing = Landing(time: nat, reply: Reply)

  datatype Flight = Flight(key: Key, started: nat, settled: Option<Landing>)

  // slots: the module-level map (or the single variable); timers: retention
  // timers set and not fired; joined: which flight each request awaits.
  datatype Client = Client(now: nat, flights: seq<Flight>, slots: map<Key, FlightId>, timers: map<FlightId, nat>,
                           joined: map<RequestId, FlightId>)

  datatype Event =
    | Arrive(request: RequestId, key: Key)
    | Settle(id: FlightId, reply: Reply)
    | Fire(id: FlightId)
    | Tick(later: nat)

  ghost predicate CanHappen(c: Client, e: Event) {
    match e
    case Arrive(request, _) => request !in c.joined
    case Settle(id, _) => id < |c.flights| && c.flights[id].settled.None?
    case Fire(id) => id in c.timers && id < |c.flights| && c.now >= c.timers[id]
    case Tick(later) => later >= c.now
  }

  ghost function AfterEvent(c: Client, e: Event, retention: nat): Client
    requires CanHappen(c, e)
  {
    match e
    case Arrive(request, key) =>
      if key in c.slots then c.(joined := c.joined[request := c.slots[key]]) else
        var id := |c.flights|;
        c.(flights := c.flights + [Flight(key, c.now, None)], slots := c.slots[key := id],
           joined := c.joined[request := id])
    case Settle(id, reply) =>
      c.(flights := c.flights[id := c.flights[id].(settled := Some(Landing(c.now, reply)))],
         timers := c.timers[id := c.now + retention])
    case Fire(id) =>
      // The timer deletes by key, whatever flight the slot now holds.
      c.(slots := c.slots - {c.flights[id].key}, timers := c.timers - {id})
    case Tick(later) => c.(now := later)
  }

  // --------------------------------------------------------------- invariant

  ghost predicate FlightOk(c: Client, id: FlightId, retention: nat)
    requires id < |c.flights|
  {
    var f := c.flights[id];
    && f.started <= c.now
    && (f.settled.None? ==> id !in c.timers && f.key in c.slots && c.slots[f.key] == id)
    && (f.settled.Some? ==> f.started <= f.settled.value.time <= c.now)
    && (id in c.timers ==>
          f.settled.Some? && c.timers[id] == f.settled.value.time + retention && f.key in c.slots
          && c.slots[f.key] == id)
    // Gone from the slot only once the retention has passed.
    && (f.settled.Some? && id !in c.timers ==>
          f.settled.value.time + retention <= c.now && (f.key in c.slots ==> c.slots[f.key] != id))
  }

  // A later flight for the key starts only after this one's retention.
  ghost predicate SpacedOut(c: Client, retention: nat) {
    forall i, j | 0 <= i < j < |c.flights| && c.flights[i].key == c.flights[j].key ::
      c.flights[i].settled.Some? && c.flights[i].settled.value.time + retention <= c.flights[j].started
  }

  ghost predicate FlightInv(c: Client, retention: nat) {
    && (forall id | 0 <= id < |c.flights| :: FlightOk(c, id, retention))
    && (forall k <- c.slots :: c.slots[k] < |c.flights| && c.flights[c.slots[k]].key == k)
    && (forall id <- c.timers :: id < |c.flights|)
    && (forall r <- c.joined :: c.joined[r] < |c.flights|)
    && SpacedOut(c, retention)
  }

  // Deleting by key and deleting only one's own entry are the same: a timer
  // always finds its own flight in the slot.
  lemma FireDeletesOwn(c: Client, id: FlightId, retention: nat)
    requires FlightInv(c, retention) && CanHappen(c, Fire(id))
    ensures c.flights[id].key in c.slots && c.slots[c.flights[id].key] == id
  {
    assert FlightOk(c, id, retention);
  }

  lemma ArriveKeeps(c: Client, e: Event, retention: nat)
    requires FlightInv(c, retention) && CanHappen(c, e) && e.Arrive?
    ensures FlightInv(AfterEvent(c, e, retention), retention)
  {
    var c' := AfterEvent(c, e, retention);
    forall id | 0 <= id < |c'.flights|
      ensures FlightOk(c', id, retention)
    {
      if id < |c.flights| { assert FlightOk(c, id, retention); }
    }
    NewFlightSpaced(c, e, retention);
    hide FlightOk, SpacedOut;
  }

  lemma NewFlightSpaced(c: Client, e: Event, retention: nat)
    requires FlightInv(c, retention) && CanHappen(c, e) && e.Arrive?
    ensures SpacedOut(AfterEvent(c, e, retention), retention)
  {
    var c' := AfterEvent(c, e, retention);
    forall i, j | 0 <= i < j < |c'.flights| && c'.flights[i].key == c'.flights[j].key
      ensures c'.flights[i].settled.Some? && c'.flights[i].settled.value.time + retention <= c'.flights[j].started
    {
      assert FlightOk(c, i, retention);
    }
  }

  lemma SettleKeeps(c: Client, e: Event, retention: nat)
    requires FlightInv(c, retention) && CanHappen(c, e) && e.Settle?
    ensures FlightInv(AfterEvent(c, e, retention), retention)
  {
    var c' := AfterEvent(c, e, retention);
    forall id | 0 <= id < |c'.flights|
      ensures FlightOk(c', id, retention)
    {
      assert FlightOk(c, id, retention);
    }
  }

  lemma FireKeeps(c: Client, e: Event, retention: nat)
    requires FlightInv(c, retention) && CanHappen(c, e) && (e.Fire? || e.Tick?)
    ensures FlightInv(AfterEvent(c, e, retention), retention)
  {
    var c' := AfterEvent(c, e, retention);
    if e.Fire? { FireDeletesOwn(c, e.id, retention); assert FlightOk(c, e.id, retention); }
    forall id | 0 <= id < |c'.flights|
      ensures FlightOk(c', id, retention)
    {
      assert FlightOk(c, id, retention);
    }
  }

  lemma EventKeeps(c: Client, e: Event, retention: nat)
    requires FlightInv(c, retention) && CanHappen(c, e)
    ensures FlightInv(AfterEvent(c, e, retention), retention)
  {
    hide FlightInv;
    match e
    case Arrive(_, _) => ArriveKeeps(c, e, retention);
    case Settle(_, _) => SettleKeeps(c, e, retention);
    case _ => FireKeeps(c, e, retention);
  }

  ghost predicate Trace(c: Client, events: seq<Event>, c': Client, retention: nat)
    decreases |events|
  {
    if events == [] then c' == c else
      CanHappen(c, events[0]) && Trace(AfterEvent(c, events[0], retention), events[1..], c', retention)
  }

  ghost predicate Fresh(c: Client) { c.flights == [] && c.slots == map[] && c.timers == map[] && c.joined == map[] }

  lemma {:induction false} TraceKeeps(c: Client, events: seq<Event>, c': Client, retention: nat)
    requires FlightInv(c, retention) && Trace(c, events, c', retention)
    ensures FlightInv(c', retention)
    decreases |events|
  {
    if events != [] {
      EventKeeps(c, events[0], retention);
      hide FlightInv, CanHappen, AfterEvent;
      TraceKeeps(AfterEvent(c, events[0], retention), events[1..], c', retention);
    }
  }

  // Whatever the order of arrivals, replies and timers: per key never two
  // fetches in flight, and the next starts no sooner than the retention after
  // the last one settled.
  lemma OneFlightAtATime(c: Client, events: seq<Event>, c': Client, retention: nat, i: FlightId, j: FlightId)
    requires Fresh(c) && Trace(c, events, c', retention)
    requires i < j < |c'.flights| && c'.flights[i].key == c'.flights[j].key
    ensures c'.flights[i].settled.Some? && c'.flights[i].settled.value.time + retention <= c'.flights[j].started
  {
    TraceKeeps(c, events, c', retention);
  }

  // Until the retention lapses every request for the key joins the flight.
  lemma EveryoneJoins(c: Client, retention: nat, id: FlightId, request: RequestId)
    requires FlightInv(c, retention) && id < |c.flights| && request !in c.joined
    requires c.flights[id].settled.None? || c.now < c.flights[id].settled.value.time + retention
    ensures var c' := AfterEvent(c, Arrive(request, c.flights[id].key), retention);
            c'.joined[request] == id && c'.flights == c.flights
  {
    assert FlightOk(c, id, retention);
  }

  // And no longer than that: the timer may fire from the end of the retention on
  // and not before, ten seconds in the proxy and a quarter of one in the browser,
  // and once it has the next request starts a new fetch.
  lemma HeldExactly(c: Client, retention: nat, id: FlightId, request: RequestId)
    requires FlightInv(c, retention) && id in c.timers && request !in c.joined
    ensures c.flights[id].settled.Some?
    ensures CanHappen(c, Fire(id)) <==> c.now >= c.flights[id].settled.value.time + retention
    ensures retention == PROXY_RETENTION_MS ==>
              (CanHappen(c, Fire(id)) <==> c.now >= c.flights[id].settled.value.time + 10_000)
    ensures retention == BROWSER_RETENTION_MS ==>
              (CanHappen(c, Fire(id)) <==> c.now >= c.flights[id].settled.value.time + 250)
    ensures CanHappen(c, Fire(id)) ==>
              var key := c.flights[id].key;
              var c' := AfterEvent(AfterEvent(c, Fire(id), retention), Arrive(request, key), retention);
              c'.flights == c.flights + [Flight(key, c.now, None)] && c'.joined[request] == |c.flights|
  {
    assert FlightOk(c, id, retention);
    hide SpacedOut;
  }

  // A reply, once in, never changes: all who joined a flight get the same one.
  lemma {:induction false} RepliesStand(c: Client, events: seq<Event>, c': Client, retention: nat, request: RequestId)
    requires Trace(c, events, c', retention) && request in c.joined && c.joined[request] < |c.flights|
    ensures request in c'.joined && c'.joined[request] == c.joined[request] < |c'.flights|
    ensures var id := c.joined[request];
            c'.flights[id].key == c.flights[id].key
            && (c.flights[id].settled.Some? ==> c'.flights[id].settled == c.flights[id].settled)
    decreases |events|
  {
    if events != [] {
      var mid := AfterEvent(c, events[0], retention);
      RepliesStand(mid, events[1..], c', retention, request);
    }
  }

  // The browser's slot is the client with a single key: never two refreshes in
  // flight, and the next a quarter of a second after the last at the earliest.
  lemma OneRefreshAtATime(c: Client, events: seq<Event>, c': Client, slot: Key, i: FlightId, j: FlightId)
    requires Fresh(c) && Trace(c, events, c', BROWSER_RETENTION_MS) && (forall e <- events | e.Arrive? :: e.key == slot)
    requires i < j < |c'.flights|
    ensures c'.flights[i].settled.Some?
    ensures c'.flights[i].settled.value.time + BROWSER_RETENTION_MS <= c'.flights[j].started
  {
    OneKey(c, events, c', BROWSER_RETENTION_MS, slot);
    OneFlightAtATime(c, events, c', BROWSER_RETENTION_MS, i, j);
  }

  lemma {:induction false} OneKey(c: Client, events: seq<Event>, c': Client, retention: nat, slot: Key)
    requires Trace(c, events, c', retention) && (forall e <- events | e.Arrive? :: e.key == slot)
    requires forall f <- c.flights :: f.key == slot
    ensures forall f <- c'.flights :: f.key == slot
    decreases |events|
  {
    if events != [] {
      assert events[0] in events;
      OneKey(AfterEvent(c, events[0], retention), events[1..], c', retention, slot);
    }
  }

  // -------------------------------------------- composed with the API's refresh

  // The proxy keyed by refresh token, and the token families it refreshes
  // against. served: what the API answered to each fetch that reached it. The
  // proxy and the API each have a clock.
  datatype Joint = Joint(proxy: Client, vault: Vault, served: map<FlightId, Result>)

  // Direct: whatever else reaches the API, from any user.
  datatype Move = Hop(e: Event) | Serve(id: FlightId, next: Secret, now: nat) | Direct(step: Step)

  // A fetch is a single POST: it reaches the API at most once, before it
  // settles; its reply can still be lost.
  ghost predicate MayReply(j: Joint, id: FlightId, reply: Reply) {
    match reply
    case UNREACHABLE => true
    case RENEWED => id in j.served && j.served[id].Pair?
    case REJECTED => id in j.served && !j.served[id].Pair?
  }

  ghost predicate CanMove(j: Joint, m: Move) {
    match m
    case Hop(e) => CanHappen(j.proxy, e) && (e.Settle? ==> MayReply(j, e.id, e.reply))
    case Serve(id, next, now) =>
      && id < |j.proxy.flights| && j.proxy.flights[id].settled.None? && id !in j.served
      && Can(j.vault, Refresh(j.proxy.flights[id].key, next, now))
    case Direct(step) => Can(j.vault, step)
  }

  ghost function Moved(j: Joint, m: Move, ttl: nat): Joint
    requires CanMove(j, m)
  {
    match m
    case Hop(e) => j.(proxy := AfterEvent(j.proxy, e, PROXY_RETENTION_MS))
    case Serve(id, next, now) =>
      var key := j.proxy.flights[id].key;
      j.(vault := After(j.vault, Refresh(key, next, now), ttl),
         served := j.served[id := Refreshed(j.vault.tokens, key, next, now, ttl).1])
    case Direct(step) => j.(vault := After(j.vault, step, ttl))
  }

  // A spent token of family f: presenting it kills the family.
  ghost predicate Threatens(v: Vault, s: Secret, f: Family) {
    s in v.tokens && v.tokens[s].family == f && !Live(v.tokens[s])
  }

  // The step presents no spent token of f and logs out no live one.
  ghost predicate Harmless(v: Vault, step: Step, f: Family) {
    match step
    case Refresh(s, _, _) => !Threatens(v, s, f)
    case Logout(s, _) => s in v.tokens && v.tokens[s].family == f ==> !Live(v.tokens[s])
    case _ => true
  }

  // Nothing ends the session of p: no retention timer of p fires, and only the
  // proxy presents p; no other spent token of its family is presented and
  // nobody logs out. Every other move of anybody is allowed.
  ghost predicate Spares(j: Joint, m: Move, p: Secret, f: Family) {
    match m
    case Hop(e) => e.Fire? && e.id < |j.proxy.flights| ==> j.proxy.flights[e.id].key != p
    case Serve(id, _, _) =>
      id < |j.proxy.flights| && j.proxy.flights[id].key != p ==> !Threatens(j.vault, j.proxy.flights[id].key, f)
    case Direct(step) => Harmless(j.vault, step, f) && (step.Refresh? ==> step.presented != p)
  }

  ghost predicate Burst(j: Joint, moves: seq<Move>, j': Joint, ttl: nat, p: Secret, f: Family)
    decreases |moves|
  {
    if moves == [] then j' == j else
      CanMove(j, moves[0]) && Spares(j, moves[0], p, f) && Burst(Moved(j, moves[0], ttl), moves[1..], j', ttl, p, f)
  }

  ghost predicate JointInv(j: Joint, ttl: nat) {
    && FlightInv(j.proxy, PROXY_RETENTION_MS) && Inv(j.vault, ttl)
    && (forall id <- j.served :: id < |j.proxy.flights|)
    && RepliesTrue(j)
  }

  // A settled reply says what the API answered, or that nothing came back.
  ghost predicate RepliesTrue(j: Joint) {
    forall id | 0 <= id < |j.proxy.flights| && j.proxy.flights[id].settled.Some? ::
      MayReply(j, id, j.proxy.flights[id].settled.value.reply)
  }

  lemma RepliesStayTrue(j: Joint, m: Move, ttl: nat)
    requires RepliesTrue(j) && CanMove(j, m)
    ensures RepliesTrue(Moved(j, m, ttl))
  {
    hide Can, After, Refreshed;
  }

  lemma JointKeeps(j: Joint, m: Move, ttl: nat)
    requires JointInv(j, ttl) && CanMove(j, m)
    ensures JointInv(Moved(j, m, ttl), ttl)
  {
    RepliesStayTrue(j, m, ttl);
    hide FlightInv, Inv, FreshSecret, RepliesTrue;
    match m
    case Hop(e) => EventKeeps(j.proxy, e, PROXY_RETENTION_MS);
    case Serve(id, next, now) => StepKeeps(j.vault, Refresh(j.proxy.flights[id].key, next, now), ttl);
    case Direct(step) => StepKeeps(j.vault, step, ttl);
  }

  ghost predicate Moves(j: Joint, moves: seq<Move>, j': Joint, ttl: nat)
    decreases |moves|
  {
    if moves == [] then j' == j else CanMove(j, moves[0]) && Moves(Moved(j, moves[0], ttl), moves[1..], j', ttl)
  }

  lemma {:induction false} JointRuns(j: Joint, moves: seq<Move>, j': Joint, ttl: nat)
    requires JointInv(j, ttl) && Moves(j, moves, j', ttl)
    ensures JointInv(j', ttl)
    decreases |moves|
  {
    if moves != [] {
      JointKeeps(j, moves[0], ttl);
      hide JointInv, CanMove, Moved;
      JointRuns(Moved(j, moves[0], ttl), moves[1..], j', ttl);
    }
  }

  // The invariant from the start, no flight yet and no token yet; so everyone who
  // joined a flight is told what the API answered it, unless nothing came back.
  lemma JointHolds(start: Client, clock: nat, moves: seq<Move>, j: Joint, ttl: nat)
    requires Fresh(start) && Moves(Joint(start, Vault(map[], map[], clock), map[]), moves, j, ttl)
    ensures JointInv(j, ttl)
    ensures forall id | 0 <= id < |j.proxy.flights| && j.proxy.flights[id].settled.Some? ::
              match j.proxy.flights[id].settled.value.reply
              case UNREACHABLE => true
              case RENEWED => id in j.served && j.served[id].Pair?
              case REJECTED => id in j.served && !j.served[id].Pair?
  {
    JointRuns(Joint(start, Vault(map[], map[], clock), map[]), moves, j, ttl);
  }

  // Of the flights from number n on, only the one in the slot is for p; earlier
  // ones are over. Requests not in `before` await no earlier one.
  ghost predicate OneFlight(c: Client, n: nat, before: set<RequestId>, p: Secret) {
    && n <= |c.flights|
    && (forall i | 0 <= i < n && c.flights[i].key == p :: c.flights[i].settled.Some? && i !in c.timers)
    && (forall i | n <= i < |c.flights| && c.flights[i].key == p :: p in c.slots && c.slots[p] == i)
    && (p in c.slots ==> n <= c.slots[p] < |c.flights|)
    && forall r <- c.joined | r !in before && c.joined[r] < |c.flights| && c.flights[c.joined[r]].key == p ::
        c.joined[r] >= n
  }

  lemma OneFlightStays(c: Client, e: Event, n: nat, before: set<RequestId>, p: Secret)
    requires FlightInv(c, PROXY_RETENTION_MS) && OneFlight(c, n, before, p) && CanHappen(c, e)
    requires e.Fire? ==> c.flights[e.id].key != p
    ensures OneFlight(AfterEvent(c, e, PROXY_RETENTION_MS), n, before, p)
    ensures p in c.slots ==> p in AfterEvent(c, e, PROXY_RETENTION_MS).slots
                             && AfterEvent(c, e, PROXY_RETENTION_MS).slots[p] == c.slots[p]
    ensures p !in c.slots && p in AfterEvent(c, e, PROXY_RETENTION_MS).slots ==>
              AfterEvent(c, e, PROXY_RETENTION_MS).slots[p] == |c.flights|
              && AfterEvent(c, e, PROXY_RETENTION_MS).flights[|c.flights|].settled.None?
  {
    hide FlightOk, SpacedOut;
    match e
    case Arrive(_, _) => ArriveOneFlight(c, e, n, before, p);
    case Settle(_, _) =>
    case Fire(_) =>
    case Tick(_) =>
  }

  lemma ArriveOneFlight(c: Client, e: Event, n: nat, before: set<RequestId>, p: Secret)
    requires FlightInv(c, PROXY_RETENTION_MS) && OneFlight(c, n, before, p) && CanHappen(c, e) && e.Arrive?
    ensures OneFlight(AfterEvent(c, e, PROXY_RETENTION_MS), n, before, p)
  {
    hide FlightOk, SpacedOut;
  }

  // A live token of f that lasts at least until `end`.
  ghost predicate LiveUntil(v: Vault, f: Family, end: nat) {
    exists s <- v.tokens :: Live(v.tokens[s]) && v.tokens[s].family == f && v.tokens[s].expiresAt >= end
  }

  lemma LiveOn(v: Vault, step: Step, f: Family, end: nat, ttl: nat)
    requires Inv(v, ttl) && Can(v, step) && Harmless(v, step, f) && LiveUntil(v, f, end) && step.now <= end
    ensures LiveUntil(After(v, step, ttl), f, end)
  {
    var s :| s in v.tokens && Live(v.tokens[s]) && v.tokens[s].family == f && v.tokens[s].expiresAt >= end;
    var i := LinksMoveOn(v, ttl, s);
    assert LinkOk(v, f, i, ttl) by { assert ChainOk(v, f, ttl); }
    hide Inv, ChainOk, FreshSecret;
    var v' := After(v, step, ttl);
    if step.Refresh? && step.presented == s {
      assert Live(v'.tokens[step.next]) && v'.tokens[step.next].family == f && v'.tokens[step.next].expiresAt >= end;
    } else {
      StaysPut(v, step, s, f, end, ttl);
    }
  }

  // A stored token of f is untouched by a harmless step that does not present it.
  lemma StaysPut(v: Vault, step: Step, s: Secret, f: Family, end: nat, ttl: nat)
    requires Can(v, step) && Harmless(v, step, f) && step.now <= end && (step.Refresh? ==> step.presented != s)
    requires s in v.tokens && v.tokens[s].family == f && v.tokens[s].expiresAt >= end
    ensures var v' := After(v, step, ttl); s in v'.tokens && v'.tokens[s] == v.tokens[s]
  {
  }

  // p's flight, if it has been served, got p's replacement; until then p is live.
  ghost predicate Rotating(j: Joint, p: Secret, stored: Token) {
    && p in j.vault.tokens && j.vault.tokens[p].family == stored.family
    && j.vault.tokens[p].expiresAt == stored.expiresAt
    && if p in j.proxy.slots && j.proxy.slots[p] in j.served
       then var answer := j.served[j.proxy.slots[p]];
            answer.Pair? && j.vault.tokens[p].replacedBy == Some(answer.secret)
       else j.vault.tokens[p] == stored
  }

  ghost predicate NotRejected(c: Client, p: Secret) {
    p in c.slots && c.slots[p] < |c.flights| && c.flights[c.slots[p]].settled.Some? ==>
      c.flights[c.slots[p]].settled.value.reply != REJECTED
  }

  ghost predicate BurstInv(j: Joint, n: nat, before: set<RequestId>, p: Secret, stored: Token, ttl: nat) {
    && JointInv(j, ttl) && OneFlight(j.proxy, n, before, p) && Rotating(j, p, stored) && NotRejected(j.proxy, p)
    && LiveUntil(j.vault, stored.family, stored.expiresAt)
  }

  lemma HopStep(j: Joint, e: Event, n: nat, before: set<RequestId>, p: Secret, stored: Token, ttl: nat)
    requires BurstInv(j, n, before, p, stored, ttl) && CanMove(j, Hop(e)) && Spares(j, Hop(e), p, stored.family)
    ensures BurstInv(Moved(j, Hop(e), ttl), n, before, p, stored, ttl)
  {
    hide FlightInv, Inv, LiveUntil;
    assert e.Fire? ==> e.id < |j.proxy.flights|;
    JointKeeps(j, Hop(e), ttl);
    OneFlightStays(j.proxy, e, n, before, p);
    hide OneFlight;
  }

  lemma DirectStep(j: Joint, step: Step, n: nat, before: set<RequestId>, p: Secret, stored: Token, ttl: nat)
    requires BurstInv(j, n, before, p, stored, ttl) && CanMove(j, Direct(step))
             && Spares(j, Direct(step), p, stored.family)
    requires step.now <= stored.expiresAt
    ensures BurstInv(Moved(j, Direct(step), ttl), n, before, p, stored, ttl)
  {
    hide FlightInv, Inv, LiveUntil, OneFlight, Can, Harmless, After;
    JointKeeps(j, Direct(step), ttl);
    LiveOn(j.vault, step, stored.family, stored.expiresAt, ttl);
    StaysPut(j.vault, step, p, stored.family, stored.expiresAt, ttl);
  }

  lemma ServeStep(j: Joint, m: Move, n: nat, before: set<RequestId>, p: Secret, stored: Token, ttl: nat)
    requires BurstInv(j, n, before, p, stored, ttl) && m.Serve? && CanMove(j, m) && Spares(j, m, p, stored.family)
    requires Live(stored) && m.now <= stored.expiresAt
    ensures BurstInv(Moved(j, m, ttl), n, before, p, stored, ttl)
  {
    var step := Refresh(j.proxy.flights[m.id].key, m.next, m.now);
    ServedFlight(j, m, n, before, p, stored, ttl);
    ServedRotates(j, m, n, before, p, stored, ttl);
    hide FlightInv, Inv, LiveUntil, OneFlight, Rotating, Can, Threatens;
    JointKeeps(j, m, ttl);
    LiveOn(j.vault, step, stored.family, stored.expiresAt, ttl);
  }

  // The flight being served is the one in the slot of its key.
  lemma ServedFlight(j: Joint, m: Move, n: nat, before: set<RequestId>, p: Secret, stored: Token, ttl: nat)
    requires BurstInv(j, n, before, p, stored, ttl) && m.Serve? && CanMove(j, m) && Spares(j, m, p, stored.family)
    ensures var key := j.proxy.flights[m.id].key;
            && key in j.proxy.slots && j.proxy.slots[key] == m.id
            && (p in j.proxy.slots && key != p ==> j.proxy.slots[p] != m.id)
            && (key == p ==> j.vault.tokens[p] == stored)
            && Harmless(j.vault, Refresh(key, m.next, m.now), stored.family) == (key == p ==> Live(stored))
  {
    hide Inv, SpacedOut;
    assert FlightOk(j.proxy, m.id, PROXY_RETENTION_MS);
  }

  lemma ServedRotates(j: Joint, m: Move, n: nat, before: set<RequestId>, p: Secret, stored: Token, ttl: nat)
    requires BurstInv(j, n, before, p, stored, ttl) && m.Serve? && CanMove(j, m) && Spares(j, m, p, stored.family)
    requires Live(stored) && m.now <= stored.expiresAt
    ensures Rotating(Moved(j, m, ttl), p, stored)
  {
    var key := j.proxy.flights[m.id].key;
    ServedFlight(j, m, n, before, p, stored, ttl);
    hide FlightInv, Inv, LiveUntil, OneFlight, NotRejected;
    if key != p { StaysPut(j.vault, Refresh(key, m.next, m.now), p, stored.family, stored.expiresAt, ttl); }
  }

  lemma BurstStep(j: Joint, m: Move, n: nat, before: set<RequestId>, p: Secret, stored: Token, ttl: nat)
    requires BurstInv(j, n, before, p, stored, ttl) && CanMove(j, m) && Spares(j, m, p, stored.family)
    requires Live(stored) && Moved(j, m, ttl).vault.clock <= stored.expiresAt
    ensures BurstInv(Moved(j, m, ttl), n, before, p, stored, ttl)
  {
    StepClock(j, m, ttl);
    hide BurstInv, Spares, CanMove, Moved;
    match m
    case Hop(e) => HopStep(j, e, n, before, p, stored, ttl);
    case Serve(_, _, _) => ServeStep(j, m, n, before, p, stored, ttl);
    case Direct(step) => DirectStep(j, step, n, before, p, stored, ttl);
  }

  lemma StepClock(j: Joint, m: Move, ttl: nat)
    requires CanMove(j, m)
    ensures var c := Moved(j, m, ttl).vault.clock;
            c >= j.vault.clock && (m.Serve? ==> c == m.now) && (m.Direct? ==> c == m.step.now)
  {
  }

  lemma {:induction false} BurstClock(j: Joint, moves: seq<Move>, j': Joint, ttl: nat, p: Secret, f: Family)
    requires Burst(j, moves, j', ttl, p, f)
    ensures j.vault.clock <= j'.vault.clock
    decreases |moves|
  {
    if moves != [] {
      StepClock(j, moves[0], ttl);
      hide CanMove, Spares, Moved;
      BurstClock(Moved(j, moves[0], ttl), moves[1..], j', ttl, p, f);
    }
  }

  lemma {:induction false} BurstMoves(j: Joint, moves: seq<Move>, j': Joint, n: nat, before: set<RequestId>,
                                      p: Secret, stored: Token, ttl: nat)
    requires BurstInv(j, n, before, p, stored, ttl) && Burst(j, moves, j', ttl, p, stored.family)
    requires Live(stored) && j'.vault.clock <= stored.expiresAt
    ensures BurstInv(j', n, before, p, stored, ttl)
    decreases |moves|
  {
    if moves != [] {
      BurstClock(Moved(j, moves[0], ttl), moves[1..], j', ttl, p, stored.family);
      BurstStep(j, moves[0], n, before, p, stored, ttl);
      hide BurstInv, CanMove, Spares, Moved;
      BurstMoves(Moved(j, moves[0], ttl), moves[1..], j', n, before, p, stored, ttl);
    }
  }

  // A burst of requests on one good token, amid everybody else's traffic: one
  // fetch is made for it at most, everyone who brings the token awaits that
  // fetch, it is answered with the token's one replacement and never as a
  // reuse, nobody is told to log in, and the family keeps a live token.
  lemma BurstRotatesOnce(j: Joint, moves: seq<Move>, j': Joint, p: Secret, ttl: nat)
    requires JointInv(j, ttl) && p !in j.proxy.slots && p in j.vault.tokens && Live(j.vault.tokens[p])
    requires Burst(j, moves, j', ttl, p, j.vault.tokens[p].family) && j'.vault.clock <= j.vault.tokens[p].expiresAt
    ensures JointInv(j', ttl)
    ensures var c, n := j'.proxy, |j.proxy.flights|;
            && (forall i | n <= i < |c.flights| && c.flights[i].key == p :: p in c.slots && i == c.slots[p])
            && (forall r <- c.joined | r !in j.proxy.joined && c.flights[c.joined[r]].key == p ::
                  p in c.slots && c.joined[r] == c.slots[p] >= n)
            && (p in c.slots ==>
                  && c.slots[p] < |c.flights|
                  && (c.slots[p] in j'.served ==>
                        && p in j'.vault.tokens && j'.served[c.slots[p]].Pair?
                        && j'.vault.tokens[p].replacedBy == Some(j'.served[c.slots[p]].secret))
                  && (c.flights[c.slots[p]].settled.Some? ==> c.flights[c.slots[p]].settled.value.reply != REJECTED))
    ensures exists s <- j'.vault.tokens ::
            Live(j'.vault.tokens[s]) && j'.vault.tokens[s].family == j.vault.tokens[p].family
  {
    var n, before, stored := |j.proxy.flights|, j.proxy.joined.Keys, j.vault.tokens[p];
    BurstStarts(j, p, ttl);
    BurstMoves(j, moves, j', n, before, p, stored, ttl);
    hide Inv, FlightOk, SpacedOut;
  }

  lemma BurstStarts(j: Joint, p: Secret, ttl: nat)
    requires JointInv(j, ttl) && p !in j.proxy.slots && p in j.vault.tokens && Live(j.vault.tokens[p])
    ensures BurstInv(j, |j.proxy.flights|, j.proxy.joined.Keys, p, j.vault.tokens[p], ttl)
  {
    var c := j.proxy;
    forall i | 0 <= i < |c.flights| && c.flights[i].key == p
      ensures c.flights[i].settled.Some? && i !in c.timers
    {
      assert FlightOk(c, i, PROXY_RETENTION_MS);
    }
    hide Inv, FlightOk, SpacedOut;
  }

  // What the retention is for: once p's flight is out of the map, a straggler
  // still carrying the spent p is a reuse, and the family is gone.
  lemma LateStraggler(j: Joint, request: RequestId, p: Secret, next: Secret, now: nat, ttl: nat)
    requires JointInv(j, ttl) && p !in j.proxy.slots && p in j.vault.tokens && !Live(j.vault.tokens[p])
    requires request !in j.proxy.joined && Can(j.vault, Refresh(p, next, now))
    ensures var arrived := Moved(j, Hop(Arrive(request, p)), ttl);
            && CanMove(arrived, Serve(arrived.proxy.joined[request], next, now))
            && var served := Moved(arrived, Serve(arrived.proxy.joined[request], next, now), ttl);
               && served.served[served.proxy.joined[request]] == REUSE_DETECTED
               && Dead(served.vault, j.vault.tokens[p].family)
  {
    hide FlightInv;
    ReplayKillsFamily(j.vault, p, next, now, ttl);
    hide Inv, Dead, Can;
  }

  // ------------------------------------------------------ the clients' code

  class FlightTable {
    const retention: nat
    var now: nat
    var flights: seq<Flight>
    var slots: map<Key, FlightId>
    var timers: map<FlightId, nat>
    var joined: map<RequestId, FlightId>

    ghost function State(): Client
      reads this
    {
      Client(now, flights, slots, timers, joined)
    }

    ghost predicate Valid()
      reads this
    {
      FlightInv(State(), retention)
    }

    constructor (retention: nat, now: nat)
      ensures Valid() && Fresh(State()) && this.retention == retention
    {
      this.retention, this.now := retention, now;
      flights, slots, timers, joined := [], map[], map[], map[];
    }

    // get the flight, or start one and put it in the slot.
    method Join(request: RequestId, key: Key) returns (id: FlightId)
      requires Valid() && request !in joined
      modifies this
      ensures Valid() && State() == AfterEvent(old(State()), Arrive(request, key), retention)
      ensures joined == old(joined)[request := id] && now == old(now) && timers == old(timers)
      ensures if key in old(slots) then id == old(slots)[key] && flights == old(flights) && slots == old(slots)
              else id == |old(flights)| && flights == old(flights) + [Flight(key, now, None)]
                   && slots == old(slots)[key := id]
    {
      EventKeeps(State(), Arrive(request, key), retention);
      if key in slots {
        id := slots[key];
      } else {
        id := |flights|;
        flights := flights + [Flight(key, now, None)];
        slots := slots[key := id];
      }
      joined := joined[request := id];
    }

    // finally: set the retention timer.
    method OnSettled(id: FlightId, reply: Reply)
      requires Valid() && id < |flights| && flights[id].settled.None?
      modifies this
      ensures Valid() && State() == AfterEvent(old(State()), Settle(id, reply), retention)
      ensures slots == old(slots) && joined == old(joined) && now == old(now)
      ensures timers == old(timers)[id := now + retention] && |flights| == |old(flights)|
      ensures flights[id] == Flight(old(flights)[id].key, old(flights)[id].started, Some(Landing(now, reply)))
      ensures forall i | 0 <= i < |flights| && i != id :: flights[i] == old(flights)[i]
    {
      EventKeeps(State(), Settle(id, reply), retention);
      flights := flights[id := flights[id].(settled := Some(Landing(now, reply)))];
      timers := timers[id := now + retention];
    }

    // The proxy's timer: delete the key, whatever is there.
    method OnProxyTimer(id: FlightId)
      requires Valid() && id in timers && id < |flights| && now >= timers[id]
      modifies this
      ensures Valid() && State() == AfterEvent(old(State()), Fire(id), retention)
      ensures flights == old(flights) && joined == old(joined) && now == old(now)
      ensures slots == old(slots) - {flights[id].key} && timers == old(timers) - {id}
    {
      EventKeeps(State(), Fire(id), retention);
      slots, timers := slots - {flights[id].key}, timers - {id};
    }

    // The browser's timer: clear the slot only if it still holds this flight.
    // It always does.
    method OnBrowserTimer(id: FlightId)
      requires Valid() && id in timers && id < |flights| && now >= timers[id]
      modifies this
      ensures Valid() && State() == AfterEvent(old(State()), Fire(id), retention)
      ensures flights == old(flights) && joined == old(joined) && now == old(now)
      ensures slots == old(slots) - {flights[id].key} && timers == old(timers) - {id}
    {
      EventKeeps(State(), Fire(id), retention);
      FireDeletesOwn(State(), id, retention);
      var key := flights[id].key;
      if key in slots && slots[key] == id { slots := slots - {key}; }
      timers := timers - {id};
    }
  }
}
