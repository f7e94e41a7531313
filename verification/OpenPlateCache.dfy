/**
 * The open-plate cache: per-actor entries filled by asynchronous loads with in-flight tokens, and
 * emptied by change events that arrive some time after the change was committed.  `D` is the
 * database's contents, `P` what a load answers, and `query` the answer for an actor.
 */
module OpenPlateCache {
  /** A cached answer, the load it came from and the version of the database that load read. */
  datatype Entry<P> = Entry(at: int, plates: P, token: nat, version: nat)

  /** A load: not yet read, read, or past its insertion. */
  datatype Load<P> = Begun(actor: nat) | Read(actor: nat, plates: P, version: nat) | Landed(actor: nat)

  /** The database versions so far, the versions whose change event is still on its way, the two maps of the service,
      the loads, the next load's token, and the first token not yet invalidated. */
  datatype State<D, P> = State(
    history: seq<D>, undelivered: set<nat>, cache: map<nat, Entry<P>>, inflight: map<nat, nat>,
    loads: map<nat, Load<P>>, nextToken: nat, barrier: nat)

  datatype Answer<P> = Served(entry: Entry<P>) | Joined(token: nat)

  /** `openPlates`: a fresh entry is served, a running load joined, and otherwise a load begun. */
  function Request<D, P>(s: State<D, P>, ttl: int, actor: nat, now: int): (State<D, P>, Answer<P>) {
    if actor in s.cache && now - s.cache[actor].at < ttl then (s, Served(s.cache[actor]))
    else if actor in s.inflight then (s, Joined(s.inflight[actor]))
    else
      (s.(loads := s.loads[s.nextToken := Begun(actor)], inflight := s.inflight[actor := s.nextToken],
          nextToken := s.nextToken + 1),
       Joined(s.nextToken))
  }

  /** The load's database read, in the actor's scope. */
  function ReadRows<D, P>(s: State<D, P>, query: (D, nat) -> P, token: nat): State<D, P>
    requires s.history != []
  {
    if token in s.loads && s.loads[token].Begun? then
      var actor := s.loads[token].actor;
      s.(loads := s.loads[token := Read(actor, query(s.history[|s.history| - 1], actor), |s.history| - 1)])
    else s
  }

  /** The load inserts its entry only while it is still the one in flight. */
  function Land<D, P>(s: State<D, P>, token: nat, now: int): State<D, P> {
    if token in s.loads && s.loads[token].Read? then
      var load := s.loads[token];
      var landed := s.(loads := s.loads[token := Landed(load.actor)]);
      if load.actor in s.inflight && s.inflight[load.actor] == token
      then landed.(cache := s.cache[load.actor := Entry(now, load.plates, token, load.version)])
      else landed
    else s
  }

  /** A load that failed, or its `finally`. */
  function Drop<D, P>(s: State<D, P>, token: nat): State<D, P> {
    if token in s.loads && !s.loads[token].Read? then
      var actor := s.loads[token].actor;
      s.(loads := s.loads - {token}, inflight := if actor in s.inflight
        && s.inflight[actor] == token then s.inflight - {actor} else s.inflight)
    else s
  }

  function Invalidate<D, P>(s: State<D, P>): State<D, P> {
    s.(cache := map[], inflight := map[], barrier := s.nextToken)
  }

  /** A gate-pass mutation commits; its change event is emitted later. */
  function Commit<D, P>(s: State<D, P>, db: D): State<D, P> {
    s.(history := s.history + [db], undelivered := s.undelivered + {|s.history|})
  }

  function Deliver<D, P>(s: State<D, P>, version: nat): State<D, P> {
    if version in s.undelivered then Invalidate(s.(undelivered := s.undelivered - {version})) else s
  }

  datatype Step<D> =
    | DoRequest(actor: nat, now: int)
    | DoRead(token: nat)
    | DoLand(token: nat, now: int)
    | DoDrop(token: nat)
    | DoInvalidate
    | DoCommit(db: D)
    | DoDeliver(version: nat)

  function Apply<D, P>(s: State<D, P>, ttl: int, query: (D, nat) -> P, step: Step<D>): State<D, P>
    requires s.history != []
  {
    match step
    case DoRequest(actor, now) => Request(s, ttl, actor, now).0
    case DoRead(token) => ReadRows(s, query, token)
    case DoLand(token, now) => Land(s, token, now)
    case DoDrop(token) => Drop(s, token)
    case DoInvalidate => Invalidate(s)
    case DoCommit(db) => Commit(s, db)
    case DoDeliver(version) => Deliver(s, version)
  }

  function Started<D, P>(db: D): State<D, P> { State([db], {}, map[], map[], map[], 0, 0) }

  class PlateCache<D, P> {
    const ttl: int
    const query: (D, nat) -> P
    var cache: map<nat, Entry<P>>
    var inflight: map<nat, nat>
    var loads: map<nat, Load<P>>
    var nextToken: nat
    /** The database the loads read, and its change events on their way. */
    var history: seq<D>
    ghost var undelivered: set<nat>
    ghost var barrier: nat

    ghost function Value(): State<D, P>
      reads this
    {
      State(history, undelivered, cache, inflight, loads, nextToken, barrier)
    }

    constructor (ttl: int, query: (D, nat) -> P, db: D)
      ensures this.ttl == ttl && this.query == query && Value() == Started(db)
    {
      this.ttl, this.query := ttl, query;
      cache, inflight, loads, nextToken, history := map[], map[], map[], 0, [db];
      undelivered, barrier := {}, 0;
    }

    method OpenPlates(actor: nat, now: int) returns (answer: Answer<P>)
      modifies this
      ensures (Value(), answer) == Request(old(Value()), ttl, actor, now)
    {
      if actor in cache && now - cache[actor].at < ttl { return Served(cache[actor]); }
      if actor in inflight { return Joined(inflight[actor]); }
      var token := nextToken;
      nextToken := nextToken + 1;
      loads := loads[token := Begun(actor)];
      inflight := inflight[actor := token];
      return Joined(token);
    }

    method ReadOpenRows(token: nat)
      requires history != []
      modifies this`loads
      ensures Value() == ReadRows(old(Value()), query, token)
    {
      if token !in loads || !loads[token].Begun? { return; }
      var actor := loads[token].actor;
      loads := loads[token := Read(actor, query(history[|history| - 1], actor), |history| - 1)];
    }

    method LandLoad(token: nat, now: int)
      modifies this`loads, this`cache
      ensures Value() == Land(old(Value()), token, now)
    {
      if token !in loads || !loads[token].Read? { return; }
      var load := loads[token];
      if load.actor in inflight && inflight[load.actor] == token {
        cache := cache[load.actor := Entry(now, load.plates, token, load.version)];
      }
      loads := loads[token := Landed(load.actor)];
    }

    method DropLoad(token: nat)
      modifies this`loads, this`inflight
      ensures Value() == Drop(old(Value()), token)
    {
      if token !in loads || loads[token].Read? { return; }
      var actor := loads[token].actor;
      if actor in inflight && inflight[actor] == token { inflight := inflight - {actor}; }
      loads := loads - {token};
    }

    method InvalidateAll()
      modifies this
      ensures Value() == Invalidate(old(Value()))
    {
      cache, inflight := map[], map[];
      barrier := nextToken;
    }
  }

  // ---------------------------------------------------------------- coherence

  /** The plates are what the actor's open passes were at a version, and every change since is still to be announced. */
  ghost predicate UpToEvents<D, P>(s: State<D, P>, query: (D, nat) -> P, actor: nat, plates: P, version: nat) {
    && version < |s.history| && plates == query(s.history[version], actor)
    && forall v :: version < v < |s.history| ==> v in s.undelivered
  }

  ghost predicate EntryOk<D, P>(s: State<D, P>, query: (D, nat) -> P, actor: nat)
    requires actor in s.cache
  {
    var e := s.cache[actor];
    s.barrier <= e.token < s.nextToken && UpToEvents(s, query, actor, e.plates, e.version)
  }

  ghost predicate InflightOk<D, P>(s: State<D, P>, query: (D, nat) -> P, actor: nat)
    requires actor in s.inflight
  {
    var token := s.inflight[actor];
    && s.barrier <= token < s.nextToken && token in s.loads && s.loads[token].actor == actor
    && (s.loads[token].Read? ==> UpToEvents(s, query, actor, s.loads[token].plates, s.loads[token].version))
  }

  ghost predicate Coherent<D, P>(s: State<D, P>, query: (D, nat) -> P) {
    && s.history != [] && s.barrier <= s.nextToken
    && (forall t :: t in s.loads ==> t < s.nextToken)
    && (forall a :: a in s.cache ==> EntryOk(s, query, a))
    && (forall a :: a in s.inflight ==> InflightOk(s, query, a))
  }

  lemma StepKeepsCoherent<D, P>(s: State<D, P>, ttl: int, query: (D, nat) -> P, step: Step<D>)
    requires Coherent(s, query)
    ensures Coherent(Apply(s, ttl, query, step), query)
  {
    var after := Apply(s, ttl, query, step);
    forall a | a in after.cache ensures EntryOk(after, query, a) { EntryStays(s, ttl, query, step, a); }
    forall a | a in after.inflight ensures InflightOk(after, query, a) { InflightStays(s, ttl, query, step, a); }
  }

  lemma EntryStays<D, P>(s: State<D, P>, ttl: int, query: (D, nat) -> P, step: Step<D>, a: nat)
    requires Coherent(s, query) && a in Apply(s, ttl, query, step).cache
    ensures EntryOk(Apply(s, ttl, query, step), query, a)
  {
    var after := Apply(s, ttl, query, step);
    if a in s.cache && after.cache[a] == s.cache[a] {
      assert EntryOk(s, query, a);
      EventsStay(s, ttl, query, step, a, s.cache[a].plates, s.cache[a].version);
    } else {
      assert step.DoLand? && InflightOk(s, query, a);
    }
  }

  lemma InflightStays<D, P>(s: State<D, P>, ttl: int, query: (D, nat) -> P, step: Step<D>, a: nat)
    requires Coherent(s, query) && a in Apply(s, ttl, query, step).inflight
    ensures InflightOk(Apply(s, ttl, query, step), query, a)
  {
    if a in s.inflight { assert InflightOk(s, query, a); }
    if step.DoRequest? {
      RequestKeepsInflight(s, ttl, query, step.actor, step.now, a);
    } else if step.DoRead? {
      ReadKeepsInflight(s, query, step.token, a);
    } else {
      var token := s.inflight[a];
      if token in s.loads && s.loads[token].Read? {
        EventsStay(s, ttl, query, step, a, s.loads[token].plates, s.loads[token].version);
      }
    }
  }

  lemma RequestKeepsInflight<D, P>(s: State<D, P>, ttl: int, query: (D, nat) -> P, actor: nat, now: int, a: nat)
    requires Coherent(s, query) && a in Request(s, ttl, actor, now).0.inflight
    ensures InflightOk(Request(s, ttl, actor, now).0, query, a)
  {
    if a in s.inflight { assert InflightOk(s, query, a); }
  }

  lemma ReadKeepsInflight<D, P>(s: State<D, P>, query: (D, nat) -> P, token: nat, a: nat)
    requires Coherent(s, query) && a in s.inflight
    ensures a in ReadRows(s, query, token).inflight && InflightOk(ReadRows(s, query, token), query, a)
  {
    assert InflightOk(s, query, a);
  }

  /** Only the delivery of an event, which empties both maps, takes it off its way. */
  lemma EventsStay<D, P>(s: State<D, P>, ttl: int, query: (D, nat) -> P, step: Step<D>, a: nat, plates: P, version: nat)
    requires s.history != [] && UpToEvents(s, query, a, plates, version)
    requires !(step.DoDeliver? && step.version in s.undelivered)
    ensures UpToEvents(Apply(s, ttl, query, step), query, a, plates, version)
  {
  }

  function After<D, P>(db: D, ttl: int, query: (D, nat) -> P, steps: seq<Step<D>>): (s: State<D, P>)
    ensures s.history != []
  {
    if steps == [] then Started(db)
    else Apply(After(db, ttl, query, steps[..|steps| - 1]), ttl, query, steps[|steps| - 1])
  }

  lemma {:induction false} RunIsCoherent<D, P>(db: D, ttl: int, query: (D, nat) -> P, steps: seq<Step<D>>)
    ensures Coherent(After(db, ttl, query, steps), query)
  {
    if steps != [] {
      RunIsCoherent(db, ttl, query, steps[..|steps| - 1]);
      StepKeepsCoherent(After(db, ttl, query, steps[..|steps| - 1]), ttl, query, steps[|steps| - 1]);
    }
  }

  /** With no event on its way, what is cached for an actor is exactly the open passes in its scope now. */
  lemma QuietCacheIsExact<D, P>(db: D, ttl: int, query: (D, nat) -> P, steps: seq<Step<D>>, actor: nat)
    requires actor in After(db, ttl, query, steps).cache && After(db, ttl, query, steps).undelivered == {}
    ensures var s := After(db, ttl, query, steps); s.cache[actor].plates == query(s.history[|s.history| - 1], actor)
  {
    var s := After(db, ttl, query, steps);
    RunIsCoherent(db, ttl, query, steps);
    QuietEntry(s, query, actor);
  }

  lemma QuietEntry<D, P>(s: State<D, P>, query: (D, nat) -> P, actor: nat)
    requires Coherent(s, query) && actor in s.cache && s.undelivered == {}
    ensures s.cache[actor].plates == query(s.history[|s.history| - 1], actor)
  {
    assert EntryOk(s, query, actor);
    assert s.cache[actor].version == |s.history| - 1 || |s.history| - 1 in s.undelivered;
  }

  /** The barrier and the next token never go back. */
  lemma {:induction false} BarrierRises<D, P>(db: D, ttl: int, query: (D, nat) -> P, steps: seq<Step<D>>,
          more: seq<Step<D>>)
    ensures After(db, ttl, query, steps).barrier <= After(db, ttl, query, steps + more).barrier
  {
    if more == [] {
      assert steps + more == steps;
    } else {
      var init := more[..|more| - 1];
      assert (steps + more)[..|steps + more| - 1] == steps + init;
      BarrierRises(db, ttl, query, steps, init);
      var s := After(db, ttl, query, steps + init);
      assert s.barrier <= s.nextToken by { RunIsCoherent(db, ttl, query, steps + init); }
      BarrierStep(s, ttl, query, more[|more| - 1]);
    }
  }

  lemma BarrierStep<D, P>(s: State<D, P>, ttl: int, query: (D, nat) -> P, step: Step<D>)
    requires s.history != [] && s.barrier <= s.nextToken
    ensures s.barrier <= Apply(s, ttl, query, step).barrier
  {
  }

  /** A load begun before an invalidation is never inserted afterwards, even beside a newer load of the same actor: its
      landing leaves the cache alone, and no entry ever comes from it. */
  lemma StaleLoadNeverLands<D, P>(db: D, ttl: int, query: (D, nat) -> P, steps: seq<Step<D>>, more: seq<Step<D>>,
          token: nat, now: int)
    requires token < After(db, ttl, query, steps).nextToken
    ensures var s := After(db, ttl, query, steps + [DoInvalidate] + more);
      Land(s, token, now).cache == s.cache && forall a :: a in s.cache ==> s.cache[a].token != token
  {
    var invalidated := steps + [DoInvalidate];
    assert invalidated[..|invalidated| - 1] == steps;
    BarrierRises(db, ttl, query, invalidated, more);
    RunIsCoherent(db, ttl, query, invalidated + more);
    var s := After(db, ttl, query, invalidated + more);
    forall a | a in s.cache ensures s.cache[a].token != token { assert EntryOk(s, query, a); }
    if token in s.loads && s.loads[token].Read? && s.loads[token].actor in s.inflight {
      assert InflightOk(s, query, s.loads[token].actor);
    }
  }
}
