/**
 * The open-plate cache as the matcher sees it: what a request answers, how a load gets into the cache and out of the
 * way again, and which passes a load lists.
 */
module CacheOutcomes {
  import opened OpenPlateCache
  import opened OpenPlateQuery
  import PlateGrammar

  // ---------------------------------------------------------------- requests

  /** A request is served from an entry that has not lived its time, and otherwise waits for the load of its actor
      that is under way, or for one begun for it. */
  lemma RequestOutcome<D, P>(s: State<D, P>, ttl: int, actor: nat, now: int)
    ensures var (after, answer) := Request(s, ttl, actor, now);
      if actor in s.cache && now < s.cache[actor].at + ttl then after == s && answer == Served(s.cache[actor])
      else if actor in s.inflight then after == s && answer == Joined(s.inflight[actor])
      else
        && answer == Joined(s.nextToken) && after.nextToken == s.nextToken + 1 && after.cache == s.cache
        && after.inflight == s.inflight[actor := s.nextToken] && after.loads == s.loads[s.nextToken := Begun(actor)]
        && after.history == s.history && after.undelivered == s.undelivered
  {
  }

  /** The state after a load was requested, read and landed. */
  function Loaded<D, P>(s: State<D, P>, ttl: int, query: (D, nat) -> P, actor: nat, asked: int, landed: int)
    : State<D, P>
    requires s.history != []
  {
    Land(ReadRows(Request(s, ttl, actor, asked).0, query, s.nextToken), s.nextToken, landed)
  }

  /** The load is begun, and not one under way. */
  ghost predicate Begins<D, P>(s: State<D, P>, ttl: int, actor: nat, asked: int) {
    && s.history != [] && s.nextToken !in s.loads && actor !in s.inflight
    && Request(s, ttl, actor, asked).1 == Joined(s.nextToken)
  }

  lemma RunBegins<D, P>(db: D, ttl: int, query: (D, nat) -> P, steps: seq<Step<D>>, actor: nat, asked: int)
    requires Request(After(db, ttl, query, steps), ttl, actor, asked).1
      == Joined(After(db, ttl, query, steps).nextToken)
    ensures Begins(After(db, ttl, query, steps), ttl, actor, asked)
  {
    var s := After(db, ttl, query, steps);
    RunIsCoherent(db, ttl, query, steps);
    RequestOutcome(s, ttl, actor, asked);
    forall a | a in s.inflight ensures s.inflight[a] < s.nextToken { assert InflightOk(s, query, a); }
  }

  lemma LoadedIs<D, P>(s: State<D, P>, ttl: int, query: (D, nat) -> P, actor: nat, asked: int, landed: int)
    requires Begins(s, ttl, actor, asked)
    ensures var after, n := Loaded(s, ttl, query, actor, asked, landed), |s.history| - 1;
      && after.cache == s.cache[actor := Entry(landed, query(s.history[n], actor), s.nextToken, n)]
      && after.inflight == s.inflight[actor := s.nextToken] && after.nextToken == s.nextToken + 1
      && after.loads == s.loads[s.nextToken := Landed(actor)]
  {
    RequestOutcome(s, ttl, actor, asked);
    var begun := Request(s, ttl, actor, asked).0;
    assert begun.history == s.history && begun.loads[s.nextToken] == Begun(actor);
  }

  lemma DropLanded<D, P>(s: State<D, P>, token: nat, actor: nat)
    requires token in s.loads && s.loads[token] == Landed(actor)
    requires actor in s.inflight && s.inflight[actor] == token
    ensures Drop(s, token).inflight == s.inflight - {actor} && Drop(s, token).cache == s.cache
    ensures Drop(s, token).nextToken == s.nextToken
  {
  }

  /** After every run: a load that no event comes between lands with the actor's answer from the database as it is, is
      served until its time is over, and by its end leaves room for the next load. */
  lemma LoadIsServed<D, P>(db: D, ttl: int, query: (D, nat) -> P, steps: seq<Step<D>>, actor: nat, asked: int,
                           landed: int, later: int)
    requires Request(After(db, ttl, query, steps), ttl, actor, asked).1
      == Joined(After(db, ttl, query, steps).nextToken)
    ensures var s := After(db, ttl, query, steps);
      var after := Loaded(s, ttl, query, actor, asked, landed);
      && actor in after.cache && after.cache[actor].at == landed
      && after.cache[actor].plates == query(s.history[|s.history| - 1], actor)
      && Request(after, ttl, actor, later).1
         == (if later < landed + ttl then Served(after.cache[actor]) else Joined(s.nextToken))
      && (later >= landed + ttl ==>
            Request(Drop(after, s.nextToken), ttl, actor, later).1 == Joined(s.nextToken + 1))
  {
    var s := After(db, ttl, query, steps);
    RunBegins(db, ttl, query, steps, actor, asked);
    LoadedIs(s, ttl, query, actor, asked, landed);
    var after := Loaded(s, ttl, query, actor, asked, landed);
    RequestOutcome(after, ttl, actor, later);
    DropLanded(after, s.nextToken, actor);
    RequestOutcome(Drop(after, s.nextToken), ttl, actor, later);
  }

  /** A load that fails leaves room for the next one, too. */
  lemma FailedLoadIsForgotten<D, P>(s: State<D, P>, ttl: int, actor: nat, asked: int, later: int)
    requires s.nextToken !in s.loads && actor !in s.cache && actor !in s.inflight
    ensures var dropped := Drop(Request(s, ttl, actor, asked).0, s.nextToken);
      && dropped.cache == s.cache && dropped.inflight == s.inflight
      && Request(dropped, ttl, actor, later).1 == Joined(s.nextToken + 1)
  {
  }

  /** The landing and the end of a load that is no longer the one under way touch neither the cache nor a newer load. */
  lemma LateLoadSparesNewer<D, P>(s: State<D, P>, token: nat, now: int)
    requires token in s.loads && forall a :: a in s.inflight ==> s.inflight[a] != token
    ensures Land(s, token, now).cache == s.cache && Land(s, token, now).inflight == s.inflight
    ensures Drop(s, token).cache == s.cache && Drop(s, token).inflight == s.inflight
    ensures !s.loads[token].Read? ==> token !in Drop(s, token).loads
  {
  }

  /** The delivery of a change, and a match that was lost, leave nothing to serve: every request then begins a load. */
  lemma DeliveryReloads<D, P>(s: State<D, P>, ttl: int, version: nat, actor: nat, now: int)
    ensures Request(Invalidate(s), ttl, actor, now).1 == Joined(s.nextToken)
    ensures version in s.undelivered ==>
              Request(Deliver(s, version), ttl, actor, now).1 == Joined(s.nextToken)
              && Deliver(s, version).undelivered == s.undelivered - {version}
  {
  }

  // ---------------------------------------------------------------- what a load lists

  /** The pass is approved, and of a factory in scope. */
  ghost predicate Lists(db: seq<DbPass>, scope: set<nat>, p: DbPass) { p in db && p.approved && p.factory in scope }

  /** The pass as it is listed. */
  predicate IsListing(open: OpenPlate, p: DbPass) {
    open.id == p.id && open.created == p.created && open.plate == PlateGrammar.CanonicalOrRaw(p.plate)
  }

  ghost predicate ListsOpen(db: seq<DbPass>, scope: set<nat>, open: OpenPlate) {
    exists p :: Lists(db, scope, p) && IsListing(open, p)
  }

  ghost predicate IsListed(listed: seq<OpenPlate>, p: DbPass) {
    exists i :: 0 <= i < |listed| && IsListing(listed[i], p)
  }

  /** A load lists open passes only, five thousand at most and newest first; and a list that is not full leaves none
      out, while a full one leaves out none that is newer than any it has. */
  lemma QueryOutcome(db: seq<DbPass>, scope: set<nat>)
    ensures var r := Query(db, scope);
      && |r| <= 5000
      && (forall i :: 0 <= i < |r| ==> ListsOpen(db, scope, r[i]))
      && (forall i, j :: 0 <= i < j < |r| ==> r[i].created >= r[j].created)
      && (forall p :: Lists(db, scope, p) && !IsListed(r, p) ==>
            |r| == 5000 && forall i :: 0 <= i < |r| ==> r[i].created >= p.created)
  {
    var rows, r := Newest(OpenRows(db, scope)), Query(db, scope);
    NewestOpenRowsAre(db, scope);
    QueryIsOpen(db, scope);
    assert |r| == |Limited(rows)| <= 5000;
    forall i | 0 <= i < |r| ensures ListsOpen(db, scope, r[i]) { ListedIsOpen(db, scope, i); }
    forall p | Lists(db, scope, p) && !IsListed(r, p)
      ensures |r| == 5000 && forall i :: 0 <= i < |r| ==> r[i].created >= p.created
    {
      LeftOutIsOlder(db, scope, p);
    }
  }

  lemma ListedIsOpen(db: seq<DbPass>, scope: set<nat>, i: nat)
    requires i < |Query(db, scope)|
    ensures ListsOpen(db, scope, Query(db, scope)[i])
  {
    RowIsOpen(db, scope, i);
    var p :| p in db && IsOpen(p, scope) && Query(db, scope)[i] == Shown(p);
    assert Lists(db, scope, p) && IsListing(Query(db, scope)[i], p);
  }

  lemma LeftOutIsOlder(db: seq<DbPass>, scope: set<nat>, p: DbPass)
    requires Lists(db, scope, p) && !IsListed(Query(db, scope), p)
    ensures var r := Query(db, scope);
      |r| == 5000 && forall i :: 0 <= i < |r| ==> r[i].created >= p.created
  {
    var rows, r := Newest(OpenRows(db, scope)), Query(db, scope);
    NewestOpenRowsAre(db, scope);
    var k :| 0 <= k < |rows| && rows[k] == p;
    if k < |r| { assert IsListing(r[k], p); }
    forall i | 0 <= i < |r| ensures r[i].created >= p.created { assert r[i].created == rows[i].created; }
  }
}
