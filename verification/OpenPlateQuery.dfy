/**
 * The query behind the open-plate cache: the approved passes in an actor's scope, newest first.
 */
module OpenPlateQuery {
  import opened OpenPlateCache
  import opened PlateGrammar

  datatype DbPass = DbPass(id: nat, plate: string, factory: nat, approved: bool, created: int)

  datatype OpenPlate = OpenPlate(id: nat, plate: string, created: int)

  const QUERY_LIMIT: nat := 5000

  predicate IsOpen(p: DbPass, scope: set<nat>) { p.approved && p.factory in scope }

  function OpenRows(db: seq<DbPass>, scope: set<nat>): seq<DbPass> {
    if db == [] then []
    else
      var rest, last := OpenRows(db[..|db| - 1], scope), db[|db| - 1];
      if IsOpen(last, scope) then rest + [last] else rest
  }

  function InsertNewest(sorted: seq<DbPass>, p: DbPass): seq<DbPass> {
    if sorted == [] || p.created > sorted[0].created then [p] + sorted
    else [sorted[0]] + InsertNewest(sorted[1..], p)
  }

  /** Newest first. */
  function Newest(rows: seq<DbPass>): seq<DbPass> {
    if rows == [] then [] else InsertNewest(Newest(rows[..|rows| - 1]), rows[|rows| - 1])
  }

  function Limited(rows: seq<DbPass>): seq<DbPass> { if |rows| <= QUERY_LIMIT then rows else rows[..QUERY_LIMIT] }

  function Shown(p: DbPass): OpenPlate { OpenPlate(p.id, CanonicalOrRaw(p.plate), p.created) }

  function Projected(rows: seq<DbPass>): seq<OpenPlate> {
    seq(|rows|, i requires 0 <= i < |rows| => Shown(rows[i]))
  }

  /** The approved passes in the actor's scope, newest first, at most 5000. */
  function Query(db: seq<DbPass>, scope: set<nat>): seq<OpenPlate> {
    Projected(Limited(Newest(OpenRows(db, scope))))
  }

  ghost predicate NewestFirst(rows: seq<DbPass>) {
    forall i, j :: 0 <= i < j < |rows| ==> rows[i].created >= rows[j].created
  }

  lemma PrependNewest(first: DbPass, rest: seq<DbPass>)
    requires NewestFirst(rest) && forall q :: q in rest ==> first.created >= q.created
    ensures NewestFirst([first] + rest)
  {
  }

  lemma {:induction false} InsertNewestKeeps(sorted: seq<DbPass>, p: DbPass)
    requires NewestFirst(sorted)
    ensures var r := InsertNewest(sorted, p);
      NewestFirst(r) && |r| == |sorted| + 1 && forall q :: q in r <==> q in sorted || q == p
  {
    if sorted != [] && p.created <= sorted[0].created {
      InsertNewestKeeps(sorted[1..], p);
      assert sorted == [sorted[0]] + sorted[1..];
      PrependNewest(sorted[0], InsertNewest(sorted[1..], p));
    }
  }

  lemma {:induction false} NewestSorts(rows: seq<DbPass>)
    ensures NewestFirst(Newest(rows)) && |Newest(rows)| == |rows| && forall q :: q in Newest(rows) <==> q in rows
  {
    if rows != [] {
      NewestSorts(rows[..|rows| - 1]);
      InsertNewestKeeps(Newest(rows[..|rows| - 1]), rows[|rows| - 1]);
      assert rows == rows[..|rows| - 1] + [rows[|rows| - 1]];
    }
  }

  lemma {:induction false} OpenRowsAre(db: seq<DbPass>, scope: set<nat>)
    ensures forall p :: p in OpenRows(db, scope) <==> p in db && IsOpen(p, scope)
  {
    if db != [] {
      OpenRowsAre(db[..|db| - 1], scope);
      assert db == db[..|db| - 1] + [db[|db| - 1]];
    }
  }

  lemma NewestOpenRowsAre(db: seq<DbPass>, scope: set<nat>)
    ensures forall p :: p in Newest(OpenRows(db, scope)) <==> p in db && IsOpen(p, scope)
    ensures NewestFirst(Newest(OpenRows(db, scope))) && |Newest(OpenRows(db, scope))| == |OpenRows(db, scope)|
  {
    OpenRowsAre(db, scope);
    NewestSorts(OpenRows(db, scope));
  }

  ghost predicate ShowsOpen(db: seq<DbPass>, scope: set<nat>, plate: OpenPlate) {
    exists p :: p in db && IsOpen(p, scope) && plate == Shown(p)
  }

  /** The query answers with open passes only, newest first; and with all of them unless there are more than 5000. */
  lemma QueryIsOpen(db: seq<DbPass>, scope: set<nat>)
    ensures var r := Query(db, scope);
      && (forall i :: 0 <= i < |r| ==> ShowsOpen(db, scope, r[i]))
      && (forall i, j :: 0 <= i < j < |r| ==> r[i].created >= r[j].created)
      && (|OpenRows(db, scope)| <= QUERY_LIMIT ==> forall p :: p in db && IsOpen(p, scope) ==> Shown(p) in r)
  {
    var rows, r := Newest(OpenRows(db, scope)), Query(db, scope);
    forall i | 0 <= i < |r| ensures ShowsOpen(db, scope, r[i]) { RowIsOpen(db, scope, i); }
    assert NewestFirst(rows) && |rows| == |OpenRows(db, scope)| by { NewestOpenRowsAre(db, scope); }
    assert forall i :: 0 <= i < |r| ==> r[i].created == rows[i].created;
    if |OpenRows(db, scope)| <= QUERY_LIMIT {
      forall p | p in db && IsOpen(p, scope) ensures Shown(p) in r { OpenIsListed(db, scope, p); }
    }
  }

  lemma RowIsOpen(db: seq<DbPass>, scope: set<nat>, i: nat)
    requires i < |Query(db, scope)|
    ensures ShowsOpen(db, scope, Query(db, scope)[i])
  {
    var p := Newest(OpenRows(db, scope))[i];
    assert p in Newest(OpenRows(db, scope));
    NewestOpenRowsAre(db, scope);
    assert Query(db, scope)[i] == Shown(p);
  }

  lemma OpenIsListed(db: seq<DbPass>, scope: set<nat>, p: DbPass)
    requires p in db && IsOpen(p, scope) && |OpenRows(db, scope)| <= QUERY_LIMIT
    ensures Shown(p) in Query(db, scope)
  {
    var rows := Newest(OpenRows(db, scope));
    NewestOpenRowsAre(db, scope);
    var k :| 0 <= k < |rows| && rows[k] == p;
    assert Query(db, scope)[k] == Shown(p);
  }

  /** What a load answers for an actor whose scope does not change. */
  function QueryIn(scopes: nat -> set<nat>): (seq<DbPass>, nat) -> seq<OpenPlate> {
    (db: seq<DbPass>, actor: nat) => Query(db, scopes(actor))
  }

  /** With no change event on its way, a cached entry holds exactly the open passes in the actor's scope. */
  lemma CacheHoldsOpenPasses(db: seq<DbPass>, ttl: int, scopes: nat -> set<nat>, steps: seq<Step<seq<DbPass>>>,
          actor: nat)
    requires var s := After(db, ttl, QueryIn(scopes), steps); actor in s.cache && s.undelivered == {}
    ensures var s := After(db, ttl, QueryIn(scopes), steps);
      s.cache[actor].plates == Query(s.history[|s.history| - 1], scopes(actor))
  {
    QuietCacheIsExact(db, ttl, QueryIn(scopes), steps, actor);
  }
}
