/** The knowledge graph: storing triples, and the recursive query that walks out from seed entities. */
module GraphTraversal {
  import opened Common

  type Id = nat

  datatype Edge = Edge(tenant: Id, source: Id, target: Id, relation: string)

  /** One row of the recursive query, with the ids its path has visited. */
  datatype Row = Row(source: Id, target: Id, relation: string, depth: nat, visited: seq<Id>)

  // ---------------------------------------------------------------------------
  // The query
  // ---------------------------------------------------------------------------

  /** The anchor member. */
  function Anchor(edges: set<Edge>, tenant: Id, seeds: set<Id>): set<Row> {
    set e | e in edges && e.tenant == tenant && e.source in seeds
      :: Row(e.source, e.target, e.relation, 1, [e.source, e.target])
  }

  function Extend(g: Row, e: Edge): Row {
    Row(e.source, e.target, e.relation, g.depth + 1, g.visited + [e.target])
  }

  predicate Follows(g: Row, e: Edge, tenant: Id) {
    e.tenant == tenant && e.source == g.target && e.target !in g.visited
  }

  /** The recursive member, applied to the rows of the previous round. */
  function Recurse(edges: set<Edge>, tenant: Id, working: set<Row>): set<Row> {
    set g, e | g in working && e in edges && Follows(g, e, tenant) :: Extend(g, e)
  }

  function Nodes(edges: set<Edge>): set<Id> {
    (set e | e in edges :: e.source) + (set e | e in edges :: e.target)
  }

  predicate Distinct(s: seq<Id>) {
    forall i, j :: 0 <= i < j < |s| ==> s[i] != s[j]
  }

  /** What every row keeps: past the first id, the visited ids never repeat. */
  ghost predicate WellFormed(edges: set<Edge>, tenant: Id, seeds: set<Id>, g: Row) {
    && g.depth >= 1
    && |g.visited| == g.depth + 1
    && g.visited[0] in seeds
    && g.visited[g.depth] == g.target
    && IsWalk(edges, tenant, g.visited)
    && Distinct(g.visited[1..])
    && forall i :: 2 <= i < |g.visited| ==> g.visited[i] != g.visited[0]
  }

  ghost predicate Round(edges: set<Edge>, tenant: Id, seeds: set<Id>, depth: nat, working: set<Row>) {
    forall g :: g in working ==> g.depth == depth && WellFormed(edges, tenant, seeds, g)
  }

  /** WITH RECURSIVE: rounds of the recursive member until a round is empty. A bound of None drops the depth test. */
  function Rounds(edges: set<Edge>, tenant: Id, seeds: set<Id>, bound: Option<int>, depth: nat, working: set<Row>)
    : set<Row>
    requires Round(edges, tenant, seeds, depth, working)
    decreases |Nodes(edges)| + 1 - depth
  {
    if working == {} then {}
    else
      RoundIsShallow(edges, tenant, seeds, depth, working);
      var next := if bound.None? || depth < bound.value then Recurse(edges, tenant, working) else {};
      RecurseKeepsRound(edges, tenant, seeds, depth, working);
      working + Rounds(edges, tenant, seeds, bound, depth + 1, next)
  }

  function Traverse(edges: set<Edge>, tenant: Id, seeds: set<Id>, bound: Option<int>): set<Row> {
    AnchorIsRound(edges, tenant, seeds);
    Rounds(edges, tenant, seeds, bound, 1, Anchor(edges, tenant, seeds))
  }

  // ---------------------------------------------------------------------------
  // Walks
  // ---------------------------------------------------------------------------

  ghost predicate Linked(edges: set<Edge>, tenant: Id, a: Id, b: Id) {
    exists e :: e in edges && e.tenant == tenant && e.source == a && e.target == b
  }

  /** A walk is a non-empty list of ids joined by edges of the tenant; its length counts the edges. */
  ghost predicate IsWalk(edges: set<Edge>, tenant: Id, p: seq<Id>) {
    |p| >= 1 && forall i :: 0 <= i < |p| - 1 ==> Linked(edges, tenant, p[i], p[i + 1])
  }

  ghost predicate WalkWithin(edges: set<Edge>, tenant: Id, a: Id, b: Id, k: int) {
    exists p :: IsWalk(edges, tenant, p) && p[0] == a && p[|p| - 1] == b && |p| - 1 <= k
  }

  lemma {:induction false} DistinctBound(s: seq<Id>, universe: set<Id>)
    requires Distinct(s) && forall x :: x in s ==> x in universe
    ensures |s| <= |universe|
    decreases |s|
  {
    if s != [] {
      var n := |s| - 1;
      assert forall x :: x in s[..n] ==> x in s && x != s[n];
      assert s[n] in s;
      DistinctBound(s[..n], universe - {s[n]});
    }
  }

  lemma WalkStaysInNodes(edges: set<Edge>, tenant: Id, p: seq<Id>)
    requires IsWalk(edges, tenant, p)
    ensures forall x :: x in p[1..] ==> x in Nodes(edges)
  {
    forall x | x in p[1..] ensures x in Nodes(edges) {
      var i :| 0 <= i < |p[1..]| && p[1..][i] == x;
      assert Linked(edges, tenant, p[i], p[i + 1]);
      var e :| e in edges && e.tenant == tenant && e.source == p[i] && e.target == p[i + 1];
      assert e.target in (set e | e in edges :: e.target);
    }
  }

  /** Each round uses up one more id of a finite graph, so rounds stop without a depth bound. */
  lemma RoundIsShallow(edges: set<Edge>, tenant: Id, seeds: set<Id>, depth: nat, working: set<Row>)
    requires Round(edges, tenant, seeds, depth, working) && working != {}
    ensures depth <= |Nodes(edges)|
  {
    var g :| g in working;
    WalkStaysInNodes(edges, tenant, g.visited);
    DistinctBound(g.visited[1..], Nodes(edges));
  }

  lemma AnchorIsRound(edges: set<Edge>, tenant: Id, seeds: set<Id>)
    ensures Round(edges, tenant, seeds, 1, Anchor(edges, tenant, seeds))
  {
    forall g | g in Anchor(edges, tenant, seeds) ensures g.depth == 1 && WellFormed(edges, tenant, seeds, g) {
      var e :| e in edges && e.tenant == tenant && e.source in seeds
        && g == Row(e.source, e.target, e.relation, 1, [e.source, e.target]);
      assert Linked(edges, tenant, g.visited[0], g.visited[1]);
    }
  }

  lemma ExtendKeepsWellFormed(edges: set<Edge>, tenant: Id, seeds: set<Id>, g: Row, e: Edge)
    requires WellFormed(edges, tenant, seeds, g) && e in edges && Follows(g, e, tenant)
    ensures WellFormed(edges, tenant, seeds, Extend(g, e))
  {
    var h := Extend(g, e);
    forall i | 0 <= i < |h.visited| - 1 ensures Linked(edges, tenant, h.visited[i], h.visited[i + 1]) {
      if i < |g.visited| - 1 {
        assert Linked(edges, tenant, g.visited[i], g.visited[i + 1]);
      }
    }
    assert h.visited[1..] == g.visited[1..] + [e.target];
    assert forall x :: x in g.visited[1..] ==> x in g.visited;
  }

  lemma RecurseKeepsRound(edges: set<Edge>, tenant: Id, seeds: set<Id>, depth: nat, working: set<Row>)
    requires Round(edges, tenant, seeds, depth, working)
    ensures Round(edges, tenant, seeds, depth + 1, Recurse(edges, tenant, working))
  {
    forall h | h in Recurse(edges, tenant, working) ensures h.depth == depth + 1 && WellFormed(edges, tenant, seeds, h) {
      var g, e :| g in working && e in edges && Follows(g, e, tenant) && h == Extend(g, e);
      ExtendKeepsWellFormed(edges, tenant, seeds, g, e);
    }
  }

  /** Every row is the end of a walk of its own depth, and the depth test holds past the anchor. */
  lemma {:induction false} RoundsAreWalks(
    edges: set<Edge>, tenant: Id, seeds: set<Id>, bound: Option<int>, depth: nat, working: set<Row>, r: Row)
    requires Round(edges, tenant, seeds, depth, working)
    requires r in Rounds(edges, tenant, seeds, bound, depth, working)
    ensures WellFormed(edges, tenant, seeds, r)
    ensures bound.Some? ==> r.depth <= depth || r.depth <= bound.value
    decreases |Nodes(edges)| + 1 - depth
  {
    RoundIsShallow(edges, tenant, seeds, depth, working);
    var next := if bound.None? || depth < bound.value then Recurse(edges, tenant, working) else {};
    RecurseKeepsRound(edges, tenant, seeds, depth, working);
    if r !in working {
      RoundsAreWalks(edges, tenant, seeds, bound, depth + 1, next, r);
    }
  }

  /** A simple path extends some row, round by round, until it is complete. */
  lemma {:induction false} RoundsReach(
    edges: set<Edge>, tenant: Id, seeds: set<Id>, bound: Option<int>, depth: nat, working: set<Row>, p: seq<Id>, g: Row)
    returns (r: Row)
    requires Round(edges, tenant, seeds, depth, working)
    requires IsWalk(edges, tenant, p) && Distinct(p) && depth < |p|
    requires bound.Some? ==> |p| - 1 <= bound.value
    requires g in working && g.visited == p[..depth + 1]
    ensures r in Rounds(edges, tenant, seeds, bound, depth, working) && r.visited == p
    decreases |Nodes(edges)| + 1 - depth
  {
    RoundIsShallow(edges, tenant, seeds, depth, working);
    if depth == |p| - 1 {
      r := g;
    } else {
      RecurseKeepsRound(edges, tenant, seeds, depth, working);
      assert Linked(edges, tenant, p[depth], p[depth + 1]);
      var e :| e in edges && e.tenant == tenant && e.source == p[depth] && e.target == p[depth + 1];
      assert g.target == g.visited[depth];
      assert Follows(g, e, tenant);
      var h := Extend(g, e);
      assert h in Recurse(edges, tenant, working);
      assert h.visited == p[..depth + 2];
      r := RoundsReach(edges, tenant, seeds, bound, depth + 1, Recurse(edges, tenant, working), p, h);
    }
  }

  /** Cutting the loops out of a walk gives a simple path that is no longer. */
  lemma {:induction false} Shorten(edges: set<Edge>, tenant: Id, p: seq<Id>) returns (q: seq<Id>)
    requires IsWalk(edges, tenant, p)
    ensures IsWalk(edges, tenant, q) && Distinct(q)
    ensures q[0] == p[0] && q[|q| - 1] == p[|p| - 1] && |q| <= |p|
    decreases |p|
  {
    if Distinct(p) {
      q := p;
    } else {
      var i, j :| 0 <= i < j < |p| && p[i] == p[j];
      var c := p[..i] + p[j..];
      forall k | 0 <= k < |c| - 1 ensures Linked(edges, tenant, c[k], c[k + 1]) {
        if k < i {
          assert Linked(edges, tenant, p[k], p[k + 1]);
        } else {
          assert Linked(edges, tenant, p[k + j - i], p[k + j - i + 1]);
        }
      }
      q := Shorten(edges, tenant, c);
    }
  }

  /** The anchor has no depth test, so a bound below one acts as one. */
  function Reach(maxDepth: int): int {
    if maxDepth < 1 then 1 else maxDepth
  }

  /** From a seed s, the query produces another entity v within depth k exactly when a walk of at most k edges does. */
  lemma ReachedExactly(edges: set<Edge>, tenant: Id, seeds: set<Id>, maxDepth: int, s: Id, v: Id, k: int)
    requires s in seeds && v != s && k <= Reach(maxDepth)
    ensures (exists r :: r in Traverse(edges, tenant, seeds, Some(maxDepth))
               && |r.visited| > 0 && r.visited[0] == s && r.target == v && r.depth <= k)
            <==> WalkWithin(edges, tenant, s, v, k)
  {
    AnchorIsRound(edges, tenant, seeds);
    var anchor := Anchor(edges, tenant, seeds);
    var rows := Traverse(edges, tenant, seeds, Some(maxDepth));
    if r :| r in rows && |r.visited| > 0 && r.visited[0] == s && r.target == v && r.depth <= k {
      RoundsAreWalks(edges, tenant, seeds, Some(maxDepth), 1, anchor, r);
      assert r.visited[|r.visited| - 1] == v;
    }
    if WalkWithin(edges, tenant, s, v, k) {
      var r := RowFor(edges, tenant, seeds, Some(Reach(maxDepth)), s, v, k);
      BoundBelowOne(edges, tenant, seeds, maxDepth);
    }
  }

  lemma RowFor(edges: set<Edge>, tenant: Id, seeds: set<Id>, bound: Option<int>, s: Id, v: Id, k: int) returns (r: Row)
    requires s in seeds && v != s && WalkWithin(edges, tenant, s, v, k) && (bound.Some? ==> k <= bound.value)
    ensures r in Traverse(edges, tenant, seeds, bound)
    ensures |r.visited| > 0 && r.visited[0] == s && r.target == v && r.depth <= k
  {
    AnchorIsRound(edges, tenant, seeds);
    var anchor := Anchor(edges, tenant, seeds);
    var p :| IsWalk(edges, tenant, p) && p[0] == s && p[|p| - 1] == v && |p| - 1 <= k;
    var q := Shorten(edges, tenant, p);
    assert Linked(edges, tenant, q[0], q[1]);
    var e :| e in edges && e.tenant == tenant && e.source == q[0] && e.target == q[1];
    var g := Row(e.source, e.target, e.relation, 1, [e.source, e.target]);
    assert g in anchor && g.visited == q[..2];
    r := RoundsReach(edges, tenant, seeds, bound, 1, anchor, q, g);
    RoundsAreWalks(edges, tenant, seeds, bound, 1, anchor, r);
  }

  lemma BoundBelowOne(edges: set<Edge>, tenant: Id, seeds: set<Id>, maxDepth: int)
    ensures Traverse(edges, tenant, seeds, Some(maxDepth)) == Traverse(edges, tenant, seeds, Some(Reach(maxDepth)))
  {
    AnchorIsRound(edges, tenant, seeds);
    var anchor := Anchor(edges, tenant, seeds);
    if maxDepth < 1 && anchor != {} {
      RoundIsShallow(edges, tenant, seeds, 1, anchor);
      assert Rounds(edges, tenant, seeds, Some(maxDepth), 1, anchor)
             == anchor + Rounds(edges, tenant, seeds, Some(maxDepth), 2, {}) == anchor;
      assert Rounds(edges, tenant, seeds, Some(1), 1, anchor)
             == anchor + Rounds(edges, tenant, seeds, Some(1), 2, {}) == anchor;
    }
  }

  ghost predicate NearSeeds(edges: set<Edge>, tenant: Id, seeds: set<Id>, v: Id, k: int) {
    exists s :: s in seeds && WalkWithin(edges, tenant, s, v, k)
  }

  /** The length of a shortest walk from any seed. */
  ghost predicate IsDistance(edges: set<Edge>, tenant: Id, seeds: set<Id>, v: Id, d: int) {
    NearSeeds(edges, tenant, seeds, v, d) && !NearSeeds(edges, tenant, seeds, v, d - 1)
  }

  ghost predicate ProducedBy(rows: set<Row>, v: Id, k: int) {
    exists r :: r in rows && r.target == v && r.depth <= k
  }

  lemma ProducedIffNear(edges: set<Edge>, tenant: Id, seeds: set<Id>, maxDepth: int, v: Id, k: int)
    requires v !in seeds && k <= Reach(maxDepth)
    ensures ProducedBy(Traverse(edges, tenant, seeds, Some(maxDepth)), v, k) <==> NearSeeds(edges, tenant, seeds, v, k)
  {
    var rows := Traverse(edges, tenant, seeds, Some(maxDepth));
    if ProducedBy(rows, v, k) {
      var r :| r in rows && r.target == v && r.depth <= k;
      AnchorIsRound(edges, tenant, seeds);
      RoundsAreWalks(edges, tenant, seeds, Some(maxDepth), 1, Anchor(edges, tenant, seeds), r);
      ReachedExactly(edges, tenant, seeds, maxDepth, r.visited[0], v, k);
    }
    if NearSeeds(edges, tenant, seeds, v, k) {
      var s :| s in seeds && WalkWithin(edges, tenant, s, v, k);
      ReachedExactly(edges, tenant, seeds, maxDepth, s, v, k);
    }
  }

  /** The smallest depth shown for an entity outside the seeds is its true distance from them. */
  lemma SmallestDepthIsDistance(edges: set<Edge>, tenant: Id, seeds: set<Id>, maxDepth: int, v: Id, d: int)
    requires v !in seeds && d <= Reach(maxDepth)
    ensures ProducedBy(Traverse(edges, tenant, seeds, Some(maxDepth)), v, d)
            && !ProducedBy(Traverse(edges, tenant, seeds, Some(maxDepth)), v, d - 1)
            <==> IsDistance(edges, tenant, seeds, v, d)
  {
    ProducedIffNear(edges, tenant, seeds, maxDepth, v, d);
    ProducedIffNear(edges, tenant, seeds, maxDepth, v, d - 1);
  }

  /** Without the depth bound the query still ends, and cycle pruning loses no reachable entity. */
  lemma UnboundedReachesAll(edges: set<Edge>, tenant: Id, seeds: set<Id>, s: Id, v: Id)
    requires s in seeds && v != s
    ensures (exists r :: r in Traverse(edges, tenant, seeds, None)
               && |r.visited| > 0 && r.visited[0] == s && r.target == v)
            <==> exists k :: WalkWithin(edges, tenant, s, v, k)
  {
    AnchorIsRound(edges, tenant, seeds);
    if r :| r in Traverse(edges, tenant, seeds, None) && |r.visited| > 0 && r.visited[0] == s && r.target == v {
      RoundsAreWalks(edges, tenant, seeds, None, 1, Anchor(edges, tenant, seeds), r);
      assert r.visited[|r.visited| - 1] == v;
      assert WalkWithin(edges, tenant, s, v, r.depth);
    }
    if k :| WalkWithin(edges, tenant, s, v, k) {
      var r := RowFor(edges, tenant, seeds, None, s, v, k);
    }
  }

  // ---------------------------------------------------------------------------
  // Storing triples
  // ---------------------------------------------------------------------------

  type EntityKey = (string, string)

  datatype Relationship = Relationship(source: EntityKey, target: EntityKey, relation: string)

  /** The edges one call inserts: both ends named in the same call, and not the same entity. */
  function NewEdges(tenant: Id, ids: map<EntityKey, Id>, rels: seq<Relationship>): seq<Edge> {
    if rels == [] then []
    else
      var rest, rel := NewEdges(tenant, ids, rels[..|rels| - 1]), rels[|rels| - 1];
      if rel.source in ids && rel.target in ids && ids[rel.source] != ids[rel.target]
      then rest + [Edge(tenant, ids[rel.source], ids[rel.target], rel.relation)]
      else rest
  }

  lemma {:induction false} NewEdgesFacts(tenant: Id, ids: map<EntityKey, Id>, rels: seq<Relationship>, e: Edge)
    requires e in NewEdges(tenant, ids, rels)
    ensures e.tenant == tenant && e.source in ids.Values && e.target in ids.Values && e.source != e.target
  {
    if e in NewEdges(tenant, ids, rels[..|rels| - 1]) {
      NewEdgesFacts(tenant, ids, rels[..|rels| - 1], e);
    }
  }

  predicate Owns(entities: map<(Id, string, string), Id>, tenant: Id, id: Id) {
    exists k :: k in entities && k.0 == tenant && entities[k] == id
  }

  /** Ids are unique, and every edge joins two different entities of its own tenant. */
  ghost predicate Consistent(entities: map<(Id, string, string), Id>, relationships: seq<Edge>, nextId: Id) {
    && (forall k :: k in entities ==> entities[k] < nextId)
    && (forall j, k :: j in entities && k in entities && entities[j] == entities[k] ==> j == k)
    && (forall e :: e in relationships ==>
          e.source != e.target && Owns(entities, e.tenant, e.source) && Owns(entities, e.tenant, e.target))
  }

  lemma FreshEntity(entities: map<(Id, string, string), Id>, relationships: seq<Edge>, nextId: Id, key: (Id, string, string))
    requires Consistent(entities, relationships, nextId) && key !in entities
    ensures Consistent(entities[key := nextId], relationships, nextId + 1)
  {
    var more := entities[key := nextId];
    forall t, id | Owns(entities, t, id) ensures Owns(more, t, id) {
      var k :| k in entities && k.0 == t && entities[k] == id;
      assert k in more && more[k] == id;
    }
  }

  /** The ids this call looked up or created, by entity key. */
  function IdMap(tenant: Id, named: seq<EntityKey>, entities: map<(Id, string, string), Id>): map<EntityKey, Id> {
    map k | k in named && (tenant, k.0, k.1) in entities :: entities[(tenant, k.0, k.1)]
  }

  /** Entities are never dropped or renumbered. */
  ghost predicate Grown(before: map<(Id, string, string), Id>, after: map<(Id, string, string), Id>) {
    forall k :: k in before ==> k in after && after[k] == before[k]
  }

  lemma IdMapIsOwned(tenant: Id, named: seq<EntityKey>, entities: map<(Id, string, string), Id>)
    ensures forall k :: k in IdMap(tenant, named, entities) ==> Owns(entities, tenant, IdMap(tenant, named, entities)[k])
  {
  }

  function KeySet(tenant: Id, named: seq<EntityKey>): set<(Id, string, string)> {
    set k | k in named :: (tenant, k.0, k.1)
  }

  /** The state between two upserts of one call, which found `base` in the table. */
  ghost predicate Upserted(
    tenant: Id, named: seq<EntityKey>, base: map<(Id, string, string), Id>, now: map<(Id, string, string), Id>,
    ids: map<EntityKey, Id>)
  {
    Grown(base, now) && now.Keys == base.Keys + KeySet(tenant, named) && ids == IdMap(tenant, named, now)
  }

  lemma UpsertStep(
    tenant: Id, named: seq<EntityKey>, i: nat, base: map<(Id, string, string), Id>,
    before: map<(Id, string, string), Id>, after: map<(Id, string, string), Id>, ids: map<EntityKey, Id>)
    requires i < |named| && Upserted(tenant, named[..i], base, before, ids)
    requires Grown(before, after) && after.Keys == before.Keys + {(tenant, named[i].0, named[i].1)}
    ensures Upserted(tenant, named[..i + 1], base, after, ids[named[i] := after[(tenant, named[i].0, named[i].1)]])
  {
    KeySetGrows(tenant, named, i);
    IdMapGrows(tenant, named, i, before, after);
  }

  lemma IdMapGrows(
    tenant: Id, named: seq<EntityKey>, i: nat,
    before: map<(Id, string, string), Id>, after: map<(Id, string, string), Id>)
    requires i < |named| && Grown(before, after) && KeySet(tenant, named[..i]) <= before.Keys
    requires (tenant, named[i].0, named[i].1) in after
    ensures IdMap(tenant, named[..i + 1], after)
            == IdMap(tenant, named[..i], before)[named[i] := after[(tenant, named[i].0, named[i].1)]]
  {
    var a, b := IdMap(tenant, named[..i + 1], after), IdMap(tenant, named[..i], before);
    forall k | k in named[..i] ensures k in b && k in a && a[k] == b[k] {
      assert (tenant, k.0, k.1) in KeySet(tenant, named[..i]);
      assert k in named[..i + 1];
    }
    assert forall k :: k in named[..i + 1] <==> k in named[..i] || k == named[i];
  }

  lemma KeySetGrows(tenant: Id, named: seq<EntityKey>, i: nat)
    requires i < |named|
    ensures KeySet(tenant, named[..i + 1]) == KeySet(tenant, named[..i]) + {(tenant, named[i].0, named[i].1)}
  {
    assert named[..i + 1] == named[..i] + [named[i]];
  }

  lemma UpsertDone(
    tenant: Id, named: seq<EntityKey>, base: map<(Id, string, string), Id>, now: map<(Id, string, string), Id>,
    ids: map<EntityKey, Id>)
    requires Upserted(tenant, named[..|named|], base, now, ids)
    ensures Upserted(tenant, named, base, now, ids)
    ensures forall k :: k in ids ==> Owns(now, tenant, ids[k])
  {
    assert named[..|named|] == named;
    IdMapIsOwned(tenant, named, now);
  }

  class GraphStore {
    /** graph_entities, unique on (tenant, name, type); graph_relationships; the next fresh id. */
    var entities: map<(Id, string, string), Id>
    var relationships: seq<Edge>
    var nextId: Id

    ghost predicate Valid()
      reads this
    {
      Consistent(entities, relationships, nextId)
    }

    constructor ()
      ensures Valid() && entities == map[] && relationships == []
    {
      entities, relationships, nextId := map[], [], 0;
    }

    method UpsertEntity(tenant: Id, name: string, entityType: string) returns (id: Id)
      requires Valid()
      modifies this
      ensures Valid() && relationships == old(relationships)
      ensures entities.Keys == old(entities).Keys + {(tenant, name, entityType)}
      ensures Grown(old(entities), entities)
      ensures entities[(tenant, name, entityType)] == id
    {
      var key := (tenant, name, entityType);
      if key !in entities {
        FreshEntity(entities, relationships, nextId, key);
        entities, nextId := entities[key := nextId], nextId + 1;
      }
      id := entities[key];
    }

    /** store_graph_triples: upsert the entities, then insert the relationships between them. */
    method StoreGraphTriples(tenant: Id, named: seq<EntityKey>, rels: seq<Relationship>)
      returns (stored: nat, inserted: nat)
      requires Valid()
      modifies this
      ensures Valid()
      ensures Grown(old(entities), entities)
      ensures entities.Keys == old(entities).Keys + KeySet(tenant, named)
      ensures relationships == old(relationships) + NewEdges(tenant, IdMap(tenant, named, entities), rels)
      ensures stored == |IdMap(tenant, named, entities)|
      ensures inserted == |NewEdges(tenant, IdMap(tenant, named, entities), rels)|
    {
      var ids := UpsertEntities(tenant, named);
      inserted := InsertRelationships(tenant, ids, rels);
      stored := |ids|;
    }

    method UpsertEntities(tenant: Id, named: seq<EntityKey>) returns (ids: map<EntityKey, Id>)
      requires Valid()
      modifies this
      ensures Valid() && relationships == old(relationships)
      ensures Upserted(tenant, named, old(entities), entities, ids)
      ensures forall k :: k in ids ==> Owns(entities, tenant, ids[k])
    {
      ids := map[];
      for i := 0 to |named|
        invariant Valid() && relationships == old(relationships)
        invariant Upserted(tenant, named[..i], old(entities), entities, ids)
      {
        ghost var before := entities;
        var id := UpsertEntity(tenant, named[i].0, named[i].1);
        UpsertStep(tenant, named, i, old(entities), before, entities, ids);
        ids := ids[named[i] := id];
      }
      UpsertDone(tenant, named, old(entities), entities, ids);
    }

    method InsertRelationships(tenant: Id, ids: map<EntityKey, Id>, rels: seq<Relationship>) returns (inserted: nat)
      requires Valid() && forall k :: k in ids ==> Owns(entities, tenant, ids[k])
      modifies `relationships
      ensures Valid()
      ensures relationships == old(relationships) + NewEdges(tenant, ids, rels)
      ensures inserted == |NewEdges(tenant, ids, rels)|
    {
      inserted := 0;
      for i := 0 to |rels|
        invariant Valid()
        invariant relationships == old(relationships) + NewEdges(tenant, ids, rels[..i])
        invariant inserted == |NewEdges(tenant, ids, rels[..i])|
      {
        var rel := rels[i];
        assert rels[..i + 1][..i] == rels[..i];
        if rel.source in ids && rel.target in ids && ids[rel.source] != ids[rel.target] {
          relationships := relationships + [Edge(tenant, ids[rel.source], ids[rel.target], rel.relation)];
          inserted := inserted + 1;
        }
      }
      assert rels[..|rels|] == rels;
    }
  }

  /** On a consistent store no path repeats an entity or leaves the tenant, so no seed is reported as its own neighbour. */
  lemma StoredPathsAreSimple(
    entities: map<(Id, string, string), Id>, relationships: seq<Edge>, nextId: Id,
    tenant: Id, seeds: set<Id>, bound: Option<int>, r: Row)
    requires Consistent(entities, relationships, nextId)
    requires r in Traverse((set e | e in relationships), tenant, seeds, bound)
    ensures Distinct(r.visited) && |r.visited| == r.depth + 1 && r.visited[r.depth] == r.target
    ensures forall x :: x in r.visited ==> Owns(entities, tenant, x)
  {
    var edges := set e | e in relationships;
    AnchorIsRound(edges, tenant, seeds);
    RoundsAreWalks(edges, tenant, seeds, bound, 1, Anchor(edges, tenant, seeds), r);
    forall i, j | 0 <= i < j < |r.visited| ensures r.visited[i] != r.visited[j] {
      StoredEdge(entities, relationships, nextId, tenant, r.visited, i);
      if i > 0 {
        assert r.visited[1..][i - 1] != r.visited[1..][j - 1];
      }
    }
    forall x | x in r.visited ensures Owns(entities, tenant, x) {
      var i :| 0 <= i < |r.visited| && r.visited[i] == x;
      StoredEdge(entities, relationships, nextId, tenant, r.visited, if i == r.depth then i - 1 else i);
    }
  }

  lemma StoredEdge(
    entities: map<(Id, string, string), Id>, relationships: seq<Edge>, nextId: Id, tenant: Id, walk: seq<Id>, i: nat)
    requires Consistent(entities, relationships, nextId) && i + 1 < |walk|
    requires IsWalk((set e | e in relationships), tenant, walk)
    ensures walk[i] != walk[i + 1] && Owns(entities, tenant, walk[i]) && Owns(entities, tenant, walk[i + 1])
  {
    assert Linked((set e | e in relationships), tenant, walk[i], walk[i + 1]);
  }
}
