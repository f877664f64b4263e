/** Greedy clustering of documents by the similarity of their mean embeddings. */
module Clustering {

  type Id = nat
  type Vector = seq<real>

  // ---------------------------------------------------------------------------
  // Cosine similarity
  // ---------------------------------------------------------------------------

  /** The sum of products over the common length, as zip without strict pairs them. */
  function Dot(a: Vector, b: Vector): real {
    if a == [] || b == [] then 0.0 else a[0] * b[0] + Dot(a[1..], b[1..])
  }

  /** The square root is a parameter. */
  function Cosine(sqrt: real -> real, a: Vector, b: Vector): real {
    var na, nb := sqrt(Dot(a, a)), sqrt(Dot(b, b));
    if na == 0.0 || nb == 0.0 then 0.0
    else
      NonZeroProduct(na, nb);
      Dot(a, b) / (na * nb)
  }

  lemma NonZeroProduct(x: real, y: real)
    requires x != 0.0 && y != 0.0
    ensures x * y != 0.0
  {
  }

  lemma {:induction false} DotCommutes(a: Vector, b: Vector)
    ensures Dot(a, b) == Dot(b, a)
  {
    if a != [] && b != [] {
      DotCommutes(a[1..], b[1..]);
    }
  }

  lemma CosineCommutes(sqrt: real -> real, a: Vector, b: Vector)
    ensures Cosine(sqrt, a, b) == Cosine(sqrt, b, a)
  {
    DotCommutes(a, b);
    var na, nb := sqrt(Dot(a, a)), sqrt(Dot(b, b));
    assert na * nb == nb * na;
  }

  // ---------------------------------------------------------------------------
  // The greedy loop
  // ---------------------------------------------------------------------------

  datatype Document = Document(id: Id, vector: Vector)

  predicate Similar(sqrt: real -> real, threshold: real, a: Document, b: Document) {
    Cosine(sqrt, a.vector, b.vector) >= threshold
  }

  predicate DistinctIds(docs: seq<Document>) {
    forall i, j :: 0 <= i < j < |docs| ==> docs[i].id != docs[j].id
  }

  /** Positions after i, below n, that are unvisited and similar to the document at i, in order. */
  function Followers(
    sqrt: real -> real, threshold: real, docs: seq<Document>, visited: set<nat>, i: nat, n: nat): seq<nat>
    requires i < n <= |docs|
  {
    if n == i + 1 then []
    else
      Followers(sqrt, threshold, docs, visited, i, n - 1)
      + if n - 1 !in visited && Similar(sqrt, threshold, docs[i], docs[n - 1]) then [n - 1] else []
  }

  /** The clusters the loop has formed, as positions, and the positions they use. */
  datatype Progress = Progress(clusters: seq<seq<nat>>, visited: set<nat>)

  function Step(
    sqrt: real -> real, threshold: real, minSize: int, docs: seq<Document>, p: Progress, i: nat): Progress
    requires i < |docs|
  {
    if i in p.visited then p
    else
      var cluster := [i] + Followers(sqrt, threshold, docs, p.visited, i, |docs|);
      if |cluster| >= minSize then Progress(p.clusters + [cluster], p.visited + Positions(cluster)) else p
  }

  function Positions(cluster: seq<nat>): set<nat> {
    set k | k in cluster
  }

  function Run(sqrt: real -> real, threshold: real, minSize: int, docs: seq<Document>, n: nat): Progress
    requires n <= |docs|
  {
    if n == 0 then Progress([], {})
    else Step(sqrt, threshold, minSize, docs, Run(sqrt, threshold, minSize, docs, n - 1), n - 1)
  }

  function Clusters(sqrt: real -> real, threshold: real, minSize: int, docs: seq<Document>): Progress {
    if |docs| < minSize then Progress([], {}) else Run(sqrt, threshold, minSize, docs, |docs|)
  }

  function Ids(docs: seq<Document>, cluster: seq<nat>): seq<Id>
    requires forall k :: k in cluster ==> k < |docs|
  {
    seq<Id>(|cluster|, k requires 0 <= k < |cluster| => assert cluster[k] in cluster; docs[cluster[k]].id)
  }

  // ---------------------------------------------------------------------------
  // What the clusters are
  // ---------------------------------------------------------------------------

  lemma {:induction false} FollowerMembers(
    sqrt: real -> real, threshold: real, docs: seq<Document>, visited: set<nat>, i: nat, n: nat, k: nat)
    requires i < n <= |docs|
    ensures k in Followers(sqrt, threshold, docs, visited, i, n)
            <==> i < k < n && k !in visited && Similar(sqrt, threshold, docs[i], docs[k])
  {
    if n > i + 1 {
      FollowerMembers(sqrt, threshold, docs, visited, i, n - 1, k);
    }
  }

  predicate Ascending(s: seq<nat>) {
    forall a, b :: 0 <= a < b < |s| ==> s[a] < s[b]
  }

  lemma {:induction false} FollowersAscend(
    sqrt: real -> real, threshold: real, docs: seq<Document>, visited: set<nat>, i: nat, n: nat)
    requires i < n <= |docs|
    ensures var f := Followers(sqrt, threshold, docs, visited, i, n);
            Ascending(f) && forall a :: 0 <= a < |f| ==> i < f[a] < n
  {
    if n > i + 1 {
      FollowersAscend(sqrt, threshold, docs, visited, i, n - 1);
    }
  }

  /** A cluster is large enough, ascending, and every other member is similar to its first, the leader. */
  ghost predicate IsCluster(sqrt: real -> real, threshold: real, minSize: int, docs: seq<Document>, c: seq<nat>) {
    && |c| > 0 && |c| >= minSize
    && Ascending(c)
    && (forall k :: k in c ==> k < |docs|)
    && (forall k :: k in c && k != c[0] ==> Similar(sqrt, threshold, docs[c[0]], docs[k]))
  }

  ghost predicate Disjoint(clusters: seq<seq<nat>>) {
    forall a, b :: 0 <= a < b < |clusters| ==> Positions(clusters[a]) !! Positions(clusters[b])
  }

  ghost predicate Covered(p: Progress, k: nat) {
    exists c :: c in p.clusters && k in c
  }

  ghost predicate Sound(sqrt: real -> real, threshold: real, minSize: int, docs: seq<Document>, p: Progress) {
    && (forall c :: c in p.clusters ==> IsCluster(sqrt, threshold, minSize, docs, c) && Positions(c) <= p.visited)
    && Disjoint(p.clusters)
    && (forall k :: k in p.visited ==> Covered(p, k))
  }

  lemma NewCluster(
    sqrt: real -> real, threshold: real, minSize: int, docs: seq<Document>, visited: set<nat>, i: nat, c: seq<nat>)
    requires i < |docs| && i !in visited && c == [i] + Followers(sqrt, threshold, docs, visited, i, |docs|)
    requires |c| >= minSize
    ensures IsCluster(sqrt, threshold, minSize, docs, c) && Positions(c) !! visited
  {
    FollowersAscend(sqrt, threshold, docs, visited, i, |docs|);
    forall k | k in c && k != i ensures i < k < |docs| && k !in visited && Similar(sqrt, threshold, docs[i], docs[k]) {
      FollowerMembers(sqrt, threshold, docs, visited, i, |docs|, k);
    }
  }

  lemma AddCluster(p: Progress, c: seq<nat>)
    requires Positions(c) !! p.visited && Disjoint(p.clusters)
    requires forall d :: d in p.clusters ==> Positions(d) <= p.visited
    requires forall k :: k in p.visited ==> Covered(p, k)
    ensures Disjoint(p.clusters + [c])
    ensures var q := Progress(p.clusters + [c], p.visited + Positions(c)); forall k :: k in q.visited ==> Covered(q, k)
  {
    var q := Progress(p.clusters + [c], p.visited + Positions(c));
    forall k | k in q.visited ensures Covered(q, k) {
      if k in p.visited {
        var d :| d in p.clusters && k in d;
        assert d in q.clusters;
      } else {
        assert q.clusters[|p.clusters|] == c;
      }
    }
    forall a, b | 0 <= a < b < |q.clusters| ensures Positions(q.clusters[a]) !! Positions(q.clusters[b]) {
      assert p.clusters[a] in p.clusters;
    }
  }

  lemma StepKeepsSound(sqrt: real -> real, threshold: real, minSize: int, docs: seq<Document>, p: Progress, i: nat)
    requires i < |docs| && Sound(sqrt, threshold, minSize, docs, p)
    ensures Sound(sqrt, threshold, minSize, docs, Step(sqrt, threshold, minSize, docs, p, i))
  {
    var c := [i] + Followers(sqrt, threshold, docs, p.visited, i, |docs|);
    if i !in p.visited && |c| >= minSize {
      NewCluster(sqrt, threshold, minSize, docs, p.visited, i, c);
      AddCluster(p, c);
    }
  }

  lemma {:induction false} RunIsSound(sqrt: real -> real, threshold: real, minSize: int, docs: seq<Document>, n: nat)
    requires n <= |docs|
    ensures Sound(sqrt, threshold, minSize, docs, Run(sqrt, threshold, minSize, docs, n))
  {
    if n == 0 {
    } else {
      hide Sound;
      RunIsSound(sqrt, threshold, minSize, docs, n - 1);
      StepKeepsSound(sqrt, threshold, minSize, docs, Run(sqrt, threshold, minSize, docs, n - 1), n - 1);
    }
  }

  lemma {:induction false} VisitedGrows(sqrt: real -> real, threshold: real, minSize: int, docs: seq<Document>, m: nat, n: nat)
    requires m <= n <= |docs|
    ensures Run(sqrt, threshold, minSize, docs, m).visited <= Run(sqrt, threshold, minSize, docs, n).visited
    decreases n
  {
    if m < n {
      VisitedGrows(sqrt, threshold, minSize, docs, m, n - 1);
    }
  }

  /** A document left over had too few free similar documents after it when its turn came. */
  lemma LeftoverIsLonely(sqrt: real -> real, threshold: real, minSize: int, docs: seq<Document>, i: nat)
    requires i < |docs| && i !in Run(sqrt, threshold, minSize, docs, |docs|).visited
    ensures var before := Run(sqrt, threshold, minSize, docs, i).visited;
            1 + |Followers(sqrt, threshold, docs, before, i, |docs|)| < minSize
  {
    VisitedGrows(sqrt, threshold, minSize, docs, i, |docs|);
    VisitedGrows(sqrt, threshold, minSize, docs, i + 1, |docs|);
    var p := Run(sqrt, threshold, minSize, docs, i);
    if 1 + |Followers(sqrt, threshold, docs, p.visited, i, |docs|)| >= minSize {
      LargeClusterVisits(sqrt, threshold, minSize, docs, p, i);
    }
  }

  lemma LargeClusterVisits(sqrt: real -> real, threshold: real, minSize: int, docs: seq<Document>, p: Progress, i: nat)
    requires i < |docs| && i !in p.visited
    requires 1 + |Followers(sqrt, threshold, docs, p.visited, i, |docs|)| >= minSize
    ensures i in Step(sqrt, threshold, minSize, docs, p, i).visited
  {
    assert ([i] + Followers(sqrt, threshold, docs, p.visited, i, |docs|))[0] == i;
  }

  /** With clusters of two allowed, any two documents left over are below the threshold. */
  lemma LeftoversAreDissimilar(sqrt: real -> real, threshold: real, minSize: int, docs: seq<Document>, i: nat, j: nat)
    requires minSize <= 2 && i < |docs| && j < |docs| && i != j
    requires i !in Clusters(sqrt, threshold, minSize, docs).visited && j !in Clusters(sqrt, threshold, minSize, docs).visited
    ensures Cosine(sqrt, docs[i].vector, docs[j].vector) < threshold
  {
    CosineCommutes(sqrt, docs[i].vector, docs[j].vector);
    var a, b := if i < j then i else j, if i < j then j else i;
    var before := Run(sqrt, threshold, minSize, docs, a).visited;
    LeftoverIsLonely(sqrt, threshold, minSize, docs, a);
    VisitedGrows(sqrt, threshold, minSize, docs, a, |docs|);
    FollowerMembers(sqrt, threshold, docs, before, a, |docs|, b);
    var f := Followers(sqrt, threshold, docs, before, a, |docs|);
    assert f == [];
    assert b !in f;
  }

  /** What is returned: pairwise disjoint clusters of enough documents, each similar to its leader. */
  lemma ClustersAreSound(sqrt: real -> real, threshold: real, minSize: int, docs: seq<Document>)
    ensures Sound(sqrt, threshold, minSize, docs, Clusters(sqrt, threshold, minSize, docs))
  {
    RunIsSound(sqrt, threshold, minSize, docs, |docs|);
  }

  // ---------------------------------------------------------------------------
  // generate_suggested_clusters
  // ---------------------------------------------------------------------------

  /** The clusters, by the ids of the documents at the given positions. */
  ghost predicate Named(docs: seq<Document>, positions: seq<seq<nat>>, clusters: seq<seq<Id>>) {
    |clusters| == |positions| && forall c :: 0 <= c < |clusters| ==> NamedOne(docs, positions[c], clusters[c])
  }

  ghost predicate NamedOne(docs: seq<Document>, spots: seq<nat>, cluster: seq<Id>) {
    (forall k :: k in spots ==> k < |docs|) && cluster == Ids(docs, spots)
  }

  lemma NamedOneGrows(docs: seq<Document>, spots: seq<nat>, cluster: seq<Id>, j: nat)
    requires NamedOne(docs, spots, cluster) && j < |docs|
    ensures NamedOne(docs, spots + [j], cluster + [docs[j].id])
  {
  }

  lemma NamedGrows(
    docs: seq<Document>, positions: seq<seq<nat>>, clusters: seq<seq<Id>>, spots: seq<nat>, cluster: seq<Id>)
    requires Named(docs, positions, clusters) && NamedOne(docs, spots, cluster)
    ensures Named(docs, positions + [spots], clusters + [cluster])
  {
    hide NamedOne;
  }

  method GenerateClusters(sqrt: real -> real, threshold: real, minSize: int, docs: seq<Document>)
    returns (clusters: seq<seq<Id>>)
    requires DistinctIds(docs)
    ensures Named(docs, Clusters(sqrt, threshold, minSize, docs).clusters, clusters)
  {
    clusters := [];
    assert Named(docs, [], clusters);
    hide Named, NamedOne, Followers;
    if |docs| < minSize {
      return;
    }
    var visited: set<Id> := {};
    ghost var p := Progress([], {});
    for i := 0 to |docs|
      invariant p == Run(sqrt, threshold, minSize, docs, i) && Named(docs, p.clusters, clusters)
      invariant Tracks(docs, visited, p.visited)
    {
      if docs[i].id !in visited {
        var current := CollectCluster(sqrt, threshold, docs, visited, p.visited, i);
        if |current| >= minSize {
          ghost var spots := [i] + Followers(sqrt, threshold, docs, p.visited, i, |docs|);
          NamedGrows(docs, p.clusters, clusters, spots, current);
          TracksGrows(docs, visited, p.visited, spots, current);
          clusters := clusters + [current];
          visited := visited + set d | d in current;
        }
      }
      p := Step(sqrt, threshold, minSize, docs, p, i);
    }
  }

  lemma NewlyVisited(docs: seq<Document>, spots: seq<nat>)
    requires DistinctIds(docs) && forall k :: k in spots ==> k < |docs|
    ensures forall k :: 0 <= k < |docs| ==> (docs[k].id in Ids(docs, spots) <==> k in spots)
  {
    forall k | 0 <= k < |docs| && k in spots ensures docs[k].id in Ids(docs, spots) {
      var a :| 0 <= a < |spots| && spots[a] == k;
      assert Ids(docs, spots)[a] == docs[k].id;
    }
    forall k | 0 <= k < |docs| && docs[k].id in Ids(docs, spots) ensures k in spots {
      var a :| 0 <= a < |spots| && Ids(docs, spots)[a] == docs[k].id;
      assert spots[a] in spots;
      assert spots[a] == k;
    }
  }

  /** The ids visited are those of the documents at the positions visited. */
  ghost predicate Tracks(docs: seq<Document>, visited: set<Id>, taken: set<nat>) {
    forall k :: 0 <= k < |docs| ==> (docs[k].id in visited <==> k in taken)
  }

  lemma TracksGrows(docs: seq<Document>, visited: set<Id>, taken: set<nat>, spots: seq<nat>, cluster: seq<Id>)
    requires DistinctIds(docs) && Tracks(docs, visited, taken) && NamedOne(docs, spots, cluster)
    ensures Tracks(docs, visited + (set d | d in cluster), taken + Positions(spots))
  {
    NewlyVisited(docs, spots);
  }

  method CollectCluster(
    sqrt: real -> real, threshold: real, docs: seq<Document>, visited: set<Id>, ghost taken: set<nat>, i: nat)
    returns (current: seq<Id>)
    requires i < |docs| && Tracks(docs, visited, taken)
    ensures NamedOne(docs, [i] + Followers(sqrt, threshold, docs, taken, i, |docs|), current)
  {
    current := [docs[i].id];
    for j := i + 1 to |docs|
      invariant NamedOne(docs, [i] + Followers(sqrt, threshold, docs, taken, i, j), current)
    {
      ghost var f := Followers(sqrt, threshold, docs, taken, i, j);
      assert f + [] == f && [i] + (f + [j]) == [i] + f + [j];
      if docs[j].id !in visited && Similar(sqrt, threshold, docs[i], docs[j]) {
        NamedOneGrows(docs, [i] + f, current, j);
        current := current + [docs[j].id];
      }
    }
  }
}
