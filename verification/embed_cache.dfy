/** Embedding texts in batches, and through a cache keyed by a digest of model and text. */
module EmbedCache {
  import opened Common

  datatype Result<+T> = Ok(value: T) | Err(error: Error)
  datatype Error = BatchSizeNotPositive | NoEmbeddings | NoValues | TooFewVectors

  type Vector = seq<real>
  type Digest = string

  // ---------------------------------------------------------------------------
  // Batches
  // ---------------------------------------------------------------------------

  /** What the provider answers to one request: vectors that may be absent, and a token count that may be. */
  datatype Response = Response(embeddings: Option<seq<Option<Vector>>>, usage: Option<nat>)

  type Provider = seq<string> -> Response

  datatype Embedding = Embedding(vectors: seq<Vector>, tokens: nat)

  function Values(items: seq<Option<Vector>>): (r: Option<seq<Vector>>)
    ensures r.Some? <==> forall i :: 0 <= i < |items| ==> items[i].Some?
    ensures r.Some? ==> |r.value| == |items| && forall i :: 0 <= i < |items| ==> items[i] == Some(r.value[i])
  {
    if items == [] then Some([])
    else
      var init, last := Values(items[..|items| - 1]), items[|items| - 1];
      if init.Some? && last.Some? then Some(init.value + [last.value]) else None
  }

  /** One response turned into vectors and tokens, or the error it raises. */
  function Read(r: Response): Result<Embedding> {
    if r.embeddings.None? then Err(NoEmbeddings)
    else
      match Values(r.embeddings.value)
      case None => Err(NoValues)
      case Some(vectors) => Ok(Embedding(vectors, if r.usage.Some? then r.usage.value else 0))
  }

  function Joined(a: Embedding, b: Embedding): Embedding {
    Embedding(a.vectors + b.vectors, a.tokens + b.tokens)
  }

  /** The batches in order: all their vectors and tokens, or the first error. */
  function Batched(ask: Provider, texts: seq<string>, size: nat): Result<Embedding>
    requires size > 0
    decreases |texts|
  {
    if texts == [] then Ok(Embedding([], 0))
    else
      var n := if size < |texts| then size else |texts|;
      match Read(ask(texts[..n]))
      case Err(e) => Err(e)
      case Ok(first) =>
        match Batched(ask, texts[n..], size)
        case Err(e) => Err(e)
        case Ok(rest) => Ok(Joined(first, rest))
  }

  /** The loop body of embed_texts: one request, its values one by one, and its usage. */
  method EmbedBatch(ask: Provider, batch: seq<string>) returns (r: Result<Embedding>)
    ensures r == Read(ask(batch))
  {
    var response := ask(batch);
    if response.embeddings.None? {
      return Err(NoEmbeddings);
    }
    var items := response.embeddings.value;
    var vectors: seq<Vector> := [];
    for i := 0 to |items|
      invariant Values(items[..i]) == Some(vectors)
    {
      if items[i].None? {
        return Err(NoValues);
      }
      assert items[..i + 1][..i] == items[..i];
      vectors := vectors + [items[i].value];
    }
    assert items[..|items|] == items;
    return Ok(Embedding(vectors, if response.usage.Some? then response.usage.value else 0));
  }

  /** embed_texts. */
  method EmbedTexts(ask: Provider, texts: seq<string>, batchSize: int) returns (r: Result<Embedding>)
    ensures r == if batchSize <= 0 then Err(BatchSizeNotPositive) else Batched(ask, texts, batchSize)
  {
    if batchSize <= 0 {
      return Err(BatchSizeNotPositive);
    }
    var embeddings: seq<Vector>, tokens: nat, start: nat := [], 0, 0;
    hide *;
    assert texts[0..] == texts;
    PrefixedByNothing(Batched(ask, texts, batchSize));
    while start < |texts|
      invariant 0 <= start <= |texts|
      invariant Batched(ask, texts, batchSize) == Prefixed(Embedding(embeddings, tokens), Batched(ask, texts[start..], batchSize))
    {
      var stop := if start + batchSize < |texts| then start + batchSize else |texts|;
      BatchStep(ask, texts, start, stop, batchSize, Embedding(embeddings, tokens));
      var batch := EmbedBatch(ask, texts[start..stop]);
      if batch.Err? {
        return Err(batch.error);
      }
      embeddings := embeddings + batch.value.vectors;
      tokens := tokens + batch.value.tokens;
      start := stop;
    }
    assert texts[start..] == [];
    NoMoreBatches(ask, batchSize, Embedding(embeddings, tokens));
    return Ok(Embedding(embeddings, tokens));
  }

  /** What one turn of the loop adds to what it has, or the error it stops with. */
  lemma BatchStep(ask: Provider, texts: seq<string>, start: nat, stop: nat, size: nat, got: Embedding)
    requires size > 0 && start < |texts| && stop == if start + size < |texts| then start + size else |texts|
    ensures var first, left := Read(ask(texts[start..stop])), Prefixed(got, Batched(ask, texts[start..], size));
            left == if first.Err? then Err(first.error)
                    else Prefixed(Joined(got, first.value), Batched(ask, texts[stop..], size))
  {
    var left := texts[start..];
    assert left[..stop - start] == texts[start..stop] && left[stop - start..] == texts[stop..];
    var first := Read(ask(texts[start..stop]));
    if first.Ok? {
      PrefixedTwice(got, first.value, Batched(ask, texts[stop..], size));
    }
  }

  lemma NoMoreBatches(ask: Provider, size: nat, got: Embedding)
    requires size > 0
    ensures Prefixed(got, Batched(ask, [], size)) == Ok(got)
  {
    assert got.vectors + [] == got.vectors;
  }

  function Prefixed(a: Embedding, r: Result<Embedding>): Result<Embedding> {
    match r
    case Ok(b) => Ok(Joined(a, b))
    case Err(e) => Err(e)
  }

  lemma PrefixedByNothing(r: Result<Embedding>)
    ensures Prefixed(Embedding([], 0), r) == r
  {
    if r.Ok? {
      assert [] + r.value.vectors == r.value.vectors;
    }
  }

  lemma PrefixedTwice(a: Embedding, b: Embedding, r: Result<Embedding>)
    ensures Prefixed(a, Prefixed(b, r)) == Prefixed(Joined(a, b), r)
  {
    if r.Ok? {
      assert a.vectors + (b.vectors + r.value.vectors) == a.vectors + b.vectors + r.value.vectors;
    }
  }

  /** Every text alone, in order. */
  function Vectors(embed: string -> Vector, texts: seq<string>): (r: seq<Vector>)
    ensures |r| == |texts| && forall i :: 0 <= i < |texts| ==> r[i] == embed(texts[i])
  {
    seq(|texts|, i requires 0 <= i < |texts| => embed(texts[i]))
  }

  function Cost(cost: string -> nat, texts: seq<string>): nat {
    if texts == [] then 0 else cost(texts[0]) + Cost(cost, texts[1..])
  }

  lemma {:induction false} CostOfSum(cost: string -> nat, a: seq<string>, b: seq<string>)
    ensures Cost(cost, a + b) == Cost(cost, a) + Cost(cost, b)
  {
    if a == [] {
      assert a + b == b;
    } else {
      assert (a + b)[1..] == a[1..] + b;
      CostOfSum(cost, a[1..], b);
    }
  }

  /** A provider that embeds each text on its own and counts the tokens of all of them. */
  ghost predicate Faithful(ask: Provider, embed: string -> Vector, cost: string -> nat) {
    forall texts: seq<string> :: Read(ask(texts)) == Ok(Embedding(Vectors(embed, texts), Cost(cost, texts)))
  }

  /** Whatever the batch size, the batches give what one request for all texts gives. */
  lemma {:induction false} BatchesAreOneCall(
    ask: Provider, embed: string -> Vector, cost: string -> nat, texts: seq<string>, size: nat)
    requires Faithful(ask, embed, cost) && size > 0
    ensures Batched(ask, texts, size) == Ok(Embedding(Vectors(embed, texts), Cost(cost, texts))) == Read(ask(texts))
    decreases |texts|
  {
    hide Read, Faithful;
    if texts != [] {
      var n := if size < |texts| then size else |texts|;
      BatchesAreOneCall(ask, embed, cost, texts[n..], size);
      assert texts[..n] + texts[n..] == texts;
      CostOfSum(cost, texts[..n], texts[n..]);
      VectorsOfSum(embed, texts[..n], texts[n..]);
      FaithfulAt(ask, embed, cost, texts[..n]);
      FaithfulAt(ask, embed, cost, texts);
    } else {
      FaithfulAt(ask, embed, cost, texts);
      assert Vectors(embed, texts) == [];
    }
  }

  lemma FaithfulAt(ask: Provider, embed: string -> Vector, cost: string -> nat, texts: seq<string>)
    requires Faithful(ask, embed, cost)
    ensures Read(ask(texts)) == Ok(Embedding(Vectors(embed, texts), Cost(cost, texts)))
  {
  }

  lemma VectorsOfSum(embed: string -> Vector, a: seq<string>, b: seq<string>)
    ensures Vectors(embed, a + b) == Vectors(embed, a) + Vectors(embed, b)
  {
  }

  // ---------------------------------------------------------------------------
  // The cache
  // ---------------------------------------------------------------------------

  type Cache = map<Digest, Vector>

  function Key(model: string, text: string): string {
    model + ":" + text
  }

  function Hashes(hash: string -> Digest, model: string, texts: seq<string>): (r: seq<Digest>)
    ensures |r| == |texts| && forall i :: 0 <= i < |texts| ==> r[i] == hash(Key(model, texts[i]))
  {
    seq(|texts|, i requires 0 <= i < |texts| => hash(Key(model, texts[i])))
  }

  /** The positions whose digest the cache does not hold, in order; a repeated text is missing at each of its positions. */
  function Missing(hashes: seq<Digest>, cache: Cache): (r: seq<nat>)
    ensures forall k: nat :: k in r <==> (k < |hashes| && hashes[k] !in cache)
  {
    if hashes == [] then []
    else Missing(hashes[..|hashes| - 1], cache) + if hashes[|hashes| - 1] !in cache then [|hashes| - 1] else []
  }

  function At<T>(s: seq<T>, at: seq<nat>): (r: seq<T>)
    requires forall k :: k in at ==> k < |s|
    ensures |r| == |at| && forall i :: 0 <= i < |at| ==> (at[i] in at && r[i] == s[at[i]])
  {
    seq<T>(|at|, i requires 0 <= i < |at| => assert at[i] in at; s[at[i]])
  }

  /** INSERT ... ON CONFLICT DO NOTHING, row by row. */
  function Inserted(cache: Cache, keys: seq<Digest>, vectors: seq<Vector>): (r: Cache)
    requires |keys| <= |vectors|
    ensures r.Keys == cache.Keys + (set k | k in keys)
    ensures forall k :: k in cache ==> r[k] == cache[k]
  {
    if keys == [] then cache
    else
      var n := |keys| - 1;
      var before := Inserted(cache, keys[..n], vectors);
      if keys[n] in before then before else before[keys[n] := vectors[n]]
  }

  /** A new row holds the vector of one of its positions. */
  lemma {:induction false} InsertedFrom(cache: Cache, keys: seq<Digest>, vectors: seq<Vector>, k: Digest)
    requires |keys| <= |vectors| && k in Inserted(cache, keys, vectors) && k !in cache
    ensures exists i :: 0 <= i < |keys| && keys[i] == k && Inserted(cache, keys, vectors)[k] == vectors[i]
  {
    var n := |keys| - 1;
    if k in Inserted(cache, keys[..n], vectors) {
      InsertedFrom(cache, keys[..n], vectors, k);
      var i :| 0 <= i < n && keys[..n][i] == k && Inserted(cache, keys[..n], vectors)[k] == vectors[i];
      assert keys[i] == k;
    }
  }

  /** Assignments to a dictionary, one after the other. */
  function Overwritten(m: Cache, keys: seq<Digest>, vectors: seq<Vector>): (r: Cache)
    requires |keys| <= |vectors|
    ensures r.Keys == m.Keys + (set k | k in keys)
  {
    if keys == [] then m
    else
      var n := |keys| - 1;
      Overwritten(m, keys[..n], vectors)[keys[n] := vectors[n]]
  }

  function Gathered(hashes: seq<Digest>, vectors: Cache): (r: seq<Vector>)
    requires forall h :: h in hashes ==> h in vectors
    ensures |r| == |hashes| && forall i :: 0 <= i < |hashes| ==> (hashes[i] in hashes && r[i] == vectors[hashes[i]])
  {
    seq<Vector>(|hashes|, i requires 0 <= i < |hashes| => assert hashes[i] in hashes; vectors[hashes[i]])
  }

  function Hits(hashes: seq<Digest>, cache: Cache): Cache {
    map digest | digest in cache && digest in hashes :: cache[digest]
  }

  const BATCH := 100

  /** What is served once the missing texts have been fetched, and the cache with them. */
  function Completed(hashes: seq<Digest>, cache: Cache, fetched: Embedding): (Result<Embedding>, Cache) {
    var missing := Missing(hashes, cache);
    if |fetched.vectors| < |missing| then (Err(TooFewVectors), cache)
    else
      var keys := At(hashes, missing);
      EveryHashIsServed(hashes, cache);
      (Ok(Embedding(Gathered(hashes, Overwritten(Hits(hashes, cache), keys, fetched.vectors)), fetched.tokens)),
       Inserted(cache, keys, fetched.vectors))
  }

  lemma EveryHashIsServed(hashes: seq<Digest>, cache: Cache)
    ensures forall h :: h in hashes ==> h in Hits(hashes, cache) || h in At(hashes, Missing(hashes, cache))
  {
    var missing := Missing(hashes, cache);
    forall h | h in hashes && h !in cache ensures h in At(hashes, missing) {
      var k :| 0 <= k < |hashes| && hashes[k] == h;
      assert k in missing;
      var i :| 0 <= i < |missing| && missing[i] == k;
      assert At(hashes, missing)[i] == h;
    }
  }

  /** embed_texts_cached: the answer, and the cache after it. */
  function CachedRun(ask: Provider, hash: string -> Digest, cache: Cache, texts: seq<string>, model: string)
    : (Result<Embedding>, Cache)
  {
    var hashes := Hashes(hash, model, texts);
    var missing := Missing(hashes, cache);
    if missing == [] then Completed(hashes, cache, Embedding([], 0))
    else
      match Batched(ask, At(texts, missing), BATCH)
      case Err(e) => (Err(e), cache)
      case Ok(fetched) => Completed(hashes, cache, fetched)
  }

  class EmbeddingCache {
    var rows: Cache

    constructor ()
      ensures rows == map[]
    {
      rows := map[];
    }

    method EmbedTextsCached(ask: Provider, hash: string -> Digest, texts: seq<string>, model: string)
      returns (result: Result<Embedding>)
      modifies this
      ensures (result, rows) == CachedRun(ask, hash, old(rows), texts, model)
    {
      var hashes := Hashes(hash, model, texts);
      var vectors := Hits(hashes, rows);
      var missing: seq<nat> := CollectMissing(hashes, vectors, rows);
      EveryHashIsServed(hashes, rows);
      var tokens := 0;
      if missing != [] {
        var fetched := EmbedTexts(ask, At(texts, missing), BATCH);
        if fetched.Err? {
          return Err(fetched.error);
        }
        tokens := fetched.value.tokens;
        if |fetched.value.vectors| < |missing| {
          return Err(TooFewVectors);
        }
        rows := Inserted(rows, At(hashes, missing), fetched.value.vectors);
        vectors := FillMissing(hashes, missing, vectors, fetched.value.vectors);
      }
      result := Ok(Embedding(Gathered(hashes, vectors), tokens));
    }
  }

  method CollectMissing(hashes: seq<Digest>, vectors: Cache, ghost cache: Cache) returns (missing: seq<nat>)
    requires vectors == Hits(hashes, cache)
    ensures missing == Missing(hashes, cache)
  {
    missing := [];
    for i := 0 to |hashes|
      invariant missing == Missing(hashes[..i], cache)
    {
      assert hashes[..i + 1][..i] == hashes[..i];
      if hashes[i] !in vectors {
        missing := missing + [i];
      }
    }
    assert hashes[..|hashes|] == hashes;
  }

  lemma OverwrittenByNothing(m: Cache, vectors: seq<Vector>)
    ensures Overwritten(m, [], vectors) == m
  {
  }

  lemma OverwrittenStep(m: Cache, keys: seq<Digest>, vectors: seq<Vector>, i: nat)
    requires i < |keys| <= |vectors|
    ensures Overwritten(m, keys[..i + 1], vectors) == Overwritten(m, keys[..i], vectors)[keys[i] := vectors[i]]
  {
    assert keys[..i + 1][..i] == keys[..i];
  }

  method FillMissing(hashes: seq<Digest>, missing: seq<nat>, known: Cache, fetched: seq<Vector>)
    returns (vectors: Cache)
    requires (forall k :: k in missing ==> k < |hashes|) && |missing| <= |fetched|
    ensures vectors == Overwritten(known, At(hashes, missing), fetched)
  {
    hide Overwritten;
    vectors := known;
    ghost var keys := At(hashes, missing);
    OverwrittenByNothing(known, fetched);
    assert keys[..0] == [];
    for hit := 0 to |missing|
      invariant vectors == Overwritten(known, keys[..hit], fetched)
    {
      OverwrittenStep(known, keys, fetched, hit);
      assert missing[hit] in missing;
      vectors := vectors[hashes[missing[hit]] := fetched[hit]];
    }
    assert keys[..|missing|] == keys;
  }

  // ---------------------------------------------------------------------------
  // Cached and direct embedding agree
  // ---------------------------------------------------------------------------

  predicate ModelName(s: string) {
    forall i :: 0 <= i < |s| ==> s[i] != ':'
  }

  /** Distinct model and text pairs have distinct keys. */
  lemma KeysDiffer(m: string, t: string, n: string, u: string)
    requires ModelName(m) && ModelName(n) && Key(m, t) == Key(n, u)
    ensures m == n && t == u
  {
    var k := Key(m, t);
    assert k[|m|] == ':' && k[|n|] == ':';
    assert forall i :: 0 <= i < |m| ==> k[i] == m[i] != ':';
    assert forall i :: 0 <= i < |n| ==> k[i] == n[i] != ':';
    assert |m| == |n|;
    assert m == k[..|m|] && n == k[..|n|];
    assert t == k[|m| + 1..] && u == k[|n| + 1..];
  }

  ghost predicate Injective(hash: string -> Digest) {
    forall a, b :: hash(a) == hash(b) ==> a == b
  }

  /** A vector per model and text. */
  type Embedder = (string, string) -> Vector

  /** Every row a model name and a text have is that model's vector of that text. */
  ghost predicate Correct(cache: Cache, hash: string -> Digest, embed: Embedder) {
    forall m, t :: ModelName(m) && hash(Key(m, t)) in cache ==> cache[hash(Key(m, t))] == embed(m, t)
  }

  /** vectors holds the model's vector of every text whose digest is a key. */
  ghost predicate Right(vectors: Cache, hash: string -> Digest, embed: Embedder, model: string, texts: seq<string>) {
    forall i :: 0 <= i < |texts| && hash(Key(model, texts[i])) in vectors ==>
                  vectors[hash(Key(model, texts[i]))] == embed(model, texts[i])
  }

  /** The digest of each key, with the vector of its text. */
  ghost predicate Pairs(
    keys: seq<Digest>, vectors: seq<Vector>, hash: string -> Digest, embed: Embedder, model: string, texts: seq<string>)
  {
    && |keys| == |texts| <= |vectors|
    && forall i :: 0 <= i < |keys| ==> keys[i] == hash(Key(model, texts[i])) && vectors[i] == embed(model, texts[i])
  }

  lemma {:induction false} InsertedIsCorrect(
    cache: Cache, keys: seq<Digest>, vectors: seq<Vector>,
    hash: string -> Digest, embed: Embedder, model: string, texts: seq<string>)
    requires Injective(hash) && ModelName(model) && Correct(cache, hash, embed)
    requires Pairs(keys, vectors, hash, embed, model, texts)
    ensures Correct(Inserted(cache, keys, vectors), hash, embed)
  {
    var after := Inserted(cache, keys, vectors);
    forall m, t | ModelName(m) && hash(Key(m, t)) in after ensures after[hash(Key(m, t))] == embed(m, t) {
      var h := hash(Key(m, t));
      if h !in cache {
        InsertedFrom(cache, keys, vectors, h);
        var i :| 0 <= i < |keys| && keys[i] == h && after[h] == vectors[i];
        KeysDiffer(m, t, model, texts[i]);
      }
    }
  }

  lemma {:induction false} OverwrittenIsRight(
    known: Cache, keys: seq<Digest>, vectors: seq<Vector>,
    hash: string -> Digest, embed: Embedder, model: string, texts: seq<string>, all: seq<string>)
    requires Injective(hash) && ModelName(model) && Right(known, hash, embed, model, all)
    requires Pairs(keys, vectors, hash, embed, model, texts)
    ensures Right(Overwritten(known, keys, vectors), hash, embed, model, all)
  {
    if keys != [] {
      var n := |keys| - 1;
      OverwrittenIsRight(known, keys[..n], vectors, hash, embed, model, texts[..n], all);
      forall i | 0 <= i < |all| && hash(Key(model, all[i])) == keys[n] ensures all[i] == texts[n] {
        KeysDiffer(model, all[i], model, texts[n]);
      }
    }
  }

  /** The provider of a model embeds as the embedder does. */
  function Of(embed: Embedder, model: string): string -> Vector {
    text => embed(model, text)
  }

  /** Once the missing texts are fetched: every position has its own text's vector, and the cache stays correct. */
  lemma CompletedIsDirect(
    hash: string -> Digest, embed: Embedder, cache: Cache, texts: seq<string>, model: string, tokens: nat)
    requires Injective(hash) && ModelName(model) && Correct(cache, hash, embed)
    ensures var hashes := Hashes(hash, model, texts);
            var missing := Missing(hashes, cache);
            var (result, after) := Completed(hashes, cache, Embedding(Vectors(Of(embed, model), At(texts, missing)), tokens));
            && result == Ok(Embedding(Vectors(Of(embed, model), texts), tokens)) && Correct(after, hash, embed)
            && after.Keys == cache.Keys + (set h | h in hashes)
  {
    var hashes := Hashes(hash, model, texts);
    var missing := Missing(hashes, cache);
    var keys, absent := At(hashes, missing), At(texts, missing);
    var vectors := Vectors(Of(embed, model), absent);
    assert Pairs(keys, vectors, hash, embed, model, absent);
    EveryHashIsServed(hashes, cache);
    InsertedIsCorrect(cache, keys, vectors, hash, embed, model, absent);
    assert Right(Hits(hashes, cache), hash, embed, model, texts);
    OverwrittenIsRight(Hits(hashes, cache), keys, vectors, hash, embed, model, absent, texts);
    GatheredIsDirect(Overwritten(Hits(hashes, cache), keys, vectors), hash, embed, model, texts);
    MissingCompletes(hashes, cache);
    hide Correct, Right, Pairs, Missing, Inserted, Overwritten;
  }

  lemma MissingCompletes(hashes: seq<Digest>, cache: Cache)
    ensures cache.Keys + (set k | k in At(hashes, Missing(hashes, cache))) == cache.Keys + (set h | h in hashes)
  {
    EveryHashIsServed(hashes, cache);
    assert forall k :: k in At(hashes, Missing(hashes, cache)) ==> k in hashes;
  }

  lemma GatheredIsDirect(vectors: Cache, hash: string -> Digest, embed: Embedder, model: string, texts: seq<string>)
    requires Right(vectors, hash, embed, model, texts)
    requires forall h :: h in Hashes(hash, model, texts) ==> h in vectors
    ensures Gathered(Hashes(hash, model, texts), vectors) == Vectors(Of(embed, model), texts)
  {
    var hashes := Hashes(hash, model, texts);
    forall i | 0 <= i < |texts| ensures Gathered(hashes, vectors)[i] == embed(model, texts[i]) {
      assert hashes[i] in hashes;
    }
  }

  /** Through any correct cache: the vectors of embedding every text directly, tokens for the misses alone, and a correct cache. */
  lemma CachedIsDirect(
    ask: Provider, hash: string -> Digest, embed: Embedder, cost: string -> nat,
    cache: Cache, texts: seq<string>, model: string)
    requires Injective(hash) && ModelName(model) && Correct(cache, hash, embed)
    requires Faithful(ask, Of(embed, model), cost)
    ensures var missing := Missing(Hashes(hash, model, texts), cache);
            var (result, after) := CachedRun(ask, hash, cache, texts, model);
            && result == Ok(Embedding(Vectors(Of(embed, model), texts), Cost(cost, At(texts, missing))))
            && Correct(after, hash, embed)
            && after.Keys == cache.Keys + (set h | h in Hashes(hash, model, texts))
  {
    var missing := Missing(Hashes(hash, model, texts), cache);
    var absent := At(texts, missing);
    BatchesAreOneCall(ask, Of(embed, model), cost, absent, BATCH);
    CompletedIsDirect(hash, embed, cache, texts, model, Cost(cost, absent));
    if missing == [] {
      assert absent == [] && Vectors(Of(embed, model), absent) == [];
    }
  }

  // ---------------------------------------------------------------------------
  // What a call is charged for
  // ---------------------------------------------------------------------------

  /** The texts the cache does not hold, once for every position. */
  function Uncached(hash: string -> Digest, cache: Cache, model: string, texts: seq<string>): seq<string> {
    if texts == [] then []
    else
      var n := |texts| - 1;
      Uncached(hash, cache, model, texts[..n]) + if hash(Key(model, texts[n])) !in cache then [texts[n]] else []
  }

  /** Each element once, where it first stands. */
  function Firsts<T(==)>(s: seq<T>): seq<T> {
    if s == [] then []
    else
      var n := |s| - 1;
      Firsts(s[..n]) + if s[n] in s[..n] then [] else [s[n]]
  }

  lemma {:induction false} FirstsAreDistinct<T>(s: seq<T>)
    ensures forall x :: x in Firsts(s) <==> x in s
    ensures forall i, j :: 0 <= i < j < |Firsts(s)| ==> Firsts(s)[i] != Firsts(s)[j]
  {
    if s != [] {
      FirstsAreDistinct(s[..|s| - 1]);
      assert s == s[..|s| - 1] + [s[|s| - 1]];
    }
  }

  /** A text that is missing again at a later position of the call costs nothing. */
  predicate RepeatsAreFree(cost: string -> nat, s: seq<string>) {
    forall j :: 0 <= j < |s| && s[j] in s[..j] ==> cost(s[j]) == 0
  }

  lemma RepeatsStep(cost: string -> nat, init: seq<string>, x: string)
    ensures RepeatsAreFree(cost, init + [x]) <==> RepeatsAreFree(cost, init) && (x in init ==> cost(x) == 0)
  {
    var s := init + [x];
    assert s[..|init|] == init && s[|init|] == x;
    assert forall j :: 0 <= j < |init| ==> init[..j] == s[..j] && s[j] == init[j];
  }

  lemma CostOfOne(cost: string -> nat, x: string)
    ensures Cost(cost, [x]) == cost(x) && Cost(cost, []) == 0
  {
    assert [x][1..] == [];
  }

  lemma {:induction false} FirstsCostIff(cost: string -> nat, s: seq<string>)
    ensures Cost(cost, Firsts(s)) <= Cost(cost, s)
    ensures Cost(cost, Firsts(s)) == Cost(cost, s) <==> RepeatsAreFree(cost, s)
  {
    if s != [] {
      var n := |s| - 1;
      var init, x := s[..n], s[n];
      var more := if x in init then [] else [x];
      assert s == init + [x] && Firsts(s) == Firsts(init) + more;
      hide Cost, Firsts, RepeatsAreFree;
      FirstsCostIff(cost, init);
      CostOfSum(cost, Firsts(init), more);
      CostOfSum(cost, init, [x]);
      CostOfOne(cost, x);
      RepeatsStep(cost, init, x);
    }
  }

  lemma AtPrefix<T>(s: seq<T>, n: nat, at: seq<nat>)
    requires n <= |s| && forall k :: k in at ==> k < n
    ensures At(s, at) == At(s[..n], at)
  {
  }

  lemma AtMore<T>(s: seq<T>, at: seq<nat>, n: nat)
    requires n < |s| && forall k :: k in at ==> k < |s|
    ensures (forall k :: k in at + [n] ==> k < |s|) && At(s, at + [n]) == At(s, at) + [s[n]]
  {
  }

  lemma {:induction false} UncachedAreFetched(hash: string -> Digest, cache: Cache, model: string, texts: seq<string>)
    ensures At(texts, Missing(Hashes(hash, model, texts), cache)) == Uncached(hash, cache, model, texts)
  {
    if texts != [] {
      var n := |texts| - 1;
      var hashes := Hashes(hash, model, texts);
      UncachedAreFetched(hash, cache, model, texts[..n]);
      assert hashes[..n] == Hashes(hash, model, texts[..n]) && hashes[n] == hash(Key(model, texts[n]));
      hide Hashes;
      AtPrefix(texts, n, Missing(hashes[..n], cache));
      if hashes[n] !in cache {
        AtMore(texts, Missing(hashes[..n], cache), n);
      }
    }
  }

  /**
   * The charge of one call, exactly: every position of an uncached text. So each of them is paid for once exactly
   * when none that costs anything is repeated in the call.
   */
  lemma PaidOnceIff(
    ask: Provider, hash: string -> Digest, embed: Embedder, cost: string -> nat,
    cache: Cache, texts: seq<string>, model: string)
    requires Injective(hash) && ModelName(model) && Correct(cache, hash, embed)
    requires Faithful(ask, Of(embed, model), cost)
    ensures var paid, result := Uncached(hash, cache, model, texts), CachedRun(ask, hash, cache, texts, model).0;
            && result.Ok? && result.value.tokens == Cost(cost, paid) >= Cost(cost, Firsts(paid))
            && (result.value.tokens == Cost(cost, Firsts(paid)) <==> RepeatsAreFree(cost, paid))
  {
    CachedIsDirect(ask, hash, embed, cost, cache, texts, model);
    UncachedAreFetched(hash, cache, model, texts);
    FirstsCostIff(cost, Uncached(hash, cache, model, texts));
  }

  /** Embedding the same texts again spends nothing and serves the same vectors. */
  lemma SecondRunIsFree(
    ask: Provider, again: Provider, hash: string -> Digest, embed: Embedder, cost: string -> nat,
    cache: Cache, texts: seq<string>, model: string)
    requires Injective(hash) && ModelName(model) && Correct(cache, hash, embed)
    requires Faithful(ask, Of(embed, model), cost)
    ensures var (result, after) := CachedRun(ask, hash, cache, texts, model);
            && result.Ok?
            && CachedRun(again, hash, after, texts, model) == (Ok(Embedding(result.value.vectors, 0)), after)
  {
    CachedIsDirect(ask, hash, embed, cost, cache, texts, model);
    var after := CachedRun(ask, hash, cache, texts, model).1;
    var hashes := Hashes(hash, model, texts);
    NothingMissing(hashes, after);
    CompletedIsDirect(hash, embed, after, texts, model, 0);
    assert At(texts, Missing(hashes, after)) == [];
    assert Vectors(Of(embed, model), []) == [];
  }

  lemma {:induction false} NothingMissing(hashes: seq<Digest>, cache: Cache)
    requires forall h :: h in hashes ==> h in cache
    ensures Missing(hashes, cache) == []
  {
    if hashes != [] {
      NothingMissing(hashes[..|hashes| - 1], cache);
    }
  }
}
