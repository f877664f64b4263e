/** Uploads: duplicate detection by content and the version chain of each filename. */
module DocumentVersions {
  import opened Common

  type Tenant = nat
  type DocumentId = nat

  /** A document's id is its position in the table. */
  datatype Document = Document(
    tenant: Tenant, filename: string, hash: string, version: nat, supersededBy: Option<DocumentId>)

  datatype Action = Duplicate | NewVersion | New

  datatype Decision = Decision(action: Action, version: nat)

  datatype Upload = Upload(tenant: Tenant, filename: string, hash: string)

  /** The answer to an upload. */
  datatype Answer = Answer(id: DocumentId, duplicate: bool)

  // ---------------------------------------------------------------------------
  // Lookups and the decision
  // ---------------------------------------------------------------------------

  /** Of the chosen documents, one of the highest version. */
  function Highest(docs: seq<Document>, chosen: Document -> bool): (r: Option<DocumentId>)
    ensures r.Some? ==> r.value < |docs| && chosen(docs[r.value])
    ensures forall i :: 0 <= i < |docs| && chosen(docs[i]) ==> (r.Some? && docs[i].version <= docs[r.value].version)
  {
    if docs == [] then None
    else
      var n := |docs| - 1;
      var before := Highest(docs[..n], chosen);
      if chosen(docs[n]) && (before.None? || docs[before.value].version <= docs[n].version) then Some(n) else before
  }

  function FindByHash(docs: seq<Document>, hash: string, tenant: Tenant): Option<DocumentId> {
    Highest(docs, (d: Document) => d.hash == hash && d.tenant == tenant)
  }

  function FindLatestByFilename(docs: seq<Document>, filename: string, tenant: Tenant): Option<DocumentId> {
    Highest(docs, (d: Document) => d.filename == filename && d.tenant == tenant)
  }

  /** decide_dedup, given the version of the document found by each lookup. */
  function Decide(existing: Option<nat>, previous: Option<nat>): Decision {
    if existing.Some? then Decision(Duplicate, existing.value)
    else if previous.Some? then Decision(NewVersion, previous.value + 1)
    else Decision(New, 1)
  }

  function VersionOf(docs: seq<Document>, id: Option<DocumentId>): Option<nat>
    requires id.Some? ==> id.value < |docs|
  {
    if id.Some? then Some(docs[id.value].version) else None
  }

  /** The upload path: the answer, and the table after it. */
  function Uploaded(docs: seq<Document>, u: Upload): (Answer, seq<Document>) {
    var existing := FindByHash(docs, u.hash, u.tenant);
    var previous := FindLatestByFilename(docs, u.filename, u.tenant);
    if existing.Some? then (Answer(existing.value, true), docs)
    else
      var version := if previous.Some? then docs[previous.value].version + 1 else 1;
      var linked := if previous.Some? then docs[previous.value := docs[previous.value].(supersededBy := Some(|docs|))] else docs;
      (Answer(|docs|, false), linked + [Document(u.tenant, u.filename, u.hash, version, None)])
  }

  class DocumentTable {
    var docs: seq<Document>

    constructor ()
      ensures docs == []
    {
      docs := [];
    }

    method Insert(tenant: Tenant, filename: string, hash: string, version: nat) returns (id: DocumentId)
      modifies this
      ensures id == |old(docs)| && docs == old(docs) + [Document(tenant, filename, hash, version, None)]
    {
      id := |docs|;
      docs := docs + [Document(tenant, filename, hash, version, None)];
    }

    method MarkSuperseded(oldId: DocumentId, newId: DocumentId)
      modifies this
      ensures docs == if oldId < |old(docs)| then old(docs)[oldId := old(docs)[oldId].(supersededBy := Some(newId))]
                      else old(docs)
    {
      if oldId < |docs| {
        docs := docs[oldId := docs[oldId].(supersededBy := Some(newId))];
      }
    }

    /** The dedup and version part of an upload. */
    method IngestUpload(u: Upload) returns (answer: Answer)
      modifies this
      ensures (answer, docs) == Uploaded(old(docs), u)
    {
      var existing := FindByHash(docs, u.hash, u.tenant);
      var previous := FindLatestByFilename(docs, u.filename, u.tenant);
      var decision := Decide(VersionOf(docs, existing), VersionOf(docs, previous));
      if decision.action.Duplicate? && existing.Some? {
        return Answer(existing.value, true);
      }
      var id := Insert(u.tenant, u.filename, u.hash, decision.version);
      if previous.Some? {
        MarkSuperseded(previous.value, id);
        assert docs == Uploaded(old(docs), u).1;
      }
      return Answer(id, false);
    }
  }

  // ---------------------------------------------------------------------------
  // The version chain
  // ---------------------------------------------------------------------------

  /** The documents of one tenant and filename, oldest first. */
  function Chain(docs: seq<Document>, tenant: Tenant, filename: string): (r: seq<DocumentId>)
    ensures forall i :: 0 <= i < |r| ==> (r[i] < |docs| && docs[r[i]].tenant == tenant && docs[r[i]].filename == filename)
  {
    if docs == [] then []
    else
      var n := |docs| - 1;
      Chain(docs[..n], tenant, filename)
      + if docs[n].tenant == tenant && docs[n].filename == filename then [n] else []
  }

  lemma {:induction false} ChainMembers(docs: seq<Document>, tenant: Tenant, filename: string)
    ensures forall i: nat :: i in Chain(docs, tenant, filename) <==>
              (i < |docs| && docs[i].tenant == tenant && docs[i].filename == filename)
    ensures forall i, j :: 0 <= i < j < |Chain(docs, tenant, filename)| ==>
              Chain(docs, tenant, filename)[i] < Chain(docs, tenant, filename)[j]
  {
    if docs != [] {
      ChainMembers(docs[..|docs| - 1], tenant, filename);
    }
  }

  /** The k-th document of a chain has version k, and is superseded by the next one, the last by none. */
  ghost predicate Versioned(docs: seq<Document>, chain: seq<DocumentId>) {
    forall k :: 0 <= k < |chain| ==>
      && chain[k] < |docs| && docs[chain[k]].version == k + 1
      && docs[chain[k]].supersededBy == if k + 1 < |chain| then Some(chain[k + 1]) else None
  }

  ghost predicate ContentIsUnique(docs: seq<Document>) {
    forall i, j :: 0 <= i < j < |docs| && docs[i].tenant == docs[j].tenant ==> docs[i].hash != docs[j].hash
  }

  ghost predicate Inv(docs: seq<Document>) {
    && ContentIsUnique(docs)
    && forall tenant, filename :: Versioned(docs, Chain(docs, tenant, filename))
  }

  /** Links do not matter to a chain. */
  lemma {:induction false} ChainIgnoresLinks(docs: seq<Document>, linked: seq<Document>, tenant: Tenant, filename: string)
    requires |docs| == |linked|
    requires forall i :: 0 <= i < |docs| ==> (docs[i].tenant == linked[i].tenant && docs[i].filename == linked[i].filename)
    ensures Chain(linked, tenant, filename) == Chain(docs, tenant, filename)
  {
    if docs != [] {
      ChainIgnoresLinks(docs[..|docs| - 1], linked[..|docs| - 1], tenant, filename);
    }
  }

  /** The lookup by filename finds the end of the chain. */
  lemma LatestIsLast(docs: seq<Document>, tenant: Tenant, filename: string)
    requires Versioned(docs, Chain(docs, tenant, filename))
    ensures var chain := Chain(docs, tenant, filename);
            FindLatestByFilename(docs, filename, tenant) == if chain == [] then None else Some(chain[|chain| - 1])
  {
    var chain, found := Chain(docs, tenant, filename), FindLatestByFilename(docs, filename, tenant);
    ChainMembers(docs, tenant, filename);
    if chain != [] {
      assert chain[0] in chain;
    }
    if found.Some? {
      assert found.value in chain;
      var k :| 0 <= k < |chain| && chain[k] == found.value;
      var last := chain[|chain| - 1];
      assert last in chain;
      assert docs[last].version <= docs[found.value].version;
    }
  }

  /** A chain that gets a next version. */
  lemma VersionedGrows(docs: seq<Document>, after: seq<Document>, chain: seq<DocumentId>, version: nat)
    requires Versioned(docs, chain) && |after| == |docs| + 1 && version == |chain| + 1
    requires forall i, j :: 0 <= i < j < |chain| ==> chain[i] < chain[j]
    requires after[|docs|].version == version && after[|docs|].supersededBy == None
    requires forall i :: 0 <= i < |docs| ==>
               after[i] == if chain != [] && i == chain[|chain| - 1] then docs[i].(supersededBy := Some(|docs|)) else docs[i]
    ensures Versioned(after, chain + [|docs|])
  {
    var grown := chain + [|docs|];
    forall k | 0 <= k < |grown|
      ensures grown[k] < |after| && after[grown[k]].version == k + 1
      ensures after[grown[k]].supersededBy == if k + 1 < |grown| then Some(grown[k + 1]) else None
    {
      if k < |chain| {
        assert grown[k] == chain[k] && (k + 1 < |chain| ==> chain[k] < chain[|chain| - 1]);
      }
    }
  }

  /** A chain that does not hold the document linked. */
  lemma VersionedStays(docs: seq<Document>, after: seq<Document>, chain: seq<DocumentId>)
    requires Versioned(docs, chain) && |after| >= |docs|
    requires forall i :: i in chain ==> i < |docs| && after[i] == docs[i]
    ensures Versioned(after, chain)
  {
    forall k | 0 <= k < |chain|
      ensures chain[k] < |after| && after[chain[k]].version == k + 1
      ensures after[chain[k]].supersededBy == if k + 1 < |chain| then Some(chain[k + 1]) else None
    {
      assert chain[k] in chain;
    }
  }

  /** Every upload keeps content unique within a tenant and every version chain intact. */
  lemma UploadKeepsInv(docs: seq<Document>, u: Upload)
    requires Inv(docs)
    ensures Inv(Uploaded(docs, u).1)
  {
    var after := Uploaded(docs, u).1;
    if FindByHash(docs, u.hash, u.tenant).None? {
      assert ContentIsUnique(after);
      forall tenant, filename ensures Versioned(after, Chain(after, tenant, filename)) {
        UploadKeepsChain(docs, u, tenant, filename);
      }
    }
  }

  lemma UploadKeepsChain(docs: seq<Document>, u: Upload, tenant: Tenant, filename: string)
    requires Inv(docs) && FindByHash(docs, u.hash, u.tenant).None?
    ensures Versioned(Uploaded(docs, u).1, Chain(Uploaded(docs, u).1, tenant, filename))
  {
    ChainAfter(docs, u, tenant, filename);
    hide Inv, Versioned, Chain, Uploaded;
    if tenant == u.tenant && filename == u.filename {
      OwnChainGrows(docs, u);
    } else {
      OtherChainStays(docs, u, tenant, filename);
    }
  }

  /** An upload of new content adds its document to its own chain, and nothing to the others. */
  lemma ChainAfter(docs: seq<Document>, u: Upload, tenant: Tenant, filename: string)
    requires FindByHash(docs, u.hash, u.tenant).None?
    ensures Chain(Uploaded(docs, u).1, tenant, filename)
            == Chain(docs, tenant, filename) + if tenant == u.tenant && filename == u.filename then [|docs|] else []
  {
    ChainIgnoresLinks(docs, Uploaded(docs, u).1[..|docs|], tenant, filename);
  }

  lemma OtherChainStays(docs: seq<Document>, u: Upload, tenant: Tenant, filename: string)
    requires Inv(docs) && FindByHash(docs, u.hash, u.tenant).None? && (tenant != u.tenant || filename != u.filename)
    ensures Versioned(Uploaded(docs, u).1, Chain(docs, tenant, filename) + [])
  {
    var after, chain := Uploaded(docs, u).1, Chain(docs, tenant, filename);
    ChainMembers(docs, tenant, filename);
    assert chain + [] == chain;
    assert Versioned(docs, chain);
    hide Versioned, Chain;
    VersionedStays(docs, after, chain);
  }

  lemma UploadedShape(docs: seq<Document>, u: Upload)
    requires FindByHash(docs, u.hash, u.tenant).None?
    ensures var after := Uploaded(docs, u).1;
            var previous := FindLatestByFilename(docs, u.filename, u.tenant);
            && |after| == |docs| + 1 && after[|docs|].supersededBy == None
            && after[|docs|].version == (if previous.Some? then docs[previous.value].version + 1 else 1)
            && forall i :: 0 <= i < |docs| ==>
                 after[i] == if previous == Some(i) then docs[i].(supersededBy := Some(|docs|)) else docs[i]
  {
  }

  lemma OwnChainGrows(docs: seq<Document>, u: Upload)
    requires Inv(docs) && FindByHash(docs, u.hash, u.tenant).None?
    ensures Versioned(Uploaded(docs, u).1, Chain(docs, u.tenant, u.filename) + [|docs|])
  {
    var after, own := Uploaded(docs, u).1, Chain(docs, u.tenant, u.filename);
    ChainMembers(docs, u.tenant, u.filename);
    LatestIsLast(docs, u.tenant, u.filename);
    assert Versioned(docs, own);
    assert own != [] ==> docs[own[|own| - 1]].version == |own|;
    UploadedShape(docs, u);
    hide Inv, Versioned, Chain, FindByHash, FindLatestByFilename, Uploaded;
    VersionedGrows(docs, after, own, |own| + 1);
  }

  function AfterUploads(docs: seq<Document>, uploads: seq<Upload>): seq<Document>
    decreases |uploads|
  {
    if uploads == [] then docs else AfterUploads(Uploaded(docs, uploads[0]).1, uploads[1..])
  }

  lemma {:induction false} UploadsKeepInv(docs: seq<Document>, uploads: seq<Upload>)
    requires Inv(docs)
    ensures Inv(AfterUploads(docs, uploads))
    decreases |uploads|
  {
    if uploads != [] {
      UploadKeepsInv(docs, uploads[0]);
      UploadsKeepInv(Uploaded(docs, uploads[0]).1, uploads[1..]);
    }
  }

  /** After any uploads: unique content, and the versions of every tenant and filename are exactly 1..k, linked in order. */
  lemma VersionsAreAChain(uploads: seq<Upload>, tenant: Tenant, filename: string)
    ensures var docs := AfterUploads([], uploads);
            var chain := Chain(docs, tenant, filename);
            && ContentIsUnique(docs) && Versioned(docs, chain)
            && forall i: nat :: i in chain <==> (i < |docs| && docs[i].tenant == tenant && docs[i].filename == filename)
  {
    UploadsKeepInv([], uploads);
    ChainMembers(AfterUploads([], uploads), tenant, filename);
  }

  // ---------------------------------------------------------------------------
  // Content is stored once
  // ---------------------------------------------------------------------------

  ghost predicate Holds(docs: seq<Document>, id: DocumentId, tenant: Tenant, hash: string) {
    id < |docs| && docs[id].tenant == tenant && docs[id].hash == hash
  }

  lemma {:induction false} ContentStays(docs: seq<Document>, uploads: seq<Upload>, id: DocumentId)
    requires id < |docs|
    ensures Holds(AfterUploads(docs, uploads), id, docs[id].tenant, docs[id].hash)
    decreases |uploads|
  {
    if uploads != [] {
      var next := Uploaded(docs, uploads[0]).1;
      assert Holds(next, id, docs[id].tenant, docs[id].hash);
      ContentStays(next, uploads[1..], id);
    }
  }

  /** Once uploaded, the same content of a tenant is answered with the same document under any name and after any uploads. */
  lemma SameContentSameDocument(docs: seq<Document>, u: Upload, uploads: seq<Upload>, filename: string)
    requires Inv(docs)
    ensures var (answer, after) := Uploaded(docs, u);
            var later := AfterUploads(after, uploads);
            Uploaded(later, Upload(u.tenant, filename, u.hash)) == (Answer(answer.id, true), later)
  {
    var (answer, after) := Uploaded(docs, u);
    var later := AfterUploads(after, uploads);
    UploadKeepsInv(docs, u);
    UploadsKeepInv(after, uploads);
    assert Holds(after, answer.id, u.tenant, u.hash);
    ContentStays(after, uploads, answer.id);
    assert Holds(later, answer.id, u.tenant, u.hash);
    FoundByContent(later, answer.id, filename);
  }

  lemma FoundByContent(docs: seq<Document>, id: DocumentId, filename: string)
    requires ContentIsUnique(docs) && id < |docs|
    ensures Uploaded(docs, Upload(docs[id].tenant, filename, docs[id].hash)) == (Answer(id, true), docs)
  {
    var found := FindByHash(docs, docs[id].hash, docs[id].tenant);
    assert found == Some(id);
  }
}
