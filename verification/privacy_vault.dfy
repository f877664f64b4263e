/** Privacy vault: overlap filter, right-to-left masking, and re-hydration by sequential replacement. */
module PrivacyVault {
  import opened Common

  datatype EntityType = EMAIL | SSN | CARD | PHONE | IBAN | PERSON

  /** One detector match: the pattern that fired and its half-open span. */
  datatype Hit = Hit(kind: EntityType, start: nat, end: nat)

  datatype MaskedEntity = MaskedEntity(raw: string, kind: EntityType, token: string, start: nat, end: nat)

  function TypeName(kind: EntityType): string {
    match kind
    case EMAIL => "EMAIL"
    case SSN => "SSN"
    case CARD => "CARD"
    case PHONE => "PHONE"
    case IBAN => "IBAN"
    case PERSON => "PERSON"
  }

  /** A total character lookup, convenient where an index is not yet known to be in range. */
  function At(s: string, i: int): char {
    if 0 <= i < |s| then s[i] else ' '
  }

  // ---------------------------------------------------------------------------
  // Surrogate tokens
  // ---------------------------------------------------------------------------

  /** The truncated HMAC is a parameter; it maps a stripped value to eight hexadecimal digits. */
  type Digest = string -> string

  ghost predicate IsHexDigest(digest: Digest) {
    forall s :: |digest(s)| == 8 && forall k :: 0 <= k < 8 ==> digest(s)[k] in "0123456789abcdef"
  }

  function SurrogateToken(kind: EntityType, raw: string, digest: Digest): string {
    "[" + TypeName(kind) + "_" + digest(Strip(raw)) + "]"
  }

  /** A bracketed token has brackets at its two ends and nowhere else. */
  predicate Bracketed(t: string) {
    && |t| >= 2
    && t[0] == '['
    && t[|t| - 1] == ']'
    && forall k :: 0 < k < |t| - 1 ==> t[k] != '[' && t[k] != ']'
  }

  lemma TokenIsBracketed(kind: EntityType, raw: string, digest: Digest)
    requires IsHexDigest(digest)
    ensures Bracketed(SurrogateToken(kind, raw, digest))
  {
    var name, d := TypeName(kind), digest(Strip(raw));
    var t := SurrogateToken(kind, raw, digest);
    forall k | 0 < k < |t| - 1 ensures t[k] != '[' && t[k] != ']' {
      if k < 1 + |name| {
        assert t[k] == name[k - 1];
      } else if k > 1 + |name| {
        assert t[k] == d[k - 2 - |name|];
      }
    }
  }

  lemma BracketedParts(name: string, d: string)
    requires |d| == 8
    ensures var t, n := "[" + name + "_" + d + "]", |name|;
            |t| == n + 11 && t[1..n + 1] == name && t[n + 2..n + 10] == d
  {
    var t, n := "[" + name + "_" + d + "]", |name|;
    assert forall k :: 0 <= k < n ==> t[1 + k] == name[k];
    assert forall k :: 0 <= k < 8 ==> t[n + 2 + k] == d[k];
  }

  lemma TypeNamesDiffer(k1: EntityType, k2: EntityType)
    ensures k1 != k2 ==> TypeName(k1) != TypeName(k2)
  {
    var n1, n2 := TypeName(k1), TypeName(k2);
    assert k1 != k2 ==> |n1| != |n2| || At(n1, 0) != At(n2, 0);
  }

  /** Two entities share a token exactly when they share a type and a digest. */
  lemma {:induction false} TokensCoincide(k1: EntityType, r1: string, k2: EntityType, r2: string, digest: Digest)
    requires IsHexDigest(digest)
    ensures SurrogateToken(k1, r1, digest) == SurrogateToken(k2, r2, digest)
            <==> k1 == k2 && digest(Strip(r1)) == digest(Strip(r2))
  {
    BracketedParts(TypeName(k1), digest(Strip(r1)));
    BracketedParts(TypeName(k2), digest(Strip(r2)));
    TypeNamesDiffer(k1, k2);
  }

  // ---------------------------------------------------------------------------
  // Detection: spans in, entities out, by descending start
  // ---------------------------------------------------------------------------

  predicate InText(text: string, h: Hit) {
    h.start < h.end <= |text|
  }

  function RawOf(text: string, h: Hit): string {
    if InText(text, h) then text[h.start..h.end] else ""
  }

  function EntityOf(text: string, h: Hit, digest: Digest): MaskedEntity
    requires InText(text, h)
  {
    var raw := RawOf(text, h);
    MaskedEntity(raw, h.kind, SurrogateToken(h.kind, raw, digest), h.start, h.end)
  }

  predicate Descending(es: seq<MaskedEntity>) {
    forall i, j :: 0 <= i < j < |es| ==> es[i].start >= es[j].start
  }

  /** Where a stable descending insertion puts e: before the first entity that does not start later. */
  function InsertionPoint(e: MaskedEntity, es: seq<MaskedEntity>): (p: nat)
    ensures p <= |es|
    ensures forall j :: 0 <= j < p ==> es[j].start > e.start
    ensures p < |es| ==> e.start >= es[p].start
  {
    if es == [] || e.start >= es[0].start then 0 else 1 + InsertionPoint(e, es[1..])
  }

  function InsertByStart(e: MaskedEntity, es: seq<MaskedEntity>): (r: seq<MaskedEntity>)
    ensures multiset(r) == multiset{e} + multiset(es)
  {
    var p := InsertionPoint(e, es);
    assert es == es[..p] + es[p..];
    es[..p] + [e] + es[p..]
  }

  lemma InsertKeepsDescending(e: MaskedEntity, es: seq<MaskedEntity>)
    requires Descending(es)
    ensures Descending(InsertByStart(e, es))
  {
    var p, r := InsertionPoint(e, es), InsertByStart(e, es);
    forall i, j | 0 <= i < j < |r| ensures r[i].start >= r[j].start {
      assert r[i] == (if i < p then es[i] else if i == p then e else es[i - 1]);
      assert r[j] == (if j < p then es[j] else if j == p then e else es[j - 1]);
    }
  }

  /** The stable descending sort: entities with equal start keep their detection order. */
  function SortByStart(es: seq<MaskedEntity>): (r: seq<MaskedEntity>)
    ensures Descending(r) && multiset(r) == multiset(es)
  {
    if es == [] then []
    else
      assert es == [es[0]] + es[1..];
      InsertKeepsDescending(es[0], SortByStart(es[1..]));
      InsertByStart(es[0], SortByStart(es[1..]))
  }

  lemma InsertFirst(e: MaskedEntity, es: seq<MaskedEntity>)
    requires es == [] || e.start >= es[0].start
    ensures InsertByStart(e, es) == [e] + es
  {
    assert [] + [e] + es == [e] + es && es[0..] == es;
  }

  lemma {:induction false} SortKeepsDescending(es: seq<MaskedEntity>)
    requires Descending(es)
    ensures SortByStart(es) == es
  {
    if es != [] {
      SortKeepsDescending(es[1..]);
      InsertFirst(es[0], es[1..]);
      assert SortByStart(es) == InsertByStart(es[0], SortByStart(es[1..])) == [es[0]] + es[1..];
    }
  }

  function RawEntities(text: string, hits: seq<Hit>, digest: Digest): seq<MaskedEntity>
    requires forall h :: h in hits ==> InText(text, h)
  {
    seq(|hits|, i requires 0 <= i < |hits| => EntityOf(text, hits[i], digest))
  }

  function Detected(text: string, hits: seq<Hit>, digest: Digest): seq<MaskedEntity>
    requires forall h :: h in hits ==> InText(text, h)
  {
    SortByStart(RawEntities(text, hits, digest))
  }

  method DetectEntities(text: string, hits: seq<Hit>, digest: Digest) returns (entities: seq<MaskedEntity>)
    requires forall h :: h in hits ==> InText(text, h)
    ensures entities == Detected(text, hits, digest)
  {
    entities := [];
    for i := 0 to |hits|
      invariant entities == RawEntities(text, hits[..i], digest)
    {
      entities := entities + [EntityOf(text, hits[i], digest)];
    }
    assert hits[..|hits|] == hits;
    entities := SortByStart(entities);
  }

  // ---------------------------------------------------------------------------
  // Overlap filter: latest start first is a maximum choice
  // ---------------------------------------------------------------------------

  predicate Overlaps(a: MaskedEntity, b: MaskedEntity) {
    !(a.end <= b.start || a.start >= b.end)
  }

  function Keep(es: seq<MaskedEntity>): seq<MaskedEntity> {
    if es == [] then []
    else
      var kept, e := Keep(es[..|es| - 1]), es[|es| - 1];
      if exists k :: k in kept && Overlaps(e, k) then kept else kept + [e]
  }

  predicate Disjoint(es: seq<MaskedEntity>) {
    forall i, j :: 0 <= i < j < |es| ==> !Overlaps(es[i], es[j])
  }

  predicate NonEmptySpans(es: seq<MaskedEntity>) {
    forall e :: e in es ==> e.start < e.end
  }

  lemma {:induction false} KeepOnlyDrops(es: seq<MaskedEntity>)
    ensures forall k :: k in Keep(es) ==> k in es
  {
    if es != [] {
      assert es == es[..|es| - 1] + [es[|es| - 1]];
      KeepOnlyDrops(es[..|es| - 1]);
    }
  }

  lemma {:induction false} KeepIsDisjoint(es: seq<MaskedEntity>)
    requires Descending(es)
    ensures Disjoint(Keep(es)) && Descending(Keep(es))
  {
    if es != [] {
      var init, last := es[..|es| - 1], es[|es| - 1];
      KeepIsDisjoint(init);
      KeepOnlyDrops(init);
      var kept := Keep(init);
      if !exists k :: k in kept && Overlaps(last, k) {
        forall i | 0 <= i < |kept| ensures !Overlaps(kept[i], last) && kept[i].start >= last.start {
          assert kept[i] in kept;
          assert !Overlaps(last, kept[i]);
          assert kept[i] in init;
        }
      }
    }
  }

  ghost predicate Stabbed(e: MaskedEntity, kept: seq<MaskedEntity>) {
    exists k :: k in kept && e.start <= k.start < e.end
  }

  /** An entity is dropped only for a kept one whose start lies inside it. */
  lemma {:induction false} KeepStabsAll(es: seq<MaskedEntity>, e: MaskedEntity)
    requires Descending(es) && NonEmptySpans(es) && e in es
    ensures Stabbed(e, Keep(es))
  {
    var init, last := es[..|es| - 1], es[|es| - 1];
    assert es == init + [last];
    if e in init {
      KeepStabsAll(init, e);
      var k :| k in Keep(init) && e.start <= k.start < e.end;
      assert k in Keep(es);
    } else {
      KeepOnlyDrops(init);
      LastIsStabbed(init, last);
    }
  }

  lemma LastIsStabbed(init: seq<MaskedEntity>, last: MaskedEntity)
    requires Descending(init + [last]) && last.start < last.end
    requires forall k :: k in Keep(init) ==> k in init
    ensures Stabbed(last, Keep(init + [last]))
  {
    var es := init + [last];
    assert es[..|es| - 1] == init;
    if k :| k in Keep(init) && Overlaps(last, k) {
      assert k in Keep(es) && last.start <= k.start < last.end;
    } else {
      assert last in Keep(es);
    }
  }

  ghost predicate PairwiseDisjoint(s: set<MaskedEntity>) {
    forall a, b :: a in s && b in s && a != b ==> !Overlaps(a, b)
  }

  ghost predicate Holds(e: MaskedEntity, points: set<nat>) {
    exists p :: p in points && e.start <= p < e.end
  }

  /** Disjoint spans that each contain one of the given points are no more than the points. */
  lemma {:induction false} StabbedSpansBound(s: set<MaskedEntity>, points: set<nat>)
    requires PairwiseDisjoint(s)
    requires forall e :: e in s ==> Holds(e, points)
    ensures |s| <= |points|
    decreases |s|
  {
    if s != {} {
      var e :| e in s;
      var p :| p in points && e.start <= p < e.end;
      forall f | f in s - {e} ensures Holds(f, points - {p}) {
        var q :| q in points && f.start <= q < f.end;
        assert !Overlaps(e, f);
        assert q in points - {p};
      }
      StabbedSpansBound(s - {e}, points - {p});
    }
  }

  lemma {:induction false} StartsBound(es: seq<MaskedEntity>)
    ensures |set e | e in es :: e.start| <= |es|
  {
    if es != [] {
      StartsBound(es[1..]);
      var rest := set e | e in es[1..] :: e.start;
      assert es == [es[0]] + es[1..];
      assert (set e | e in es :: e.start) == rest + {es[0].start};
    }
  }

  /** No pairwise disjoint choice among the entities is larger than the one the filter makes. */
  lemma KeepIsMaximum(es: seq<MaskedEntity>, other: set<MaskedEntity>)
    requires Descending(es) && NonEmptySpans(es)
    requires PairwiseDisjoint(other) && forall e :: e in other ==> e in es
    ensures |other| <= |Keep(es)|
  {
    var kept := Keep(es);
    var points := set k | k in kept :: k.start;
    forall e | e in other ensures Holds(e, points) {
      KeepStabsAll(es, e);
      var k :| k in kept && e.start <= k.start < e.end;
      assert k.start in points;
    }
    StabbedSpansBound(other, points);
    StartsBound(kept);
  }

  // ---------------------------------------------------------------------------
  // Masking
  // ---------------------------------------------------------------------------

  /** Gaps and tokens written left to right, from position pos on, for entities in ascending order. */
  function Render(text: string, pos: nat, es: seq<MaskedEntity>): string
    requires pos <= |text| && Laid(text, pos, es)
    decreases |es|
  {
    if es == [] then text[pos..]
    else text[pos..es[0].start] + es[0].token + Render(text, es[0].end, es[1..])
  }

  /** Ascending, disjoint spans of the text, all at or after pos. */
  predicate Laid(text: string, pos: nat, es: seq<MaskedEntity>)
    decreases |es|
  {
    es == [] ||
    (&& pos <= es[0].start < es[0].end <= |text|
     && es[0].raw == text[es[0].start..es[0].end]
     && Laid(text, es[0].end, es[1..]))
  }

  function Reversed(es: seq<MaskedEntity>): (r: seq<MaskedEntity>)
    ensures |r| == |es|
    ensures forall i :: 0 <= i < |r| ==> r[i] == es[|es| - 1 - i]
  {
    if es == [] then [] else [es[|es| - 1]] + Reversed(es[..|es| - 1])
  }

  /** A dictionary assignment on an insertion-ordered list of items. */
  function Assign(items: seq<(string, string)>, key: string, value: string): seq<(string, string)> {
    if items == [] then [(key, value)]
    else if items[0].0 == key then [(key, value)] + items[1..]
    else [items[0]] + Assign(items[1..], key, value)
  }

  function TokenMap(kept: seq<MaskedEntity>): seq<(string, string)> {
    if kept == [] then []
    else Assign(TokenMap(kept[..|kept| - 1]), kept[|kept| - 1].token, kept[|kept| - 1].raw)
  }

  lemma {:induction false} LaidFrom(text: string, pos: nat, later: nat, es: seq<MaskedEntity>)
    requires Laid(text, pos, es) && (es == [] || later <= es[0].start)
    ensures Laid(text, later, es)
  {
  }

  /** Text before the first entity is rendered unchanged. */
  lemma {:induction false} RenderGap(text: string, pos: nat, later: nat, es: seq<MaskedEntity>)
    requires Laid(text, pos, es) && pos <= later <= |text| && (es == [] || later <= es[0].start)
    ensures Laid(text, later, es) && Render(text, pos, es) == text[pos..later] + Render(text, later, es)
  {
    if es == [] {
      assert text[pos..] == text[pos..later] + text[later..];
    } else {
      var a, b, token := text[pos..later], text[later..es[0].start], es[0].token;
      var rest := Render(text, es[0].end, es[1..]);
      assert text[pos..es[0].start] == a + b;
      assert a + b + token + rest == a + (b + token + rest);
    }
  }

  predicate Spliceable(text: string, es: seq<MaskedEntity>) {
    && Descending(es) && Disjoint(es) && NonEmptySpans(es)
    && forall e :: e in es ==> e.end <= |text| && e.raw == text[e.start..e.end]
  }

  lemma {:induction false} ReversedIsLaid(text: string, es: seq<MaskedEntity>)
    requires Spliceable(text, es)
    ensures Laid(text, 0, Reversed(es))
    ensures es != [] ==> Laid(text, es[|es| - 1].start, Reversed(es))
  {
    if es != [] {
      var init, last := es[..|es| - 1], es[|es| - 1];
      assert forall e :: e in init ==> e in es;
      ReversedIsLaid(text, init);
      var r := Reversed(es);
      assert r[1..] == Reversed(init);
      if init != [] {
        assert !Overlaps(init[|init| - 1], last);
        assert init[|init| - 1] in es && last in es;
        LaidFrom(text, 0, last.end, Reversed(init));
      }
    }
  }

  function MaskedText(text: string, kept: seq<MaskedEntity>): string
    requires Spliceable(text, kept)
  {
    ReversedIsLaid(text, kept);
    Render(text, 0, Reversed(kept))
  }

  ghost predicate FromHit(text: string, hits: seq<Hit>, digest: Digest, e: MaskedEntity)
    requires forall h :: h in hits ==> InText(text, h)
  {
    exists h :: h in hits && e == EntityOf(text, h, digest)
  }

  lemma DetectedMembers(text: string, hits: seq<Hit>, digest: Digest)
    requires forall h :: h in hits ==> InText(text, h)
    ensures forall e :: e in Detected(text, hits, digest) <==> FromHit(text, hits, digest, e)
    ensures NonEmptySpans(Detected(text, hits, digest))
  {
    RawMembers(text, hits, digest);
    SameMembers(Detected(text, hits, digest), RawEntities(text, hits, digest));
    hide Detected, RawEntities;
  }

  lemma RawMembers(text: string, hits: seq<Hit>, digest: Digest)
    requires forall h :: h in hits ==> InText(text, h)
    ensures forall e :: e in RawEntities(text, hits, digest) <==> FromHit(text, hits, digest, e)
  {
    var raws := RawEntities(text, hits, digest);
    forall e | FromHit(text, hits, digest, e) ensures e in raws {
      var h :| h in hits && e == EntityOf(text, h, digest);
      var i :| 0 <= i < |hits| && hits[i] == h;
      assert raws[i] == e;
    }
  }

  lemma SameMembers<T>(a: seq<T>, b: seq<T>)
    requires multiset(a) == multiset(b)
    ensures forall x :: x in a <==> x in b
  {
    assert forall x :: x in a <==> x in multiset(a);
  }

  lemma KeptIsSpliceable(text: string, hits: seq<Hit>, digest: Digest)
    requires forall h :: h in hits ==> InText(text, h)
    ensures Spliceable(text, Keep(Detected(text, hits, digest)))
    ensures forall k :: k in Keep(Detected(text, hits, digest)) ==> FromHit(text, hits, digest, k)
  {
    var es := Detected(text, hits, digest);
    DetectedMembers(text, hits, digest);
    KeepOnlyDrops(es);
    KeepIsDisjoint(es);
  }

  /** mask_text: filter overlaps, then splice tokens in from the right. */
  method MaskText(text: string, hits: seq<Hit>, digest: Digest)
    returns (masked: string, tokenToRaw: seq<(string, string)>)
    requires forall h :: h in hits ==> InText(text, h)
    ensures Spliceable(text, Keep(Detected(text, hits, digest)))
    ensures masked == MaskedText(text, Keep(Detected(text, hits, digest)))
    ensures tokenToRaw == TokenMap(Keep(Detected(text, hits, digest)))
  {
    var entities := DetectEntities(text, hits, digest);
    KeptIsSpliceable(text, hits, digest);
    if entities == [] {
      return text, [];
    }
    var filtered := FilterOverlaps(entities);
    SortKeepsDescending(filtered);
    filtered := SortByStart(filtered);
    masked, tokenToRaw := SpliceTokens(text, filtered);
  }

  /** The first loop of mask_text. */
  method FilterOverlaps(entities: seq<MaskedEntity>) returns (filtered: seq<MaskedEntity>)
    ensures filtered == Keep(entities)
  {
    filtered := [];
    var occupied: seq<(nat, nat)> := [];
    for i := 0 to |entities|
      invariant filtered == Keep(entities[..i])
      invariant |occupied| == |filtered|
      invariant forall k :: 0 <= k < |filtered| ==> occupied[k] == (filtered[k].start, filtered[k].end)
    {
      var ent := entities[i];
      var overlaps := exists k :: 0 <= k < |occupied| && !(ent.end <= occupied[k].0 || ent.start >= occupied[k].1);
      assert entities[..i + 1][..i] == entities[..i];
      if overlaps {
        var k :| 0 <= k < |occupied| && !(ent.end <= occupied[k].0 || ent.start >= occupied[k].1);
        assert filtered[k] in filtered && Overlaps(ent, filtered[k]);
      } else {
        filtered := filtered + [ent];
        occupied := occupied + [(ent.start, ent.end)];
      }
    }
    assert entities[..|entities|] == entities;
  }

  /** The second loop of mask_text: the rightmost token goes in first. */
  method SpliceTokens(text: string, filtered: seq<MaskedEntity>)
    returns (masked: string, tokenToRaw: seq<(string, string)>)
    requires Spliceable(text, filtered)
    ensures masked == MaskedText(text, filtered) && tokenToRaw == TokenMap(filtered)
  {
    masked, tokenToRaw := text, [];
    for i := 0 to |filtered|
      invariant Spliceable(text, filtered[..i])
      invariant masked == MaskedText(text, filtered[..i])
      invariant tokenToRaw == TokenMap(filtered[..i])
    {
      var ent := filtered[i];
      SpliceNext(text, filtered, i);
      masked := masked[..ent.start] + ent.token + masked[ent.end..];
      tokenToRaw := Assign(tokenToRaw, ent.token, ent.raw);
    }
    assert filtered[..|filtered|] == filtered;
  }

  lemma SpliceablePrefix(text: string, es: seq<MaskedEntity>, i: nat)
    requires Spliceable(text, es) && i <= |es|
    ensures Spliceable(text, es[..i])
  {
    assert forall e :: e in es[..i] ==> e in es;
  }

  lemma SpliceNext(text: string, es: seq<MaskedEntity>, i: nat)
    requires Spliceable(text, es) && i < |es|
    ensures Spliceable(text, es[..i]) && Spliceable(text, es[..i + 1])
    ensures var m := MaskedText(text, es[..i]);
            es[i].end <= |m| && MaskedText(text, es[..i + 1]) == m[..es[i].start] + es[i].token + m[es[i].end..]
    ensures TokenMap(es[..i + 1]) == Assign(TokenMap(es[..i]), es[i].token, es[i].raw)
  {
    var next := es[..i + 1];
    assert next[..i] == es[..i];
    SpliceablePrefix(text, es, i + 1);
    SpliceStep(text, next);
  }

  /** Splicing one more token in, to the left of those done, renders one more entity. */
  lemma {:induction false} SpliceStep(text: string, es: seq<MaskedEntity>)
    requires Spliceable(text, es) && es != []
    ensures Spliceable(text, es[..|es| - 1])
    ensures var m, e := MaskedText(text, es[..|es| - 1]), es[|es| - 1];
            e.end <= |m| && MaskedText(text, es) == m[..e.start] + e.token + m[e.end..]
  {
    var init, e := es[..|es| - 1], es[|es| - 1];
    SpliceablePrefix(text, es, |es| - 1);
    ReversedIsLaid(text, init);
    ReversedIsLaid(text, es);
    assert Reversed(es) == [e] + Reversed(init);
    SpliceFront(text, e, Reversed(init));
  }

  lemma SpliceFront(text: string, e: MaskedEntity, r: seq<MaskedEntity>)
    requires Laid(text, 0, r) && Laid(text, 0, [e] + r)
    ensures var m := Render(text, 0, r);
            e.end <= |m| && Render(text, 0, [e] + r) == m[..e.start] + e.token + m[e.end..]
  {
    assert ([e] + r)[1..] == r;
    RenderGap(text, 0, e.end, r);
    var m := Render(text, 0, r);
    assert m == text[0..e.end] + Render(text, e.end, r);
    assert m[..e.start] == text[0..e.start] && m[e.end..] == Render(text, e.end, r);
  }

  // ---------------------------------------------------------------------------
  // Re-hydration
  // ---------------------------------------------------------------------------

  predicate MatchesAt(s: string, t: string, i: nat) {
    i + |t| <= |s| && s[i..i + |t|] == t
  }

  predicate Occurs(t: string, s: string) {
    exists i: nat :: i <= |s| && MatchesAt(s, t, i)
  }

  /** Python's str.replace for a non-empty pattern: leftmost, non-overlapping. */
  function Replace(s: string, t: string, r: string): string
    requires t != []
  {
    if |s| < |t| then s
    else if s[..|t|] == t then r + Replace(s[|t|..], t, r)
    else [s[0]] + Replace(s[1..], t, r)
  }

  function Unmask(text: string, items: seq<(string, string)>): string
    requires forall i :: i in items ==> i.0 != []
  {
    if items == [] then text
    else Replace(Unmask(text, items[..|items| - 1]), items[|items| - 1].0, items[|items| - 1].1)
  }

  /** unmask_text on the memory-map path. */
  method UnmaskText(text: string, memoryMap: seq<(string, string)>) returns (unmasked: string)
    requires forall i :: i in memoryMap ==> i.0 != []
    ensures unmasked == Unmask(text, memoryMap)
  {
    unmasked := text;
    for i := 0 to |memoryMap|
      invariant unmasked == Unmask(text, memoryMap[..i])
    {
      assert memoryMap[..i + 1][..i] == memoryMap[..i];
      assert memoryMap[i] in memoryMap;
      unmasked := Replace(unmasked, memoryMap[i].0, memoryMap[i].1);
    }
    assert memoryMap[..|memoryMap|] == memoryMap;
  }

  /** Positions where the pattern does not match are copied. */
  lemma ReplaceSkips(s: string, t: string, r: string)
    requires t != [] && s != [] && !MatchesAt(s, t, 0)
    ensures Replace(s, t, r) == [s[0]] + Replace(s[1..], t, r)
  {
    if |s| < |t| {
      assert s == [s[0]] + s[1..];
    } else {
      assert s[0..|t|] == s[..|t|];
    }
  }

  lemma {:induction false} ReplaceCopies(s: string, n: nat, t: string, r: string)
    requires t != [] && n <= |s|
    requires forall i :: 0 <= i < n ==> !MatchesAt(s, t, i)
    ensures Replace(s, t, r) == s[..n] + Replace(s[n..], t, r)
  {
    if n > 0 {
      assert !MatchesAt(s, t, 0);
      ReplaceSkips(s, t, r);
      hide Replace;
      forall i | 0 <= i < n - 1 ensures !MatchesAt(s[1..], t, i) {
        ShiftedMatch(s, t, i);
      }
      hide MatchesAt;
      ReplaceCopies(s[1..], n - 1, t, r);
      CopiedPrefix(s, n);
    }
  }

  lemma ShiftedMatch(s: string, t: string, i: nat)
    requires s != []
    ensures MatchesAt(s[1..], t, i) <==> MatchesAt(s, t, i + 1)
  {
    if i + 1 + |t| <= |s| {
      assert s[1..][i..i + |t|] == s[i + 1..i + 1 + |t|];
    }
  }

  lemma CopiedPrefix(s: string, n: nat)
    requires 0 < n <= |s|
    ensures [s[0]] + s[1..][..n - 1] == s[..n] && s[1..][n - 1..] == s[n..]
  {
  }

  lemma MatchedChar(s: string, t: string, i: nat, k: int)
    requires MatchesAt(s, t, i)
    ensures 0 <= k < |t| ==> At(s, i + k) == At(t, k)
  {
    if 0 <= k < |t| {
      assert s[i..i + |t|][k] == s[i + k];
    }
  }

  /** In gap + u + rest, a bracketed pattern matches before rest only if it is u itself. */
  lemma NoMatchAcross(gap: string, u: string, rest: string, t: string, i: nat)
    requires Bracketed(t) && Bracketed(u) && !Occurs(t, gap)
    requires i < |gap| + |u| && MatchesAt(gap + u + rest, t, i)
    ensures i == |gap| && t == u
  {
    var s := gap + u + rest;
    assert forall k :: 0 <= k < |u| ==> At(s, |gap| + k) == At(u, k);
    if i + |t| <= |gap| {
      assert gap[i..i + |t|] == s[i..i + |t|];
    }
    assert !MatchesAt(gap, t, i);
    MatchedChar(s, t, i, |gap| - i);
    MatchedChar(s, t, i, 0);
    MatchedChar(s, t, i, |t| - 1);
    MatchedChar(s, t, i, |u| - 1);
    assert At(s, |gap| + 0) == '[' && At(s, |gap| + (|u| - 1)) == ']';
    assert i == |gap| by {
      assert At(s, |gap| + (i - |gap|)) == At(s, i);
    }
    assert |t| == |u| by {
      assert At(s, |gap| + (|t| - 1)) == ']';
    }
    forall k | 0 <= k < |t| ensures t[k] == u[k] {
      MatchedChar(s, t, i, k);
    }
  }

  function Without(es: seq<MaskedEntity>, t: string): seq<MaskedEntity> {
    if es == [] then []
    else if es[0].token == t then Without(es[1..], t)
    else [es[0]] + Without(es[1..], t)
  }

  lemma {:induction false} WithoutIsLaid(text: string, pos: nat, es: seq<MaskedEntity>, t: string)
    requires Laid(text, pos, es)
    ensures Laid(text, pos, Without(es, t))
    decreases |es|
  {
    if es != [] {
      WithoutIsLaid(text, es[0].end, es[1..], t);
      var rest := Without(es[1..], t);
      if es[0].token == t && rest != [] {
        LaidFrom(text, es[0].end, pos, rest);
      }
    }
  }

  lemma SubstringFree(t: string, text: string, lo: nat, hi: nat)
    requires lo <= hi <= |text| && !Occurs(t, text)
    ensures !Occurs(t, text[lo..hi])
  {
    assert !MatchesAt(text, t, lo);
    if Occurs(t, text[lo..hi]) {
      var i: nat :| i <= |text[lo..hi]| && MatchesAt(text[lo..hi], t, i);
      SliceInside(text, lo, hi, i, i + |t|);
      assert MatchesAt(text, t, lo + i);
    }
  }

  /** t stands in no gap between the entities, which are what masking leaves of the text. */
  predicate Clear(text: string, pos: nat, es: seq<MaskedEntity>, t: string)
    requires pos <= |text| && Laid(text, pos, es)
    decreases |es|
  {
    if es == [] then !Occurs(t, text[pos..])
    else !Occurs(t, text[pos..es[0].start]) && Clear(text, es[0].end, es[1..], t)
  }

  lemma {:induction false} AbsentIsClear(text: string, pos: nat, es: seq<MaskedEntity>, t: string)
    requires pos <= |text| && Laid(text, pos, es) && !Occurs(t, text)
    ensures Clear(text, pos, es, t)
    decreases |es|
  {
    if es == [] {
      SubstringFree(t, text, pos, |text|);
      assert text[pos..|text|] == text[pos..];
    } else {
      SubstringFree(t, text, pos, es[0].start);
      AbsentIsClear(text, es[0].end, es[1..], t);
    }
  }

  /** One replacement restores exactly the entities carrying that token: none is created or split. */
  lemma {:induction false} ReplaceRestores(text: string, pos: nat, es: seq<MaskedEntity>, t: string, r: string)
    requires pos <= |text| && Laid(text, pos, es)
    requires Bracketed(t) && Clear(text, pos, es, t)
    requires forall e :: e in es ==> Bracketed(e.token) && (e.token == t ==> e.raw == r)
    ensures Laid(text, pos, Without(es, t))
    ensures Replace(Render(text, pos, es), t, r) == Render(text, pos, Without(es, t))
    decreases |es|
  {
    WithoutIsLaid(text, pos, es, t);
    if es == [] {
      var s := text[pos..];
      ReplaceCopies(s, |s|, t, r);
      assert s[|s|..] == [];
    } else {
      var e := es[0];
      assert e in es;
      ReplaceRestores(text, e.end, es[1..], t, r);
      var rest := Render(text, e.end, es[1..]);
      ReplaceFirst(text[pos..e.start], e.token, rest, t, r);
      if e.token == t {
        RestoredGap(text, pos, e, Without(es[1..], t));
      }
    }
  }

  /** A restored value reads as part of the gap before the next entity. */
  lemma RestoredGap(text: string, pos: nat, e: MaskedEntity, later: seq<MaskedEntity>)
    requires pos <= e.start <= e.end <= |text| && e.raw == text[e.start..e.end] && Laid(text, e.end, later)
    ensures Laid(text, pos, later)
    ensures text[pos..e.start] + e.raw + Render(text, e.end, later) == Render(text, pos, later)
  {
    LaidFrom(text, e.end, pos, later);
    RenderGap(text, pos, e.end, later);
    assert text[pos..e.end] == text[pos..e.start] + e.raw;
  }

  lemma ReplaceAtStart(t: string, rest: string, r: string)
    requires t != []
    ensures Replace(t + rest, t, r) == r + Replace(rest, t, r)
  {
    assert (t + rest)[..|t|] == t && (t + rest)[|t|..] == rest;
  }

  lemma ReplaceFirst(gap: string, u: string, rest: string, t: string, r: string)
    requires Bracketed(t) && Bracketed(u) && !Occurs(t, gap)
    ensures Replace(gap + u + rest, t, r) == gap + (if u == t then r else u) + Replace(rest, t, r)
  {
    hide Replace;
    var s := gap + u + rest;
    var n := if u == t then |gap| else |gap| + |u|;
    forall i | 0 <= i < n ensures !MatchesAt(s, t, i) {
      if MatchesAt(s, t, i) { NoMatchAcross(gap, u, rest, t, i); }
    }
    ReplaceCopies(s, n, t, r);
    hide MatchesAt, Occurs, Bracketed;
    if u == t {
      assert s[..n] == gap && s[n..] == t + rest;
      ReplaceAtStart(t, rest, r);
    } else {
      assert s[..n] == gap + u && s[n..] == rest;
    }
  }

  lemma {:induction false} WithoutMembers(es: seq<MaskedEntity>, t: string)
    ensures forall e :: e in Without(es, t) <==> e in es && e.token != t
  {
    if es != [] {
      assert es == [es[0]] + es[1..];
      WithoutMembers(es[1..], t);
    }
  }

  /** The entities still masked after the given items have been replaced in order. */
  function WithoutAll(es: seq<MaskedEntity>, items: seq<(string, string)>): seq<MaskedEntity> {
    if items == [] then es else Without(WithoutAll(es, items[..|items| - 1]), items[|items| - 1].0)
  }

  lemma {:induction false} WithoutAllIsLaid(text: string, es: seq<MaskedEntity>, items: seq<(string, string)>)
    requires Laid(text, 0, es)
    ensures Laid(text, 0, WithoutAll(es, items))
  {
    if items != [] {
      WithoutAllIsLaid(text, es, items[..|items| - 1]);
      WithoutIsLaid(text, 0, WithoutAll(es, items[..|items| - 1]), items[|items| - 1].0);
    }
  }

  /** Each token, when its turn comes, stands only where an entity still has it. */
  predicate InTurn(text: string, es: seq<MaskedEntity>, items: seq<(string, string)>)
    requires Laid(text, 0, es)
  {
    if items == [] then true
    else
      WithoutAllIsLaid(text, es, items[..|items| - 1]);
      && InTurn(text, es, items[..|items| - 1])
      && Clear(text, 0, WithoutAll(es, items[..|items| - 1]), items[|items| - 1].0)
  }

  lemma {:induction false} AbsentInTurn(text: string, es: seq<MaskedEntity>, items: seq<(string, string)>)
    requires Laid(text, 0, es) && forall i :: i in items ==> !Occurs(i.0, text)
    ensures InTurn(text, es, items)
  {
    if items != [] {
      AbsentInTurn(text, es, items[..|items| - 1]);
      WithoutAllIsLaid(text, es, items[..|items| - 1]);
      AbsentIsClear(text, 0, WithoutAll(es, items[..|items| - 1]), items[|items| - 1].0);
    }
  }

  lemma {:induction false} UnmaskRestores(text: string, es: seq<MaskedEntity>, items: seq<(string, string)>)
    requires Laid(text, 0, es) && forall e :: e in es ==> Bracketed(e.token)
    requires (forall i :: i in items ==> Bracketed(i.0)) && InTurn(text, es, items)
    requires forall i, e :: i in items && e in es && e.token == i.0 ==> e.raw == i.1
    ensures Laid(text, 0, WithoutAll(es, items))
    ensures forall i :: i in items ==> i.0 != []
    ensures Unmask(Render(text, 0, es), items) == Render(text, 0, WithoutAll(es, items))
    ensures forall e :: e in WithoutAll(es, items) <==> e in es && forall i :: i in items ==> e.token != i.0
  {
    if items != [] {
      var init, last := items[..|items| - 1], items[|items| - 1];
      assert items == init + [last];
      UnmaskRestores(text, es, init);
      var left := WithoutAll(es, init);
      ReplaceRestores(text, 0, left, last.0, last.1);
      WithoutMembers(left, last.0);
    }
  }

  ghost predicate HasKey(items: seq<(string, string)>, key: string) {
    exists i :: i in items && i.0 == key
  }

  lemma EmptyOrInhabited<T>(s: seq<T>)
    ensures s == [] || exists e :: e in s
  {
    if s != [] {
      assert s[0] in s;
    }
  }

  /** If every token meets its turn so, and the items cover the tokens, the text is restored. */
  lemma InTurnRestores(text: string, es: seq<MaskedEntity>, items: seq<(string, string)>)
    requires Laid(text, 0, es) && forall e :: e in es ==> Bracketed(e.token)
    requires (forall i :: i in items ==> Bracketed(i.0)) && InTurn(text, es, items)
    requires forall i, e :: i in items && e in es && e.token == i.0 ==> e.raw == i.1
    requires forall e :: e in es ==> HasKey(items, e.token)
    ensures forall i :: i in items ==> i.0 != []
    ensures Unmask(Render(text, 0, es), items) == text
  {
    UnmaskRestores(text, es, items);
    var left := WithoutAll(es, items);
    forall e | e in left ensures e in es && HasKey(items, e.token) {}
    EmptyOrInhabited(left);
    assert left == [];
    assert text[0..] == text;
  }

  /** The order of the items does not matter: any list that covers the tokens consistently restores the text. */
  lemma UnmaskAnyOrder(text: string, es: seq<MaskedEntity>, items: seq<(string, string)>)
    requires Laid(text, 0, es) && forall e :: e in es ==> Bracketed(e.token)
    requires forall i :: i in items ==> Bracketed(i.0) && !Occurs(i.0, text)
    requires forall i, e :: i in items && e in es && e.token == i.0 ==> e.raw == i.1
    requires forall e :: e in es ==> HasKey(items, e.token)
    ensures forall i :: i in items ==> i.0 != []
    ensures Unmask(Render(text, 0, es), items) == text
  {
    AbsentInTurn(text, es, items);
    InTurnRestores(text, es, items);
  }

  // ---------------------------------------------------------------------------
  // When re-hydration fails: counting opening brackets
  // ---------------------------------------------------------------------------

  function Opens(s: string): nat {
    if s == [] then 0 else (if s[0] == '[' then 1 else 0) + Opens(s[1..])
  }

  /** The positions where t stands. */
  function Occurrences(s: string, t: string): nat {
    if s == [] then 0 else (if MatchesAt(s, t, 0) then 1 else 0) + Occurrences(s[1..], t)
  }

  lemma {:induction false} OpensOfSum(a: string, b: string)
    ensures Opens(a + b) == Opens(a) + Opens(b)
  {
    if a == [] {
      assert a + b == b;
    } else {
      assert (a + b)[1..] == a[1..] + b;
      OpensOfSum(a[1..], b);
    }
  }

  lemma {:induction false} OccurrencesOfSum(a: string, b: string, t: string)
    requires t != []
    ensures Occurrences(a + b, t) >= Occurrences(a, t) + Occurrences(b, t)
  {
    if a == [] {
      assert a + b == b;
    } else {
      assert (a + b)[1..] == a[1..] + b;
      assert MatchesAt(a, t, 0) ==> (a + b)[0..|t|] == a[0..|t|];
      OccurrencesOfSum(a[1..], b, t);
    }
  }

  /** Where nothing matches at the first positions, the occurrences are those further on. */
  lemma {:induction false} OccurrencesSkip(s: string, n: nat, t: string)
    requires t != [] && n <= |s| && forall i :: 0 <= i < n ==> !MatchesAt(s, t, i)
    ensures Occurrences(s, t) == Occurrences(s[n..], t)
  {
    if n > 0 {
      assert !MatchesAt(s, t, 0);
      forall i | 0 <= i < n - 1 ensures !MatchesAt(s[1..], t, i) {
        ShiftedMatch(s, t, i);
      }
      OccurrencesSkip(s[1..], n - 1, t);
      assert s[1..][n - 1..] == s[n..];
    }
  }

  lemma {:induction false} TooShort(s: string, t: string)
    requires |s| < |t|
    ensures Occurrences(s, t) == 0
  {
    if s != [] {
      TooShort(s[1..], t);
    }
  }

  lemma TokenOpensThere(s: string, t: string, i: nat)
    requires Bracketed(t)
    ensures MatchesAt(s, t, i) ==> s[i] == '['
  {
    if MatchesAt(s, t, i) {
      assert s[i..i + |t|][0] == s[i];
    }
  }

  lemma SameAtStart(s: string, t: string, u: string)
    requires Bracketed(t) && Bracketed(u) && MatchesAt(s, t, 0)
    ensures MatchesAt(s, u, 0) <==> t == u
  {
    if MatchesAt(s, u, 0) {
      assert s == [] + t + s[|t|..];
      NoMatchAcross([], t, s[|t|..], u, 0);
    }
  }

  /** No bracketed token starts inside another, so an occurrence at the start of a text counts once. */
  lemma OccurrencesPast(s: string, t: string, u: string)
    requires Bracketed(t) && Bracketed(u) && MatchesAt(s, t, 0)
    ensures Occurrences(s, u) == (if t == u then 1 else 0) + Occurrences(s[|t|..], u)
  {
    assert forall k :: 0 <= k < |t| ==> s[k] == s[0..|t|][k] == t[k];
    forall i | 0 <= i < |t| - 1 ensures !MatchesAt(s[1..], u, i) {
      TokenOpensThere(s[1..], u, i);
    }
    OccurrencesSkip(s[1..], |t| - 1, u);
    assert s[1..][|t| - 1..] == s[|t|..];
    SameAtStart(s, t, u);
  }

  lemma {:induction false} NoOpens(s: string)
    requires forall k :: 0 <= k < |s| ==> s[k] != '['
    ensures Opens(s) == 0
  {
    if s != [] {
      NoOpens(s[1..]);
    }
  }

  lemma BracketedOpensOnce(t: string)
    requires Bracketed(t)
    ensures Opens(t) == 1
  {
    NoOpens(t[1..]);
  }

  /** Replacing a token by a value without brackets takes away one opening bracket for every occurrence. */
  lemma {:induction false} OpensOfReplace(s: string, t: string, r: string)
    requires Bracketed(t) && Opens(r) == 0
    ensures Opens(Replace(s, t, r)) + Occurrences(s, t) == Opens(s)
    decreases |s|
  {
    if |s| < |t| {
      TooShort(s, t);
    } else if s[..|t|] == t {
      var rest := s[|t|..];
      assert s[0..|t|] == s[..|t|] && s == t + rest;
      OpensOfReplace(rest, t, r);
      OccurrencesPast(s, t, t);
      BracketedOpensOnce(t);
      OpensOfSum(t, rest);
      OpensOfSum(r, Replace(rest, t, r));
    } else {
      assert s[0..|t|] == s[..|t|];
      OpensOfReplace(s[1..], t, r);
      assert ([s[0]] + Replace(s[1..], t, r))[1..] == Replace(s[1..], t, r);
    }
  }

  lemma StartIsCopied(s: string, t: string, r: string, u: string)
    requires Bracketed(t) && Bracketed(u) && t != u
    ensures MatchesAt(s, u, 0) ==> MatchesAt(Replace(s, t, r), u, 0)
  {
    if MatchesAt(s, u, 0) {
      SameAtStart(s, u, t);
      assert forall k :: 0 <= k < |u| ==> s[k] == s[0..|u|][k] == u[k];
      forall i | 0 <= i < |u| ensures !MatchesAt(s, t, i) {
        TokenOpensThere(s, t, i);
      }
      ReplaceCopies(s, |u|, t, r);
      assert Replace(s, t, r)[0..|u|] == s[..|u|] == s[0..|u|];
    }
  }

  /** Replacing one token leaves every occurrence of another. */
  lemma {:induction false} OccurrencesSurvive(s: string, t: string, r: string, u: string)
    requires Bracketed(t) && Bracketed(u) && t != u
    ensures Occurrences(Replace(s, t, r), u) >= Occurrences(s, u)
    decreases |s|
  {
    if |s| >= |t| {
      assert s[0..|t|] == s[..|t|];
      if s[..|t|] == t {
        var rest := s[|t|..];
        OccurrencesPast(s, t, u);
        OccurrencesSurvive(rest, t, r, u);
        OccurrencesOfSum(r, Replace(rest, t, r), u);
      } else {
        var next := Replace(s[1..], t, r);
        OccurrencesSurvive(s[1..], t, r, u);
        assert ([s[0]] + next)[1..] == next;
        StartIsCopied(s, t, r, u);
      }
    }
  }

  ghost predicate DistinctKeys(items: seq<(string, string)>) {
    forall i, j :: 0 <= i < j < |items| ==> items[i].0 != items[j].0
  }

  /** Tokens for keys, values without brackets, no key twice. */
  ghost predicate TokenItems(items: seq<(string, string)>) {
    DistinctKeys(items) && forall i :: i in items ==> Bracketed(i.0) && Opens(i.1) == 0
  }

  /** Occurrences of all the keys. */
  function AllOccurrences(s: string, items: seq<(string, string)>): nat {
    if items == [] then 0
    else AllOccurrences(s, items[..|items| - 1]) + Occurrences(s, items[|items| - 1].0)
  }

  lemma {:induction false} KeySurvives(s: string, items: seq<(string, string)>, u: string)
    requires TokenItems(items) && Bracketed(u) && forall i :: i in items ==> i.0 != u
    ensures (forall i :: i in items ==> i.0 != []) && Occurrences(Unmask(s, items), u) >= Occurrences(s, u)
  {
    if items != [] {
      var init, last := items[..|items| - 1], items[|items| - 1];
      assert items == init + [last];
      KeySurvives(s, init, u);
      OccurrencesSurvive(Unmask(s, init), last.0, last.1, u);
    }
  }

  /** Re-hydration takes away at least one opening bracket for every occurrence of a key. */
  lemma {:induction false} OpensOfUnmask(s: string, items: seq<(string, string)>)
    requires TokenItems(items)
    ensures (forall i :: i in items ==> i.0 != []) && Opens(Unmask(s, items)) + AllOccurrences(s, items) <= Opens(s)
  {
    if items != [] {
      var init, last := items[..|items| - 1], items[|items| - 1];
      assert items == init + [last];
      OpensOfUnmask(s, init);
      KeySurvives(s, init, last.0);
      OpensOfReplace(Unmask(s, init), last.0, last.1);
    }
  }

  lemma {:induction false} AllOccurrencesOfSum(a: string, b: string, items: seq<(string, string)>)
    requires forall i :: i in items ==> i.0 != []
    ensures AllOccurrences(a + b, items) >= AllOccurrences(a, items) + AllOccurrences(b, items)
  {
    if items != [] {
      var init, last := items[..|items| - 1], items[|items| - 1];
      assert items == init + [last];
      AllOccurrencesOfSum(a, b, init);
      OccurrencesOfSum(a, b, last.0);
    }
  }

  lemma {:induction false} KeyIsCounted(s: string, items: seq<(string, string)>, t: string)
    requires HasKey(items, t) && Occurrences(s, t) > 0
    ensures AllOccurrences(s, items) > 0
  {
    var init, last := items[..|items| - 1], items[|items| - 1];
    assert items == init + [last];
    if last.0 != t {
      KeyIsCounted(s, init, t);
    }
  }

  lemma {:induction false} OccursIsCounted(s: string, t: string, p: nat)
    requires t != [] && MatchesAt(s, t, p)
    ensures Occurrences(s, t) > 0
  {
    if p > 0 {
      ShiftedMatch(s, t, p - 1);
      OccursIsCounted(s[1..], t, p - 1);
    }
  }

  lemma OccursCounts(s: string, items: seq<(string, string)>, t: string)
    requires Occurs(t, s) && t != [] && HasKey(items, t)
    ensures AllOccurrences(s, items) > 0
  {
    var p: nat :| p <= |s| && MatchesAt(s, t, p);
    OccursIsCounted(s, t, p);
    KeyIsCounted(s, items, t);
  }

  /** A rendering opens once more per entity than its text, and holds a key per entity, and one more in a gap. */
  lemma {:induction false} RenderingCounts(text: string, pos: nat, es: seq<MaskedEntity>, items: seq<(string, string)>, t: string)
    requires pos <= |text| && Laid(text, pos, es) && TokenItems(items) && HasKey(items, t) && Bracketed(t)
    requires forall e :: e in es ==> Bracketed(e.token) && Opens(e.raw) == 0 && HasKey(items, e.token)
    ensures Opens(Render(text, pos, es)) == Opens(text[pos..]) + |es|
    ensures AllOccurrences(Render(text, pos, es), items) >= |es| + if Clear(text, pos, es, t) then 0 else 1
    decreases |es|
  {
    assert forall i :: i in items ==> i.0 != [];
    if es == [] {
      if !Clear(text, pos, es, t) {
        OccursCounts(text[pos..], items, t);
      }
    } else {
      var e := es[0];
      assert e in es;
      var gap, rest := text[pos..e.start], Render(text, e.end, es[1..]);
      RenderingCounts(text, e.end, es[1..], items, t);
      assert text[pos..] == gap + e.raw + text[e.end..];
      OpensOfSum(gap + e.raw, text[e.end..]);
      OpensOfSum(gap, e.raw);
      OpensOfSum(gap + e.token, rest);
      OpensOfSum(gap, e.token);
      BracketedOpensOnce(e.token);
      AllOccurrencesOfSum(gap + e.token, rest, items);
      AllOccurrencesOfSum(gap, e.token, items);
      assert e.token[0..|e.token|] == e.token;
      OccursIsCounted(e.token, e.token, 0);
      KeyIsCounted(e.token, items, e.token);
      if Occurs(t, gap) {
        OccursCounts(gap, items, t);
      }
    }
  }

  /** If some key stands in a gap, the text is not restored: too many opening brackets are taken away. */
  lemma UnclearFails(text: string, es: seq<MaskedEntity>, items: seq<(string, string)>, t: string)
    requires Laid(text, 0, es) && TokenItems(items) && HasKey(items, t) && Bracketed(t) && !Clear(text, 0, es, t)
    requires forall e :: e in es ==> Bracketed(e.token) && Opens(e.raw) == 0 && HasKey(items, e.token)
    ensures (forall i :: i in items ==> i.0 != []) && Unmask(Render(text, 0, es), items) != text
  {
    RenderingCounts(text, 0, es, items, t);
    assert text[0..] == text;
    OpensOfUnmask(Render(text, 0, es), items);
  }

  lemma {:induction false} UnmaskSplits(s: string, a: seq<(string, string)>, b: seq<(string, string)>)
    requires forall i :: i in a + b ==> i.0 != []
    ensures (forall i :: i in a ==> i in a + b) && (forall i :: i in b ==> i in a + b)
    ensures Unmask(s, a + b) == Unmask(Unmask(s, a), b)
  {
    if b == [] {
      assert a + b == a;
    } else {
      var n := |b| - 1;
      assert (a + b)[..|a + b| - 1] == a + b[..n] && (a + b)[|a + b| - 1] == b[n];
      UnmaskSplits(s, a, b[..n]);
    }
  }

  /** The first token that does not meet its turn. */
  lemma {:induction false} FirstUnclear(text: string, es: seq<MaskedEntity>, items: seq<(string, string)>) returns (n: nat)
    requires Laid(text, 0, es) && !InTurn(text, es, items)
    ensures n < |items| && InTurn(text, es, items[..n]) && Laid(text, 0, WithoutAll(es, items[..n]))
    ensures !Clear(text, 0, WithoutAll(es, items[..n]), items[n].0)
  {
    var k := |items| - 1;
    WithoutAllIsLaid(text, es, items[..k]);
    if InTurn(text, es, items[..k]) {
      n := k;
    } else {
      n := FirstUnclear(text, es, items[..k]);
      assert items[..k][..n] == items[..n];
    }
  }

  lemma TokenItemsParts(items: seq<(string, string)>, n: nat)
    requires TokenItems(items) && n < |items|
    ensures items == items[..n] + items[n..] && TokenItems(items[n..]) && HasKey(items[n..], items[n].0)
    ensures (forall i :: i in items[..n] ==> i in items) && forall i :: i in items ==> Bracketed(i.0) && i.0 != []
    ensures Bracketed(items[n].0)
  {
    var later := items[n..];
    assert later[0] == items[n] && later[0] in later;
    assert forall k :: 0 <= k < |later| ==> later[k] == items[n + k];
  }

  lemma KeyIsLater(items: seq<(string, string)>, n: nat, t: string)
    requires n <= |items| && HasKey(items, t) && forall i :: i in items[..n] ==> t != i.0
    ensures HasKey(items[n..], t)
  {
    var i :| i in items && i.0 == t;
    assert items == items[..n] + items[n..];
  }

  lemma FailsFrom(text: string, es: seq<MaskedEntity>, items: seq<(string, string)>, n: nat)
    requires Laid(text, 0, es) && TokenItems(items) && n < |items| && InTurn(text, es, items[..n])
    requires forall e :: e in es ==> Bracketed(e.token) && Opens(e.raw) == 0 && HasKey(items, e.token)
    requires forall i, e :: i in items && e in es && e.token == i.0 ==> e.raw == i.1
    requires Laid(text, 0, WithoutAll(es, items[..n])) && !Clear(text, 0, WithoutAll(es, items[..n]), items[n].0)
    ensures (forall i :: i in items ==> i.0 != []) && Unmask(Render(text, 0, es), items) != text
  {
    hide Laid, Clear, InTurn, Render, Unmask, WithoutAll, Bracketed, Opens, HasKey, TokenItems;
    var done, later := items[..n], items[n..];
    var left := WithoutAll(es, done);
    TokenItemsParts(items, n);
    UnmaskRestores(text, es, done);
    UnmaskSplits(Render(text, 0, es), done, later);
    forall e | e in left ensures HasKey(later, e.token) {
      KeyIsLater(items, n, e.token);
    }
    UnclearFails(text, left, later, items[n].0);
  }

  /** Sequential replacement restores the text exactly when every token meets its turn. */
  lemma UnmaskRestoresIff(text: string, es: seq<MaskedEntity>, items: seq<(string, string)>)
    requires Laid(text, 0, es) && TokenItems(items)
    requires forall e :: e in es ==> Bracketed(e.token) && Opens(e.raw) == 0 && HasKey(items, e.token)
    requires forall i, e :: i in items && e in es && e.token == i.0 ==> e.raw == i.1
    ensures forall i :: i in items ==> i.0 != []
    ensures Unmask(Render(text, 0, es), items) == text <==> InTurn(text, es, items)
  {
    if InTurn(text, es, items) {
      InTurnRestores(text, es, items);
    } else {
      var n := FirstUnclear(text, es, items);
      FailsFrom(text, es, items, n);
    }
  }

  lemma {:induction false} AssignFacts(items: seq<(string, string)>, key: string, value: string)
    ensures HasKey(Assign(items, key, value), key)
    ensures forall i :: i in Assign(items, key, value) ==> i == (key, value) || i in items
    ensures forall k :: HasKey(items, k) ==> HasKey(Assign(items, key, value), k)
  {
    var r := Assign(items, key, value);
    if items == [] {
      assert (key, value) in r;
    } else if items[0].0 == key {
      assert (key, value) in r;
      forall k | HasKey(items, k) ensures HasKey(r, k) {
        var i :| i in items && i.0 == k;
        if k != key {
          assert i in items[1..] && i in r;
        }
      }
    } else {
      AssignFacts(items[1..], key, value);
      assert items[0] in r;
      forall k | HasKey(items, k) || k == key ensures HasKey(r, k) {
        if k != items[0].0 {
          assert k == key || HasKey(items[1..], k);
          var j :| j in Assign(items[1..], key, value) && j.0 == k;
          assert j in r;
        }
      }
    }
  }

  ghost predicate Carried(kept: seq<MaskedEntity>, item: (string, string)) {
    exists e :: e in kept && item == (e.token, e.raw)
  }

  /** The returned map holds exactly the kept tokens, each with the raw value of one entity that carries it. */
  lemma {:induction false} TokenMapFacts(kept: seq<MaskedEntity>)
    ensures forall i :: i in TokenMap(kept) ==> Carried(kept, i)
    ensures forall e :: e in kept ==> HasKey(TokenMap(kept), e.token)
  {
    if kept != [] {
      var init, last := kept[..|kept| - 1], kept[|kept| - 1];
      assert kept == init + [last];
      TokenMapFacts(init);
      AssignFacts(TokenMap(init), last.token, last.raw);
      forall i | i in TokenMap(kept) ensures Carried(kept, i) {
        if i in TokenMap(init) {
          var e :| e in init && i == (e.token, e.raw);
          assert e in kept;
        } else {
          assert last in kept;
        }
      }
    }
  }

  /** The digest never maps two different detected values of one type to one string. */
  ghost predicate CollisionFree(text: string, hits: seq<Hit>, digest: Digest) {
    forall h, g :: h in hits && g in hits && h.kind == g.kind ==>
      digest(Strip(RawOf(text, h))) == digest(Strip(RawOf(text, g))) ==> RawOf(text, h) == RawOf(text, g)
  }

  /** What unmask_text gives on the two results of mask_text. */
  function MaskThenUnmask(text: string, hits: seq<Hit>, digest: Digest): string
    requires forall h :: h in hits ==> InText(text, h)
  {
    var kept := Keep(Detected(text, hits, digest));
    KeptIsSpliceable(text, hits, digest);
    TokenMapFacts(kept);
    Unmask(MaskedText(text, kept), TokenMap(kept))
  }

  /** Masking then unmasking with the returned map gives the text back. */
  lemma MaskRoundTrip(text: string, hits: seq<Hit>, digest: Digest)
    requires forall h :: h in hits ==> InText(text, h)
    requires IsHexDigest(digest) && CollisionFree(text, hits, digest)
    requires forall i :: i in TokenMap(Keep(Detected(text, hits, digest))) ==> !Occurs(i.0, text)
    ensures MaskThenUnmask(text, hits, digest) == text
  {
    KeptIsSpliceable(text, hits, digest);
    var kept := Keep(Detected(text, hits, digest));
    TokenMapFacts(kept);
    EqualTokensEqualRaws(text, hits, digest, kept);
    KeptRoundTrip(text, kept);
  }

  /** Collision freedom makes the token of a kept entity determine its raw value. */
  lemma EqualTokensEqualRaws(text: string, hits: seq<Hit>, digest: Digest, kept: seq<MaskedEntity>)
    requires forall h :: h in hits ==> InText(text, h)
    requires IsHexDigest(digest) && CollisionFree(text, hits, digest)
    requires forall k :: k in kept ==> FromHit(text, hits, digest, k)
    ensures forall e :: e in kept ==> Bracketed(e.token)
    ensures forall e, f :: e in kept && f in kept && e.token == f.token ==> e.raw == f.raw
  {
    forall e | e in kept ensures Bracketed(e.token) {
      TokenIsBracketed(e.kind, e.raw, digest);
    }
    forall e, f | e in kept && f in kept && e.token == f.token ensures e.raw == f.raw {
      TokensCoincide(e.kind, e.raw, f.kind, f.raw, digest);
      var h :| h in hits && e == EntityOf(text, h, digest);
      var g :| g in hits && f == EntityOf(text, g, digest);
    }
  }

  lemma ReversedMembers(kept: seq<MaskedEntity>)
    ensures forall e :: e in Reversed(kept) <==> e in kept
  {
    forall e | e in kept ensures e in Reversed(kept) {
      var i :| 0 <= i < |kept| && kept[i] == e;
      assert Reversed(kept)[|kept| - 1 - i] == e;
    }
  }

  lemma KeptRoundTrip(text: string, kept: seq<MaskedEntity>)
    requires Spliceable(text, kept) && forall e :: e in kept ==> Bracketed(e.token)
    requires forall e, f :: e in kept && f in kept && e.token == f.token ==> e.raw == f.raw
    requires forall i :: i in TokenMap(kept) ==> !Occurs(i.0, text)
    ensures forall i :: i in TokenMap(kept) ==> i.0 != []
    ensures Unmask(MaskedText(text, kept), TokenMap(kept)) == text
  {
    TokenMapFacts(kept);
    ReversedIsLaid(text, kept);
    var es := Reversed(kept);
    ReversedMembers(kept);
    UnmaskAnyOrder(text, es, TokenMap(kept));
  }

  /** Among all detected spans, no pairwise disjoint choice is larger than what mask_text replaces. */
  lemma MaskReplacesMaximum(text: string, hits: seq<Hit>, digest: Digest, other: set<MaskedEntity>)
    requires forall h :: h in hits ==> InText(text, h)
    requires forall e :: e in other ==> FromHit(text, hits, digest, e)
    requires PairwiseDisjoint(other)
    ensures |other| <= |Keep(Detected(text, hits, digest))|
  {
    DetectedMembers(text, hits, digest);
    KeepIsMaximum(Detected(text, hits, digest), other);
  }

  // ---------------------------------------------------------------------------
  // Exactly when the round trip holds
  // ---------------------------------------------------------------------------

  /** t stands in the text at p, touching none of the entities. */
  predicate StandsClear(text: string, es: seq<MaskedEntity>, t: string, p: nat) {
    MatchesAt(text, t, p) && forall e :: e in es ==> p + |t| <= e.start || e.end <= p
  }

  lemma {:induction false} LaidAfter(text: string, pos: nat, es: seq<MaskedEntity>)
    requires Laid(text, pos, es)
    ensures forall e :: e in es ==> pos <= e.start
    decreases |es|
  {
    if es != [] {
      LaidAfter(text, es[0].end, es[1..]);
      assert es == [es[0]] + es[1..];
    }
  }

  lemma OccursBetweenIff(text: string, lo: nat, hi: nat, t: string)
    requires lo <= hi <= |text|
    ensures Occurs(t, text[lo..hi]) <==> exists p: nat :: lo <= p && MatchesAt(text, t, p) && p + |t| <= hi
  {
    if Occurs(t, text[lo..hi]) {
      var i: nat :| i <= |text[lo..hi]| && MatchesAt(text[lo..hi], t, i);
      SliceInside(text, lo, hi, i, i + |t|);
      assert MatchesAt(text, t, lo + i);
    }
    if p: nat :| lo <= p && MatchesAt(text, t, p) && p + |t| <= hi {
      SliceInside(text, lo, hi, p - lo, p - lo + |t|);
      assert MatchesAt(text[lo..hi], t, p - lo);
    }
  }

  lemma OccursFromIff(text: string, lo: nat, t: string)
    requires lo <= |text|
    ensures Occurs(t, text[lo..]) <==> exists p: nat :: lo <= p && MatchesAt(text, t, p)
  {
    assert text[lo..|text|] == text[lo..];
    OccursBetweenIff(text, lo, |text|, t);
  }

  /** Standing in no gap is touching some entity wherever it stands. */
  lemma {:induction false} ClearIff(text: string, pos: nat, es: seq<MaskedEntity>, t: string)
    requires pos <= |text| && Laid(text, pos, es) && t != []
    ensures Clear(text, pos, es, t) <==> forall p: nat :: pos <= p ==> !StandsClear(text, es, t, p)
    decreases |es|
  {
    if es == [] {
      OccursFromIff(text, pos, t);
      assert forall p: nat :: StandsClear(text, es, t, p) <==> MatchesAt(text, t, p);
    } else {
      var e, rest := es[0], es[1..];
      ClearIff(text, e.end, rest, t);
      OccursBetweenIff(text, pos, e.start, t);
      LaidAfter(text, e.end, rest);
      assert es == [e] + rest;
      forall p: nat | pos <= p
        ensures StandsClear(text, es, t, p) <==>
          (MatchesAt(text, t, p) && p + |t| <= e.start) || (e.end <= p && StandsClear(text, rest, t, p))
      {
        assert MatchesAt(text, t, p) && p + |t| <= e.start ==> forall f :: f in es ==> p + |t| <= f.start || f.end <= p;
      }
    }
  }

  /** The j-th token of the map stands in the text where it touches no kept span but those of earlier tokens. */
  predicate Quoted(text: string, kept: seq<MaskedEntity>, items: seq<(string, string)>, j: nat, p: nat)
    requires j < |items|
  {
    && MatchesAt(text, items[j].0, p)
    && forall e :: e in kept && (forall k :: 0 <= k < j ==> items[k].0 != e.token) ==>
         p + |items[j].0| <= e.start || e.end <= p
  }

  ghost predicate NotQuoted(text: string, kept: seq<MaskedEntity>, items: seq<(string, string)>, j: nat)
    requires j < |items|
  {
    forall p: nat :: !Quoted(text, kept, items, j, p)
  }

  ghost predicate NothingQuoted(text: string, kept: seq<MaskedEntity>, items: seq<(string, string)>) {
    forall j :: 0 <= j < |items| ==> NotQuoted(text, kept, items, j)
  }

  lemma {:induction false} WithoutAllMembers(es: seq<MaskedEntity>, items: seq<(string, string)>)
    ensures forall e :: e in WithoutAll(es, items) <==> e in es && forall k :: 0 <= k < |items| ==> items[k].0 != e.token
  {
    if items != [] {
      var n := |items| - 1;
      WithoutAllMembers(es, items[..n]);
      WithoutMembers(WithoutAll(es, items[..n]), items[n].0);
      assert forall k :: 0 <= k < n ==> items[..n][k] == items[k];
    }
  }

  lemma LastQuotedIff(text: string, es: seq<MaskedEntity>, items: seq<(string, string)>, p: nat)
    requires items != []
    ensures Quoted(text, es, items, |items| - 1, p)
            <==> StandsClear(text, WithoutAll(es, items[..|items| - 1]), items[|items| - 1].0, p)
  {
    WithoutAllMembers(es, items[..|items| - 1]);
    assert forall k :: 0 <= k < |items| - 1 ==> items[..|items| - 1][k] == items[k];
  }

  lemma QuotedPrefix(text: string, es: seq<MaskedEntity>, items: seq<(string, string)>)
    requires items != []
    ensures NothingQuoted(text, es, items) <==>
      (NothingQuoted(text, es, items[..|items| - 1]) && NotQuoted(text, es, items, |items| - 1))
  {
    var n := |items| - 1;
    forall j, p: nat | 0 <= j < n ensures Quoted(text, es, items[..n], j, p) <==> Quoted(text, es, items, j, p) {
      assert forall k :: 0 <= k <= j ==> items[..n][k] == items[k];
    }
    assert forall j :: 0 <= j < n ==> (NotQuoted(text, es, items[..n], j) <==> NotQuoted(text, es, items, j));
  }

  lemma {:induction false} InTurnIff(text: string, es: seq<MaskedEntity>, items: seq<(string, string)>)
    requires Laid(text, 0, es) && forall i :: i in items ==> i.0 != []
    ensures InTurn(text, es, items) <==> NothingQuoted(text, es, items)
  {
    if items != [] {
      var n := |items| - 1;
      var init, t := items[..n], items[n].0;
      assert items == init + [items[n]];
      InTurnIff(text, es, init);
      WithoutAllIsLaid(text, es, init);
      WithoutAllMembers(es, init);
      ClearIff(text, 0, WithoutAll(es, init), t);
      forall p: nat ensures Quoted(text, es, items, n, p) <==> StandsClear(text, WithoutAll(es, init), t, p) {
        LastQuotedIff(text, es, items, p);
      }
      QuotedPrefix(text, es, items);
    }
  }

  lemma FirstKeyIsAlone(items: seq<(string, string)>)
    requires DistinctKeys(items) && items != []
    ensures DistinctKeys(items[1..]) && forall i :: i in items[1..] ==> i.0 != items[0].0
  {
    assert forall k :: 0 <= k < |items[1..]| ==> items[1..][k] == items[k + 1];
  }

  lemma FirstKeyAdded(first: (string, string), rest: seq<(string, string)>)
    requires DistinctKeys(rest) && forall i :: i in rest ==> i.0 != first.0
    ensures DistinctKeys([first] + rest)
  {
    var all := [first] + rest;
    forall i, j | 0 <= i < j < |all| ensures all[i].0 != all[j].0 {
      assert all[j] == rest[j - 1] && rest[j - 1] in rest;
      assert i > 0 ==> all[i] == rest[i - 1];
    }
  }

  lemma {:induction false} AssignKeepsKeys(items: seq<(string, string)>, key: string, value: string)
    requires DistinctKeys(items)
    ensures DistinctKeys(Assign(items, key, value))
    ensures forall i :: i in Assign(items, key, value) ==> i.0 == key || i in items
  {
    if items == [] {
    } else {
      FirstKeyIsAlone(items);
      assert forall i :: i in items[1..] ==> i in items;
      hide DistinctKeys;
      if items[0].0 == key {
        FirstKeyAdded((key, value), items[1..]);
      } else {
        AssignKeepsKeys(items[1..], key, value);
        FirstKeyAdded(items[0], Assign(items[1..], key, value));
      }
    }
  }

  lemma {:induction false} TokenMapIsItems(kept: seq<MaskedEntity>)
    requires forall e :: e in kept ==> Bracketed(e.token) && Opens(e.raw) == 0
    ensures TokenItems(TokenMap(kept))
  {
    if kept != [] {
      var init, last := kept[..|kept| - 1], kept[|kept| - 1];
      assert kept == init + [last];
      TokenMapIsItems(init);
      AssignKeepsKeys(TokenMap(init), last.token, last.raw);
      AssignFacts(TokenMap(init), last.token, last.raw);
    }
  }

  predicate PlainSpan(text: string, h: Hit)
    requires InText(text, h)
  {
    forall k :: h.start <= k < h.end ==> text[k] != '['
  }

  /** No detector matches a bracket. */
  ghost predicate BracketFree(text: string, hits: seq<Hit>)
    requires forall h :: h in hits ==> InText(text, h)
  {
    forall h :: h in hits ==> PlainSpan(text, h)
  }

  lemma RawHasNoBracket(text: string, h: Hit)
    requires InText(text, h) && PlainSpan(text, h)
    ensures Opens(RawOf(text, h)) == 0
  {
    var raw := RawOf(text, h);
    assert forall k :: 0 <= k < |raw| ==> raw[k] == text[h.start + k];
    NoOpens(raw);
  }

  lemma SameMembersQuote(
    text: string, es: seq<MaskedEntity>, kept: seq<MaskedEntity>, items: seq<(string, string)>, j: nat, p: nat)
    requires j < |items| && forall e :: e in es <==> e in kept
    ensures Quoted(text, es, items, j, p) <==> Quoted(text, kept, items, j, p)
  {
  }

  lemma KeptRoundTripIff(text: string, kept: seq<MaskedEntity>)
    requires Spliceable(text, kept) && forall e :: e in kept ==> Bracketed(e.token) && Opens(e.raw) == 0
    requires forall e, f :: e in kept && f in kept && e.token == f.token ==> e.raw == f.raw
    ensures forall i :: i in TokenMap(kept) ==> i.0 != []
    ensures Unmask(MaskedText(text, kept), TokenMap(kept)) == text <==> NothingQuoted(text, kept, TokenMap(kept))
  {
    hide Laid, InTurn, Unmask, TokenMap, Reversed, Bracketed, Opens, HasKey, TokenItems, Quoted, Render, Spliceable;
    var es, items := Reversed(kept), TokenMap(kept);
    TokenMapFacts(kept);
    TokenMapIsItems(kept);
    ReversedIsLaid(text, kept);
    ReversedMembers(kept);
    UnmaskRestoresIff(text, es, items);
    InTurnIff(text, es, items);
    forall j | 0 <= j < |items| ensures NotQuoted(text, es, items, j) <==> NotQuoted(text, kept, items, j) {
      forall p: nat ensures Quoted(text, es, items, j, p) <==> Quoted(text, kept, items, j, p) {
        SameMembersQuote(text, es, kept, items, j, p);
      }
    }
  }

  /**
   * Masking then unmasking gives the text back exactly when no token of the map stands in the text in a place that
   * touches no kept span but those restored before its turn.
   */
  lemma MaskRoundTripIff(text: string, hits: seq<Hit>, digest: Digest)
    requires forall h :: h in hits ==> InText(text, h)
    requires IsHexDigest(digest) && CollisionFree(text, hits, digest) && BracketFree(text, hits)
    ensures var kept := Keep(Detected(text, hits, digest));
            MaskThenUnmask(text, hits, digest) == text <==> NothingQuoted(text, kept, TokenMap(kept))
  {
    var kept := Keep(Detected(text, hits, digest));
    KeptIsSpliceable(text, hits, digest);
    TokenMapFacts(kept);
    EqualTokensEqualRaws(text, hits, digest, kept);
    forall e | e in kept ensures Opens(e.raw) == 0 {
      assert FromHit(text, hits, digest, e);
      var h :| h in hits && e == EntityOf(text, h, digest);
      RawHasNoBracket(text, h);
    }
    KeptRoundTripIff(text, kept);
  }

  /** A text that quotes one of the tokens it is masked with, away from every kept span, is not restored. */
  lemma QuotedTokenIsNotRestored(text: string, hits: seq<Hit>, digest: Digest, j: nat, p: nat)
    requires forall h :: h in hits ==> InText(text, h)
    requires IsHexDigest(digest) && CollisionFree(text, hits, digest) && BracketFree(text, hits)
    ensures var kept := Keep(Detected(text, hits, digest));
            j < |TokenMap(kept)| && StandsClear(text, kept, TokenMap(kept)[j].0, p)
            ==> MaskThenUnmask(text, hits, digest) != text
  {
    var kept := Keep(Detected(text, hits, digest));
    MaskRoundTripIff(text, hits, digest);
    if j < |TokenMap(kept)| && StandsClear(text, kept, TokenMap(kept)[j].0, p) {
      assert Quoted(text, kept, TokenMap(kept), j, p);
      assert !NotQuoted(text, kept, TokenMap(kept), j);
    }
  }
}
