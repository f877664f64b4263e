/** Clause alignment and risk rating between two documents. */
module DiffEngine {
  import opened Common

  datatype Clause = Clause(name: string, text: string)

  /** The text primitives: the token set of a text, lower-casing, and whether a high-risk keyword occurs. */
  datatype Lexer = Lexer(tokens: string -> set<string>, lower: string -> string, risky: string -> bool)

  datatype Change = Unmodified | Added | Removed | Modified | ObligationAltered

  datatype Severity = Critical | Moderate | NoRisk

  datatype Rating = High | Medium | Low

  /** A clause's own name, or its number where it has none. */
  datatype SectionName = Named(name: string) | Section(number: nat) | NewSection(number: nat)

  datatype ClauseDiff = ClauseDiff(
    section: SectionName, change: Change, severity: Severity, source: Option<string>, target: Option<string>, similarity: real)

  datatype DiffResult = DiffResult(rating: Rating, added: nat, removed: nat, modified: nat, clauses: seq<ClauseDiff>)

  // ---------------------------------------------------------------------------
  // Similarity
  // ---------------------------------------------------------------------------

  /** Jaccard similarity of the token sets; two texts without tokens are alike. */
  function TokenSimilarity(lx: Lexer, a: string, b: string): real {
    var ta, tb := lx.tokens(a), lx.tokens(b);
    if ta == {} && tb == {} then 1.0
    else if ta == {} || tb == {} then 0.0
    else |ta * tb| as real / |ta + tb| as real
  }

  function Min(a: real, b: real): real {
    if a <= b then a else b
  }

  /** Equal names, other than the default one, add a quarter. */
  function Similarity(lx: Lexer, s: Clause, t: Clause): real {
    var sim := TokenSimilarity(lx, s.text, t.text);
    if s.name != "" && t.name != "" && lx.lower(s.name) == lx.lower(t.name) && lx.lower(s.name) != "general"
    then Min(1.0, sim + 0.25) else sim
  }

  lemma TokenSimilarityBounds(lx: Lexer, a: string, b: string)
    ensures 0.0 <= TokenSimilarity(lx, a, b) <= 1.0
    ensures TokenSimilarity(lx, a, b) == TokenSimilarity(lx, b, a)
    ensures TokenSimilarity(lx, a, b) == 1.0 <==> lx.tokens(a) == lx.tokens(b)
  {
    var ta, tb := lx.tokens(a), lx.tokens(b);
    assert ta * tb == tb * ta && ta + tb == tb + ta;
    if ta != {} && tb != {} {
      var both, either := ta * tb, ta + tb;
      SubsetSize(both, either);
      var x :| x in ta;
      assert x in either;
      RatioBounds(|both|, |either|);
      if |both| == |either| {
        assert both == either;
      }
    }
  }

  lemma {:induction false} SubsetSize<T>(a: set<T>, b: set<T>)
    requires a <= b
    ensures |a| <= |b| && (|a| == |b| ==> a == b)
  {
    assert |b - a| == |b| - |a| by {
      assert b == a + (b - a);
    }
  }

  lemma RatioBounds(x: nat, y: nat)
    requires x <= y && y > 0
    ensures 0.0 <= x as real / y as real <= 1.0
    ensures x as real / y as real == 1.0 <==> x == y
  {
    var r, b := x as real / y as real, y as real;
    assert r * b == x as real;
    SignOfProduct(r, b);
    assert (r - 1.0) * b == r * b - b;
    SignOfProduct(r - 1.0, b);
  }

  lemma SignOfProduct(d: real, b: real)
    requires b > 0.0
    ensures (d > 0.0 <==> d * b > 0.0) && (d == 0.0 <==> d * b == 0.0)
  {
  }

  lemma SimilarityBounds(lx: Lexer, s: Clause, t: Clause)
    ensures 0.0 <= Similarity(lx, s, t) <= 1.0 && Similarity(lx, s, s) == 1.0
  {
    TokenSimilarityBounds(lx, s.text, t.text);
    TokenSimilarityBounds(lx, s.text, s.text);
  }

  // ---------------------------------------------------------------------------
  // Alignment
  // ---------------------------------------------------------------------------

  /** The first unmatched target among the first n with the highest positive similarity, or -1. */
  function Best(lx: Lexer, s: Clause, ts: seq<Clause>, matched: set<int>, n: nat): int
    requires n <= |ts|
    ensures -1 <= Best(lx, s, ts, matched, n) < n
  {
    if n == 0 then -1
    else
      var b := Best(lx, s, ts, matched, n - 1);
      if n - 1 in matched || Similarity(lx, s, ts[n - 1]) <= Score(lx, s, ts, b) then b else n - 1
  }

  function Score(lx: Lexer, s: Clause, ts: seq<Clause>, k: int): real {
    if 0 <= k < |ts| then Similarity(lx, s, ts[k]) else 0.0
  }

  /** What a source clause is aligned with, given the targets taken before it: an index, or -1. */
  function Match(lx: Lexer, s: Clause, ts: seq<Clause>, matched: set<int>): int {
    var b := Best(lx, s, ts, matched, |ts|);
    if b != -1 && Score(lx, s, ts, b) >= 0.25 then b else -1
  }

  function Taken(alignment: seq<int>): set<int> {
    set k | k in alignment && k >= 0
  }

  /** The greedy alignment: for every source clause in order, its target or -1. */
  function Alignment(lx: Lexer, ss: seq<Clause>, ts: seq<Clause>): (r: seq<int>)
    ensures |r| == |ss|
  {
    if ss == [] then []
    else
      var n := |ss| - 1;
      var before := Alignment(lx, ss[..n], ts);
      before + [Match(lx, ss[n], ts, Taken(before))]
  }

  /** k is the most similar target of s outside `taken`, the first of equals, and similar enough. */
  ghost predicate IsBestFree(lx: Lexer, s: Clause, ts: seq<Clause>, taken: set<int>, k: int) {
    && 0 <= k < |ts| && k !in taken && Similarity(lx, s, ts[k]) >= 0.25
    && forall j :: 0 <= j < |ts| && j !in taken ==>
         Similarity(lx, s, ts[j]) < Similarity(lx, s, ts[k]) || (Similarity(lx, s, ts[j]) == Similarity(lx, s, ts[k]) && k <= j)
  }

  ghost predicate NoneFree(lx: Lexer, s: Clause, ts: seq<Clause>, taken: set<int>) {
    forall j :: 0 <= j < |ts| && j !in taken ==> Similarity(lx, s, ts[j]) < 0.25
  }

  lemma {:induction false} BestFacts(lx: Lexer, s: Clause, ts: seq<Clause>, matched: set<int>, n: nat)
    requires n <= |ts|
    ensures var b := Best(lx, s, ts, matched, n);
            && (b >= 0 ==> b !in matched && Score(lx, s, ts, b) > 0.0)
            && forall j :: 0 <= j < n && j !in matched ==>
                 Score(lx, s, ts, j) < Score(lx, s, ts, b) || (Score(lx, s, ts, j) == Score(lx, s, ts, b) && b <= j)
  {
    if n > 0 {
      BestFacts(lx, s, ts, matched, n - 1);
      SimilarityBounds(lx, s, ts[n - 1]);
    }
  }

  lemma MatchIsBestFree(lx: Lexer, s: Clause, ts: seq<Clause>, taken: set<int>)
    ensures var k := Match(lx, s, ts, taken);
            if k >= 0 then IsBestFree(lx, s, ts, taken, k) else k == -1 && NoneFree(lx, s, ts, taken)
  {
    BestFacts(lx, s, ts, taken, |ts|);
    forall j | 0 <= j < |ts| ensures Score(lx, s, ts, j) == Similarity(lx, s, ts[j]) {}
  }

  /** The i-th choice is the best target left by the choices before it, or no target left is similar enough. */
  ghost predicate GoodChoice(lx: Lexer, ss: seq<Clause>, ts: seq<Clause>, a: seq<int>, i: nat)
    requires i < |a| == |ss|
  {
    if a[i] >= 0 then IsBestFree(lx, ss[i], ts, Taken(a[..i]), a[i])
    else a[i] == -1 && NoneFree(lx, ss[i], ts, Taken(a[..i]))
  }

  lemma {:induction false} ChoicesAreGood(lx: Lexer, ss: seq<Clause>, ts: seq<Clause>, i: nat)
    requires i < |ss|
    ensures GoodChoice(lx, ss, ts, Alignment(lx, ss, ts), i)
  {
    var n := |ss| - 1;
    var before, a := Alignment(lx, ss[..n], ts), Alignment(lx, ss, ts);
    if i < n {
      ChoicesAreGood(lx, ss[..n], ts, i);
      assert a[..i] == before[..i] && a[i] == before[i] && ss[..n][i] == ss[i];
    } else {
      MatchIsBestFree(lx, ss[n], ts, Taken(before));
      assert a[..n] == before;
    }
  }

  /** The alignment is a partial matching that never reuses a target, and each choice is the best one left. */
  lemma AlignmentIsGreedyMatching(lx: Lexer, ss: seq<Clause>, ts: seq<Clause>)
    ensures var a := Alignment(lx, ss, ts);
            && (forall i, j :: 0 <= i < j < |a| && a[i] >= 0 ==> a[i] != a[j])
            && (forall i :: 0 <= i < |a| ==> GoodChoice(lx, ss, ts, a, i))
  {
    var a := Alignment(lx, ss, ts);
    forall i | 0 <= i < |a| ensures GoodChoice(lx, ss, ts, a, i) {
      ChoicesAreGood(lx, ss, ts, i);
    }
    forall i, j | 0 <= i < j < |a| && a[i] >= 0 ensures a[i] != a[j] {
      assert GoodChoice(lx, ss, ts, a, j);
      assert a[..j][i] == a[i];
    }
  }

  // ---------------------------------------------------------------------------
  // Clause results
  // ---------------------------------------------------------------------------

  function NameOr(name: string, other: SectionName): SectionName {
    if name != "" then Named(name) else other
  }

  function SourceDiff(lx: Lexer, s: Clause, i: nat, ts: seq<Clause>, k: int): ClauseDiff {
    if 0 <= k < |ts| then
      var t, sim := ts[k], Similarity(lx, s, ts[k]);
      var name := NameOr(s.name, NameOr(t.name, Section(i + 1)));
      if sim > 0.95 then ClauseDiff(name, Unmodified, NoRisk, Some(s.text), Some(t.text), sim)
      else if lx.risky(s.text) || lx.risky(t.text)
      then ClauseDiff(name, ObligationAltered, Critical, Some(s.text), Some(t.text), sim)
      else ClauseDiff(name, Modified, Moderate, Some(s.text), Some(t.text), sim)
    else
      ClauseDiff(NameOr(s.name, Section(i + 1)), Removed, if lx.risky(s.text) then Critical else Moderate, Some(s.text), None, 0.0)
  }

  function SourceDiffs(lx: Lexer, ss: seq<Clause>, ts: seq<Clause>): seq<ClauseDiff> {
    if ss == [] then []
    else
      var n := |ss| - 1;
      SourceDiffs(lx, ss[..n], ts) + [SourceDiff(lx, ss[n], n, ts, Alignment(lx, ss, ts)[n])]
  }

  function AddedDiff(lx: Lexer, t: Clause, k: nat): ClauseDiff {
    ClauseDiff(NameOr(t.name, NewSection(k + 1)), Added, if lx.risky(t.text) then Critical else Moderate, None, Some(t.text), 0.0)
  }

  function AddedDiffs(lx: Lexer, ts: seq<Clause>, taken: set<int>, n: nat): seq<ClauseDiff>
    requires n <= |ts|
  {
    if n == 0 then []
    else AddedDiffs(lx, ts, taken, n - 1) + if n - 1 in taken then [] else [AddedDiff(lx, ts[n - 1], n - 1)]
  }

  /** The running maximum: only a modified clause raises it to moderate, and any critical one to critical. */
  function Worst(cs: seq<ClauseDiff>): Severity {
    if cs == [] then NoRisk
    else
      var w, c := Worst(cs[..|cs| - 1]), cs[|cs| - 1];
      if c.severity.Critical? then Critical
      else if c.change.Modified? && !w.Critical? then Moderate
      else w
  }

  function Rate(worst: Severity): Rating {
    match worst
    case Critical => High
    case Moderate => Medium
    case NoRisk => Low
  }

  function Count(cs: seq<ClauseDiff>, changes: set<Change>): nat {
    if cs == [] then 0
    else Count(cs[..|cs| - 1], changes) + if cs[|cs| - 1].change in changes then 1 else 0
  }

  function AllDiffs(lx: Lexer, ss: seq<Clause>, ts: seq<Clause>): seq<ClauseDiff> {
    SourceDiffs(lx, ss, ts) + AddedDiffs(lx, ts, Taken(Alignment(lx, ss, ts)), |ts|)
  }

  function ClauseDiffResult(lx: Lexer, ss: seq<Clause>, ts: seq<Clause>): DiffResult {
    var cs := AllDiffs(lx, ss, ts);
    DiffResult(Rate(Worst(cs)), Count(cs, {Added}), Count(cs, {Removed}), Count(cs, {Modified, ObligationAltered}), cs)
  }

  // ---------------------------------------------------------------------------
  // compute_clause_diff
  // ---------------------------------------------------------------------------

  method FindBest(lx: Lexer, s: Clause, ts: seq<Clause>, matched: set<int>) returns (best: int, sim: real)
    ensures best == Best(lx, s, ts, matched, |ts|) && sim == Score(lx, s, ts, best)
  {
    best, sim := -1, 0.0;
    for k := 0 to |ts|
      invariant best == Best(lx, s, ts, matched, k) && sim == Score(lx, s, ts, best)
    {
      if k !in matched {
        var next := Similarity(lx, s, ts[k]);
        if next > sim {
          best, sim := k, next;
        }
      }
    }
  }

  /** One source clause: its result, and the target it takes. */
  method AlignClause(lx: Lexer, s: Clause, i: nat, ts: seq<Clause>, matched: set<int>)
    returns (clause: ClauseDiff, taken: set<int>)
    ensures var k := Match(lx, s, ts, matched);
            clause == SourceDiff(lx, s, i, ts, k) && taken == matched + if k >= 0 then {k} else {}
  {
    var best, sim := FindBest(lx, s, ts, matched);
    MatchIsBestFree(lx, s, ts, matched);
    taken := matched;
    if best != -1 && sim >= 0.25 {
      taken := matched + {best};
      var t := ts[best];
      var change, risk := Unmodified, NoRisk;
      if sim <= 0.95 {
        change, risk := Modified, Moderate;
        if lx.risky(s.text) || lx.risky(t.text) {
          change, risk := ObligationAltered, Critical;
        }
      }
      clause := ClauseDiff(NameOr(s.name, NameOr(t.name, Section(i + 1))), change, risk, Some(s.text), Some(t.text), sim);
    } else {
      var risk := if lx.risky(s.text) then Critical else Moderate;
      clause := ClauseDiff(NameOr(s.name, Section(i + 1)), Removed, risk, Some(s.text), None, 0.0);
    }
  }

  /** The counters and the running maximum over the clauses produced so far. */
  datatype Tally = Tally(added: nat, removed: nat, modified: nat, worst: Severity) {
    function Include(c: ClauseDiff): Tally {
      Tally(
        added + if c.change.Added? then 1 else 0,
        removed + if c.change.Removed? then 1 else 0,
        modified + if c.change.Modified? || c.change.ObligationAltered? then 1 else 0,
        if c.severity.Critical? then Critical
        else if c.change.Modified? && !worst.Critical? then Moderate else worst)
    }
  }

  function TallyOf(cs: seq<ClauseDiff>): Tally {
    Tally(Count(cs, {Added}), Count(cs, {Removed}), Count(cs, {Modified, ObligationAltered}), Worst(cs))
  }

  lemma TallyStep(cs: seq<ClauseDiff>, c: ClauseDiff)
    ensures TallyOf(cs + [c]) == TallyOf(cs).Include(c)
  {
    CountStep(cs, c, {Added});
    CountStep(cs, c, {Removed});
    CountStep(cs, c, {Modified, ObligationAltered});
    assert (cs + [c])[..|cs|] == cs;
  }

  lemma SourceStep(lx: Lexer, ss: seq<Clause>, ts: seq<Clause>, i: nat)
    requires i < |ss|
    ensures var taken := Taken(Alignment(lx, ss[..i], ts));
            var k := Match(lx, ss[i], ts, taken);
            && SourceDiffs(lx, ss[..i + 1], ts) == SourceDiffs(lx, ss[..i], ts) + [SourceDiff(lx, ss[i], i, ts, k)]
            && Taken(Alignment(lx, ss[..i + 1], ts)) == taken + if k >= 0 then {k} else {}
  {
    var next := ss[..i + 1];
    assert next[..i] == ss[..i] && next[i] == ss[i];
    var before := Alignment(lx, ss[..i], ts);
    TakenGrows(before, Match(lx, ss[i], ts, Taken(before)));
  }

  method AlignSources(lx: Lexer, ss: seq<Clause>, ts: seq<Clause>)
    returns (clauses: seq<ClauseDiff>, matched: set<int>, tally: Tally)
    ensures clauses == SourceDiffs(lx, ss, ts) && matched == Taken(Alignment(lx, ss, ts)) && tally == TallyOf(clauses)
  {
    clauses, matched, tally := [], {}, Tally(0, 0, 0, NoRisk);
    for i := 0 to |ss|
      invariant clauses == SourceDiffs(lx, ss[..i], ts) && matched == Taken(Alignment(lx, ss[..i], ts))
      invariant tally == TallyOf(clauses)
    {
      SourceStep(lx, ss, ts, i);
      var clause, taken := AlignClause(lx, ss[i], i, ts, matched);
      TallyStep(clauses, clause);
      clauses, matched, tally := clauses + [clause], taken, tally.Include(clause);
    }
    assert ss[..|ss|] == ss;
  }

  method ComputeClauseDiff(lx: Lexer, ss: seq<Clause>, ts: seq<Clause>) returns (r: DiffResult)
    ensures r == ClauseDiffResult(lx, ss, ts)
  {
    hide Count, Worst, SourceDiffs, Alignment;
    var clauses, matched, tally := AlignSources(lx, ss, ts);
    ghost var aligned := clauses;
    for k := 0 to |ts|
      invariant clauses == aligned + AddedDiffs(lx, ts, matched, k) && tally == TallyOf(clauses)
    {
      if k !in matched {
        var risk := if lx.risky(ts[k].text) then Critical else Moderate;
        var clause := ClauseDiff(NameOr(ts[k].name, NewSection(k + 1)), Added, risk, None, Some(ts[k].text), 0.0);
        TallyStep(clauses, clause);
        clauses, tally := clauses + [clause], tally.Include(clause);
      }
    }
    var rating := if tally.worst == Critical then High else if tally.worst == Moderate then Medium else Low;
    return DiffResult(rating, tally.added, tally.removed, tally.modified, clauses);
  }

  lemma TakenGrows(alignment: seq<int>, k: int)
    ensures Taken(alignment + [k]) == Taken(alignment) + if k >= 0 then {k} else {}
  {
  }

  // ---------------------------------------------------------------------------
  // What the result says
  // ---------------------------------------------------------------------------

  lemma {:induction false} CountAppend(a: seq<ClauseDiff>, b: seq<ClauseDiff>, changes: set<Change>)
    ensures Count(a + b, changes) == Count(a, changes) + Count(b, changes)
  {
    if b == [] {
      assert a + b == a;
    } else {
      CountAppend(a, b[..|b| - 1], changes);
      assert (a + b)[..|a + b| - 1] == a + b[..|b| - 1];
    }
  }

  lemma CountStep(cs: seq<ClauseDiff>, c: ClauseDiff, changes: set<Change>)
    ensures Count(cs + [c], changes) == Count(cs, changes) + if c.change in changes then 1 else 0
  {
    assert (cs + [c])[..|cs|] == cs;
  }

  lemma {:induction false} SourceCounts(lx: Lexer, ss: seq<Clause>, ts: seq<Clause>)
    ensures var cs := SourceDiffs(lx, ss, ts);
            && |cs| == |ss| && Count(cs, {Added}) == 0
            && Count(cs, {Unmodified}) + Count(cs, {Modified, ObligationAltered}) + Count(cs, {Removed}) == |ss|
            && |Taken(Alignment(lx, ss, ts))| == |ss| - Count(cs, {Removed})
  {
    if ss != [] {
      var n := |ss| - 1;
      SourceCounts(lx, ss[..n], ts);
      var before, cs := Alignment(lx, ss[..n], ts), SourceDiffs(lx, ss[..n], ts);
      var k := Match(lx, ss[n], ts, Taken(before));
      MatchIsBestFree(lx, ss[n], ts, Taken(before));
      TakenGrows(before, k);
      var c := SourceDiff(lx, ss[n], n, ts, k);
      assert SourceDiffs(lx, ss, ts) == cs + [c] && Alignment(lx, ss, ts) == before + [k];
      assert c.change != Added && (c.change == Removed <==> k < 0);
      hide SourceDiff, SourceDiffs, Alignment, Match, Count, Taken;
      CountAll(cs, c);
    }
  }

  lemma CountAll(cs: seq<ClauseDiff>, c: ClauseDiff)
    ensures Count(cs + [c], {Added}) == Count(cs, {Added}) + if c.change == Added then 1 else 0
    ensures Count(cs + [c], {Unmodified}) == Count(cs, {Unmodified}) + if c.change == Unmodified then 1 else 0
    ensures Count(cs + [c], {Removed}) == Count(cs, {Removed}) + if c.change == Removed then 1 else 0
    ensures Count(cs + [c], {Modified, ObligationAltered})
            == Count(cs, {Modified, ObligationAltered}) + if c.change in {Modified, ObligationAltered} then 1 else 0
  {
    hide Count;
    CountStep(cs, c, {Added});
    CountStep(cs, c, {Unmodified});
    CountStep(cs, c, {Removed});
    CountStep(cs, c, {Modified, ObligationAltered});
  }

  function FirstIndices(n: nat): (r: set<int>)
    ensures |r| == n && forall k :: k in r <==> 0 <= k < n
  {
    if n == 0 then {} else FirstIndices(n - 1) + {n - 1}
  }

  /** Clauses that all changed alike are counted all together, or not at all. */
  lemma {:induction false} UniformCount(cs: seq<ClauseDiff>, change: Change, changes: set<Change>)
    requires forall c :: c in cs ==> c.change == change
    ensures Count(cs, changes) == if change in changes then |cs| else 0
  {
    if cs != [] {
      assert cs[|cs| - 1] in cs;
      UniformCount(cs[..|cs| - 1], change, changes);
    }
  }

  /** How many of the first n target clauses are taken. */
  function TakenBelow(taken: set<int>, n: nat): nat {
    |taken * FirstIndices(n)|
  }

  lemma {:induction false} AddedSize(lx: Lexer, ts: seq<Clause>, taken: set<int>, n: nat)
    requires n <= |ts|
    ensures |AddedDiffs(lx, ts, taken, n)| + TakenBelow(taken, n) == n
  {
    OverlapStep(taken, n);
    hide TakenBelow;
    if n > 0 {
      AddedSize(lx, ts, taken, n - 1);
    }
  }

  lemma {:induction false} AllAdded(lx: Lexer, ts: seq<Clause>, taken: set<int>, n: nat)
    requires n <= |ts|
    ensures forall c :: c in AddedDiffs(lx, ts, taken, n) ==> c.change == Added
  {
    if n > 0 {
      AllAdded(lx, ts, taken, n - 1);
    }
  }

  lemma OverlapStep(taken: set<int>, n: nat)
    ensures TakenBelow(taken, n) == if n == 0 then 0 else TakenBelow(taken, n - 1) + if n - 1 in taken then 1 else 0
  {
    if n == 0 {
      assert taken * FirstIndices(0) == {};
    } else {
      assert taken * FirstIndices(n) == taken * FirstIndices(n - 1) + if n - 1 in taken then {n - 1} else {};
    }
  }

  /** Every source clause is unmodified, modified or removed, and every target clause is matched or added. */
  lemma CountsAddUp(lx: Lexer, ss: seq<Clause>, ts: seq<Clause>)
    ensures var r := ClauseDiffResult(lx, ss, ts);
            && Count(r.clauses, {Unmodified}) + r.modified + r.removed == |ss|
            && |Taken(Alignment(lx, ss, ts))| + r.added == |ts|
            && |Taken(Alignment(lx, ss, ts))| == Count(r.clauses, {Unmodified}) + r.modified
            && |r.clauses| == |ss| + r.added
  {
    var taken := Taken(Alignment(lx, ss, ts));
    var a, b := SourceDiffs(lx, ss, ts), AddedDiffs(lx, ts, taken, |ts|);
    SourceCounts(lx, ss, ts);
    AddedSize(lx, ts, taken, |ts|);
    AllAdded(lx, ts, taken, |ts|);
    UniformCount(b, Added, {Added});
    UniformCount(b, Added, {Removed});
    UniformCount(b, Added, {Unmodified});
    UniformCount(b, Added, {Modified, ObligationAltered});
    CountAppend(a, b, {Added});
    CountAppend(a, b, {Removed});
    CountAppend(a, b, {Unmodified});
    CountAppend(a, b, {Modified, ObligationAltered});
    TakenInRange(lx, ss, ts);
    assert taken * FirstIndices(|ts|) == taken;
  }

  lemma TakenInRange(lx: Lexer, ss: seq<Clause>, ts: seq<Clause>)
    ensures forall k :: k in Taken(Alignment(lx, ss, ts)) ==> 0 <= k < |ts|
  {
    var a := Alignment(lx, ss, ts);
    forall k | k in Taken(a) ensures 0 <= k < |ts| {
      var i: nat :| i < |a| && a[i] == k;
      ChoicesAreGood(lx, ss, ts, i);
    }
  }

  lemma {:induction false} WorstFacts(cs: seq<ClauseDiff>)
    ensures Worst(cs).Critical? <==> exists c :: c in cs && c.severity.Critical?
    ensures Worst(cs).Moderate? <==>
              (forall c :: c in cs ==> !c.severity.Critical?) && exists c :: c in cs && c.change.Modified?
  {
    if cs != [] {
      var init, last := cs[..|cs| - 1], cs[|cs| - 1];
      assert cs == init + [last];
      WorstFacts(init);
      assert last in cs && forall c :: c in init ==> c in cs;
    }
  }

  /**
   * The rating is high exactly when some clause is critical, and medium exactly when none is but some clause
   * was modified; moderate additions and removals alone leave it low.
   */
  lemma RatingReflectsClauses(lx: Lexer, ss: seq<Clause>, ts: seq<Clause>)
    ensures var r := ClauseDiffResult(lx, ss, ts);
            && (r.rating.High? <==> exists c :: c in r.clauses && c.severity.Critical?)
            && (r.rating.Medium? <==> (forall c :: c in r.clauses ==> !c.severity.Critical?)
                                      && exists c :: c in r.clauses && c.change.Modified?)
  {
    WorstFacts(AllDiffs(lx, ss, ts));
  }

  function Identity(n: nat): (r: seq<int>)
    ensures |r| == n && forall i :: 0 <= i < n ==> r[i] == i
  {
    seq(n, i => i)
  }

  lemma {:induction false} SelfAlignment(lx: Lexer, ts: seq<Clause>, n: nat)
    requires n <= |ts|
    ensures Alignment(lx, ts[..n], ts) == Identity(n)
  {
    if n > 0 {
      SelfAlignment(lx, ts, n - 1);
      assert ts[..n][..n - 1] == ts[..n - 1];
      var taken := Taken(Identity(n - 1));
      assert forall k :: k in taken <==> 0 <= k < n - 1 by {
        forall k | 0 <= k < n - 1 ensures k in taken {
          assert Identity(n - 1)[k] == k;
        }
      }
      var s := ts[n - 1];
      MatchIsBestFree(lx, s, ts, taken);
      SimilarityBounds(lx, s, s);
      var k := Match(lx, s, ts, taken);
      if k >= 0 {
        SimilarityBounds(lx, s, ts[k]);
      }
      assert k == n - 1;
    }
  }

  lemma {:induction false} SelfDiffs(lx: Lexer, ts: seq<Clause>, n: nat)
    requires n <= |ts|
    ensures |SourceDiffs(lx, ts[..n], ts)| == n
    ensures forall c :: c in SourceDiffs(lx, ts[..n], ts) ==> c.change == Unmodified && c.severity == NoRisk
  {
    if n > 0 {
      SelfDiffs(lx, ts, n - 1);
      SelfAlignment(lx, ts, n);
      assert ts[..n][..n - 1] == ts[..n - 1];
      SimilarityBounds(lx, ts[n - 1], ts[n - 1]);
    }
  }

  /** A document diffed with itself is matched clause by clause with itself, and nothing has changed. */
  lemma SelfDiffIsIdentity(lx: Lexer, ts: seq<Clause>)
    ensures Alignment(lx, ts, ts) == Identity(|ts|)
    ensures var r := ClauseDiffResult(lx, ts, ts);
            && r.rating == Low && r.added == 0 && r.removed == 0 && r.modified == 0 && |r.clauses| == |ts|
            && forall c :: c in r.clauses ==> c.change == Unmodified
  {
    assert ts[..|ts|] == ts;
    SelfAlignment(lx, ts, |ts|);
    SelfClauses(lx, ts);
    var cs := AllDiffs(lx, ts, ts);
    UniformCount(cs, Unmodified, {Added});
    UniformCount(cs, Unmodified, {Removed});
    UniformCount(cs, Unmodified, {Modified, ObligationAltered});
    WorstFacts(cs);
  }

  lemma SelfClauses(lx: Lexer, ts: seq<Clause>)
    ensures |AllDiffs(lx, ts, ts)| == |ts|
    ensures forall c :: c in AllDiffs(lx, ts, ts) ==> c.change == Unmodified && c.severity == NoRisk
  {
    assert ts[..|ts|] == ts;
    SelfAlignment(lx, ts, |ts|);
    SelfDiffs(lx, ts, |ts|);
    IdentityTakesAll(|ts|);
    var taken := Taken(Alignment(lx, ts, ts));
    assert taken * FirstIndices(|ts|) == taken;
    AddedSize(lx, ts, taken, |ts|);
  }

  lemma {:induction false} IdentityTakesAll(n: nat)
    ensures Taken(Identity(n)) == FirstIndices(n)
  {
    forall k | 0 <= k < n ensures k in Taken(Identity(n)) {
      assert Identity(n)[k] == k;
    }
  }
}
