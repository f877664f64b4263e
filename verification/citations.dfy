/** Citation markers: printing them, scanning them out of any text, and resolving them to retrieved documents. */
module Citations {
  import opened Common

  /** A cited document number with a page, or with no page for its extracted fields. */
  datatype Citation = Citation(document: nat, page: Option<nat>)

  // ---------------------------------------------------------------------------
  // Numbers
  // ---------------------------------------------------------------------------

  predicate IsDigit(c: char) {
    '0' <= c <= '9'
  }

  function DigitOf(d: nat): char
    requires d < 10
  {
    "0123456789"[d]
  }

  function ValueOf(c: char): nat {
    if IsDigit(c) then (c - '0') as int else 0
  }

  function Decimal(n: nat): string {
    if n < 10 then [DigitOf(n)] else Decimal(n / 10) + [DigitOf(n % 10)]
  }

  /** The number spelled by s[i..e]. */
  function ValueIn(s: string, i: nat, e: nat): nat
    requires i <= e <= |s|
    decreases e
  {
    if e == i then 0 else 10 * ValueIn(s, i, e - 1) + ValueOf(s[e - 1])
  }

  lemma DigitValue(d: nat)
    requires d < 10
    ensures IsDigit(DigitOf(d)) && ValueOf(DigitOf(d)) == d
  {
  }

  lemma {:induction false} DecimalHasDigits(n: nat)
    ensures Decimal(n) != [] && forall k :: 0 <= k < |Decimal(n)| ==> IsDigit(Decimal(n)[k])
  {
    DigitValue(n % 10);
    if n >= 10 {
      DecimalHasDigits(n / 10);
    }
  }

  /** A printed number spells its value, wherever it stands. */
  lemma {:induction false} DecimalSpells(s: string, i: nat, n: nat)
    requires i + |Decimal(n)| <= |s| && forall k :: 0 <= k < |Decimal(n)| ==> s[i + k] == Decimal(n)[k]
    ensures ValueIn(s, i, i + |Decimal(n)|) == n
  {
    DigitValue(n % 10);
    var e := i + |Decimal(n)|;
    assert s[i + (|Decimal(n)| - 1)] == Decimal(n)[|Decimal(n)| - 1] == DigitOf(n % 10);
    if n >= 10 {
      assert forall k :: 0 <= k < |Decimal(n / 10)| ==> Decimal(n)[k] == Decimal(n / 10)[k];
      DecimalSpells(s, i, n / 10);
    } else {
      assert ValueIn(s, i, i) == 0;
    }
  }

  // ---------------------------------------------------------------------------
  // The scanner
  // ---------------------------------------------------------------------------

  /** The fixed parts of the two patterns. */
  datatype Syntax = Syntax(open: string, page: string, fields: string) {
    /** Only the opening part holds an opening bracket, at its start; the parts after a number start with no digit and differ. */
    ghost predicate Valid() {
      && open != [] && open[0] == '[' && NoOpening(open[1..])
      && page != [] && !IsDigit(page[0]) && NoOpening(page)
      && fields != [] && !IsDigit(fields[0]) && NoOpening(fields) && fields[|fields| - 1] == ']'
      && exists k :: 0 <= k < |page| && k < |fields| && page[k] != fields[k]
    }
  }

  const SYNTAX := Syntax("[doc ", ", page ", ", extracted fields]")

  predicate NoOpening(s: string) {
    forall k :: 0 <= k < |s| ==> s[k] != '['
  }

  lemma SyntaxIsValid()
    ensures SYNTAX.Valid()
  {
    assert SYNTAX.page[2] != SYNTAX.fields[2];
  }

  predicate LitAt(s: string, i: nat, lit: string) {
    i + |lit| <= |s| && forall k :: 0 <= k < |lit| ==> s[i + k] == lit[k]
  }

  /** The end of the run of digits at i. */
  function DigitsEnd(s: string, i: nat): (e: nat)
    requires i <= |s|
    ensures i <= e <= |s|
    decreases |s| - i
  {
    if i < |s| && IsDigit(s[i]) then DigitsEnd(s, i + 1) else i
  }

  /** A non-empty run of digits at i: the number and the position after it. */
  function NumberAt(s: string, i: nat): (r: Option<(nat, nat)>)
    ensures r.Some? ==> i < r.value.1 <= |s|
  {
    if i >= |s| || !IsDigit(s[i]) then None else Some((ValueIn(s, i, DigitsEnd(s, i + 1)), DigitsEnd(s, i + 1)))
  }

  /** What follows the document number: a page and a bracket, or the fields part. */
  function PlaceAt(y: Syntax, s: string, i: nat, fields: bool): (r: Option<(Option<nat>, nat)>)
    ensures r.Some? ==> i <= r.value.1 <= |s|
  {
    if fields then if LitAt(s, i, y.fields) then Some((None, i + |y.fields|)) else None
    else if !LitAt(s, i, y.page) then None
    else
      match NumberAt(s, i + |y.page|)
      case Some((page, e)) => if e < |s| && s[e] == ']' then Some((Some(page), e + 1)) else None
      case None => None
  }

  /** A match of one of the two patterns at i: the citation and the position after it. */
  function MatchAt(y: Syntax, s: string, i: nat, fields: bool): (r: Option<(Citation, nat)>)
    ensures r.Some? ==> i < r.value.1 <= |s|
  {
    if !LitAt(s, i, y.open) then None
    else
      match NumberAt(s, i + |y.open|)
      case None => None
      case Some((document, b)) =>
        match PlaceAt(y, s, b, fields)
        case Some((page, e)) => Some((Citation(document, page), e))
        case None => None
  }

  /** findall: leftmost matches that do not overlap. */
  function FindAll(y: Syntax, s: string, i: nat, fields: bool): seq<Citation>
    decreases |s| - i
  {
    if i >= |s| then []
    else
      match MatchAt(y, s, i, fields)
      case Some((c, e)) => [c] + FindAll(y, s, e, fields)
      case None => FindAll(y, s, i + 1, fields)
  }

  /** Duplicates removed, first occurrences kept in order. */
  function Dedup<T(==)>(s: seq<T>): seq<T> {
    if s == [] then []
    else Dedup(s[..|s| - 1]) + if s[|s| - 1] in s[..|s| - 1] then [] else [s[|s| - 1]]
  }

  function ParsedBy(y: Syntax, text: string): seq<Citation> {
    Dedup(FindAll(y, text, 0, false) + FindAll(y, text, 0, true))
  }

  function Parsed(text: string): seq<Citation> {
    ParsedBy(SYNTAX, text)
  }

  lemma {:induction false} DedupFacts<T>(s: seq<T>)
    ensures forall x :: x in Dedup(s) <==> x in s
    ensures forall i, j :: 0 <= i < j < |Dedup(s)| ==> Dedup(s)[i] != Dedup(s)[j]
  {
    if s != [] {
      var init, last := s[..|s| - 1], s[|s| - 1];
      DedupFacts(init);
      assert s == init + [last];
    }
  }

  /** What is kept, and seen, once these citations have been found. */
  ghost predicate Collected(citations: seq<Citation>, seen: set<Citation>, found: seq<Citation>) {
    citations == Dedup(found) && seen == set c | c in found
  }

  lemma CollectOne(citations: seq<Citation>, seen: set<Citation>, found: seq<Citation>, c: Citation)
    requires Collected(citations, seen, found)
    ensures Collected(if c in seen then citations else citations + [c], seen + {c}, found + [c])
    ensures c in seen ==> seen + {c} == seen
  {
    assert (found + [c])[..|found|] == found;
  }

  lemma FoundNext(done: seq<Citation>, found: seq<Citation>, i: nat)
    requires i < |found|
    ensures done + found[..i + 1] == (done + found[..i]) + [found[i]]
  {
  }

  /** One of the two loops: keep what has not been seen. */
  method CollectNew(
    ghost done: seq<Citation>, found: seq<Citation>, sofar: seq<Citation>, seenSofar: set<Citation>)
    returns (citations: seq<Citation>, seen: set<Citation>)
    requires Collected(sofar, seenSofar, done)
    ensures Collected(citations, seen, done + found)
  {
    hide *;
    citations, seen := sofar, seenSofar;
    assert done + found[..0] == done;
    for i := 0 to |found|
      invariant Collected(citations, seen, done + found[..i])
    {
      CollectOne(citations, seen, done + found[..i], found[i]);
      FoundNext(done, found, i);
      if found[i] !in seen {
        seen := seen + {found[i]};
        citations := citations + [found[i]];
      }
    }
    assert found[..|found|] == found;
  }

  /** parse_citations. */
  method ParseCitations(text: string) returns (citations: seq<Citation>)
    ensures citations == Parsed(text)
  {
    hide FindAll;
    var pages, extracted := FindAll(SYNTAX, text, 0, false), FindAll(SYNTAX, text, 0, true);
    var seen: set<Citation>;
    citations, seen := CollectNew([], pages, [], {});
    assert [] + pages == pages;
    citations, seen := CollectNew(pages, extracted, citations, seen);
  }

  // ---------------------------------------------------------------------------
  // The printer
  // ---------------------------------------------------------------------------

  const REFUSAL := "I don't have enough information."
  const INTRO := "Local answer for: "

  function Place(y: Syntax, page: Option<nat>): string {
    match page
    case Some(p) => y.page + Decimal(p) + "]"
    case None => y.fields
  }

  function Marker(y: Syntax, c: Citation): string {
    y.open + Decimal(c.document) + Place(y, c.page)
  }

  /** A space and a marker for every citation. */
  function Markers(y: Syntax, cs: seq<Citation>): string {
    if cs == [] then [] else " " + Marker(y, cs[0]) + Markers(y, cs[1..])
  }

  /** local_answer: chunks are cited by page, extractions by their fields. */
  function LocalAnswer(question: string, chunks: seq<(nat, nat)>, extractions: seq<nat>): string {
    var cs := ChunkCitations(chunks) + FieldCitations(extractions);
    if cs == [] then REFUSAL else INTRO + question + Markers(SYNTAX, cs)
  }

  function ChunkCitations(chunks: seq<(nat, nat)>): seq<Citation> {
    seq(|chunks|, k requires 0 <= k < |chunks| => Citation(chunks[k].0, Some(chunks[k].1)))
  }

  function FieldCitations(documents: seq<nat>): seq<Citation> {
    seq(|documents|, k requires 0 <= k < |documents| => Citation(documents[k], None))
  }

  // ---------------------------------------------------------------------------
  // Scanning what was printed
  // ---------------------------------------------------------------------------

  lemma {:induction false} TailDigits(s: string, lo: nat, c: string, i: nat)
    requires IsTail(s, lo, c) && i <= |c|
    ensures lo + DigitsEnd(c, i) == DigitsEnd(s, lo + i)
    decreases |c| - i
  {
    if i < |c| && IsDigit(c[i]) {
      TailDigits(s, lo, c, i + 1);
    }
  }

  lemma {:induction false} TailValue(s: string, lo: nat, c: string, i: nat, e: nat)
    requires IsTail(s, lo, c) && i <= e <= |c|
    ensures ValueIn(c, i, e) == ValueIn(s, lo + i, lo + e)
    decreases e
  {
    if i < e {
      TailValue(s, lo, c, i, e - 1);
    }
  }

  lemma TailLit(s: string, lo: nat, c: string, i: nat, lit: string)
    requires IsTail(s, lo, c)
    ensures LitAt(c, i, lit) <==> LitAt(s, lo + i, lit)
  {
    if LitAt(c, i, lit) {
      forall k | 0 <= k < |lit| ensures s[lo + i + k] == lit[k] {
        assert s[lo + (i + k)] == c[i + k] == lit[k];
      }
    }
    if LitAt(s, lo + i, lit) {
      forall k | 0 <= k < |lit| ensures c[i + k] == lit[k] {
        assert c[i + k] == s[lo + (i + k)] == s[lo + i + k];
      }
    }
  }

  function Moved(m: Option<(Citation, nat)>, lo: nat): Option<(Citation, nat)> {
    match m
    case Some((c, e)) => Some((c, lo + e))
    case None => None
  }

  lemma TailNumber(s: string, lo: nat, c: string, i: nat)
    requires IsTail(s, lo, c)
    ensures NumberAt(c, i).None? <==> NumberAt(s, lo + i).None?
    ensures NumberAt(c, i).Some? ==> NumberAt(s, lo + i) == Some((NumberAt(c, i).value.0, lo + NumberAt(c, i).value.1))
  {
    if i < |c| && IsDigit(c[i]) {
      TailDigits(s, lo, c, i + 1);
      TailValue(s, lo, c, i, DigitsEnd(c, i + 1));
    }
  }

  lemma TailPlace(y: Syntax, s: string, lo: nat, c: string, i: nat, fields: bool)
    requires IsTail(s, lo, c)
    ensures PlaceAt(y, c, i, fields).None? <==> PlaceAt(y, s, lo + i, fields).None?
    ensures PlaceAt(y, c, i, fields).Some? ==>
      PlaceAt(y, s, lo + i, fields) == Some((PlaceAt(y, c, i, fields).value.0, lo + PlaceAt(y, c, i, fields).value.1))
  {
    TailLit(s, lo, c, i, y.fields);
    TailLit(s, lo, c, i, y.page);
    TailNumber(s, lo, c, i + |y.page|);
  }

  /** A match, given its document number and its place. */
  function Combine(document: nat, place: Option<(Option<nat>, nat)>): Option<(Citation, nat)> {
    match place
    case Some((page, e)) => Some((Citation(document, page), e))
    case None => None
  }

  lemma MatchParts(y: Syntax, s: string, i: nat, fields: bool)
    ensures !LitAt(s, i, y.open) || NumberAt(s, i + |y.open|).None? ==> MatchAt(y, s, i, fields) == None
    ensures LitAt(s, i, y.open) && NumberAt(s, i + |y.open|).Some? ==>
      var n := NumberAt(s, i + |y.open|).value;
      MatchAt(y, s, i, fields) == Combine(n.0, PlaceAt(y, s, n.1, fields))
  {
  }

  lemma TailMatch(y: Syntax, s: string, lo: nat, c: string, i: nat, fields: bool)
    requires IsTail(s, lo, c)
    ensures MatchAt(y, s, lo + i, fields) == Moved(MatchAt(y, c, i, fields), lo)
  {
    hide MatchAt, NumberAt, PlaceAt, LitAt, IsTail;
    TailLit(s, lo, c, i, y.open);
    assert lo + i + |y.open| == lo + (i + |y.open|);
    MatchParts(y, c, i, fields);
    MatchParts(y, s, lo + i, fields);
    if LitAt(c, i, y.open) {
      TailNumber(s, lo, c, i + |y.open|);
      var n := NumberAt(c, i + |y.open|);
      if n.Some? {
        TailPlace(y, s, lo, c, n.value.1, fields);
      }
    }
  }

  /** Scanning the rest of a text from its start is scanning the text from there. */
  lemma {:induction false} TailFindAll(y: Syntax, s: string, lo: nat, c: string, i: nat, fields: bool)
    requires IsTail(s, lo, c)
    ensures FindAll(y, s, lo + i, fields) == FindAll(y, c, i, fields)
    decreases |c| - i
  {
    hide MatchAt;
    if i < |c| {
      TailMatch(y, s, lo, c, i, fields);
      match MatchAt(y, c, i, fields)
      case Some((_, e)) => TailFindAll(y, s, lo, c, e, fields);
      case None => TailFindAll(y, s, lo, c, i + 1, fields);
    }
  }

  lemma OpensWithBracket(y: Syntax, s: string, i: nat)
    requires y.Valid() && LitAt(s, i, y.open)
    ensures s[i] == '['
  {
    assert s[i + 0] == y.open[0];
  }

  /** Characters other than an opening bracket are skipped. */
  lemma {:induction false} SkipTo(y: Syntax, s: string, i: nat, j: nat, fields: bool)
    requires y.Valid() && i <= j <= |s| && forall k :: i <= k < j ==> s[k] != '['
    ensures FindAll(y, s, i, fields) == FindAll(y, s, j, fields)
    decreases j - i
  {
    if i < j {
      if LitAt(s, i, y.open) { OpensWithBracket(y, s, i); }
      SkipTo(y, s, i + 1, j, fields);
    }
  }

  /** Digits followed by a character that is none end there. */
  lemma {:induction false} DigitsThen(s: string, i: nat, e: nat)
    requires i <= e <= |s| && (forall k :: i <= k < e ==> IsDigit(s[k])) && (e < |s| ==> !IsDigit(s[e]))
    ensures DigitsEnd(s, i) == e
    decreases e - i
  {
    if i < e {
      DigitsThen(s, i + 1, e);
    }
  }

  /** A printed number is read back. */
  lemma NumberIsRead(s: string, i: nat, n: nat)
    requires LitAt(s, i, Decimal(n)) && (i + |Decimal(n)| < |s| ==> !IsDigit(s[i + |Decimal(n)|]))
    ensures NumberAt(s, i) == Some((n, i + |Decimal(n)|))
  {
    var d, e := Decimal(n), i + |Decimal(n)|;
    DecimalHasDigits(n);
    forall k | 0 <= k < |d| ensures s[i + k] == d[k] {
      assert LitAt(s, i, d) ==> s[i + k] == d[k];
    }
    assert forall k :: i <= k < e ==> s[k] == d[k - i];
    DigitsThen(s, i + 1, e);
    DecimalSpells(s, i, n);
  }

  /** The two texts that may follow a document number do not both stand in one place. */
  lemma PlacesDiffer(y: Syntax, s: string, i: nat)
    requires y.Valid()
    ensures !(LitAt(s, i, y.page) && LitAt(s, i, y.fields))
  {
    var k :| 0 <= k < |y.page| && k < |y.fields| && y.page[k] != y.fields[k];
    if LitAt(s, i, y.page) {
      assert s[i + k] == y.page[k];
    }
  }

  lemma PlaceIsRead(y: Syntax, s: string, i: nat, page: Option<nat>, fields: bool)
    requires y.Valid() && LitAt(s, i, Place(y, page))
    ensures PlaceAt(y, s, i, fields) == if fields == page.None? then Some((page, i + |Place(y, page)|)) else None
  {
    PlacesDiffer(y, s, i);
    if page.Some? {
      PageIsRead(y, s, i, page.value);
    }
  }

  lemma PageIsRead(y: Syntax, s: string, i: nat, p: nat)
    requires y.Valid() && LitAt(s, i, y.page + Decimal(p) + "]")
    ensures LitAt(s, i, y.page)
    ensures PlaceAt(y, s, i, false) == Some((Some(p), i + |y.page| + |Decimal(p)| + 1))
  {
    var d := Decimal(p);
    LitSplit(s, i, y.page, d, "]");
    assert "]"[0] == ']';
    assert s[i + |y.page| + |d| + 0] == ']';
    NumberIsRead(s, i + |y.page|, p);
  }

  /** A text made of three parts holds each of them in its place. */
  lemma LitSplit(s: string, i: nat, a: string, b: string, c: string)
    requires LitAt(s, i, a + b + c)
    ensures LitAt(s, i, a) && LitAt(s, i + |a|, b) && LitAt(s, i + |a| + |b|, c)
  {
    var t := a + b + c;
    forall k | 0 <= k < |a| ensures s[i + k] == a[k] {
      assert t[k] == a[k];
    }
    forall k | 0 <= k < |b| ensures s[i + |a| + k] == b[k] {
      assert t[|a| + k] == b[k];
      assert s[i + (|a| + k)] == t[|a| + k];
    }
    forall k | 0 <= k < |c| ensures s[i + |a| + |b| + k] == c[k] {
      assert t[|a| + |b| + k] == c[k];
      assert s[i + (|a| + |b| + k)] == t[|a| + |b| + k];
    }
  }

  /** A printed marker is matched whole, by the pattern of its kind only. */
  lemma MarkerIsRead(y: Syntax, s: string, i: nat, c: Citation, fields: bool)
    requires y.Valid() && LitAt(s, i, Marker(y, c))
    ensures MatchAt(y, s, i, fields) == if fields == c.page.None? then Some((c, i + |Marker(y, c)|)) else None
  {
    var d, place := Decimal(c.document), Place(y, c.page);
    LitSplit(s, i, y.open, d, place);
    PlaceStarts(y, c.page);
    assert s[i + |y.open| + |d| + 0] == place[0];
    hide MatchAt, Place, Decimal;
    NumberIsRead(s, i + |y.open|, c.document);
    MatchParts(y, s, i, fields);
    PlaceIsRead(y, s, i + |y.open| + |d|, c.page, fields);
  }

  lemma PlaceStarts(y: Syntax, page: Option<nat>)
    requires y.Valid()
    ensures Place(y, page) != [] && !IsDigit(Place(y, page)[0])
  {
  }

  // ---------------------------------------------------------------------------
  // Questions in front
  // ---------------------------------------------------------------------------

  lemma {:induction false} DigitsOnly(s: string, i: nat, k: nat)
    requires i <= |s| && i <= k < DigitsEnd(s, i)
    ensures IsDigit(s[k])
    decreases |s| - i
  {
    if i < k {
      DigitsOnly(s, i + 1, k);
    }
  }

  lemma NumberIsDigits(s: string, i: nat, k: nat)
    requires NumberAt(s, i).Some? && i <= k < NumberAt(s, i).value.1
    ensures IsDigit(s[k])
  {
    if i < k {
      DigitsOnly(s, i + 1, k);
    }
  }

  lemma LitHasNoOpening(s: string, i: nat, lit: string, k: nat)
    requires LitAt(s, i, lit) && NoOpening(lit) && i <= k < i + |lit|
    ensures s[k] != '['
  {
    assert s[i + (k - i)] == lit[k - i];
  }

  lemma PlaceShape(y: Syntax, s: string, i: nat, fields: bool, k: nat)
    requires y.Valid() && PlaceAt(y, s, i, fields).Some?
    ensures i < PlaceAt(y, s, i, fields).value.1 && s[PlaceAt(y, s, i, fields).value.1 - 1] == ']'
    ensures i <= k < PlaceAt(y, s, i, fields).value.1 ==> s[k] != '['
  {
    var e := PlaceAt(y, s, i, fields).value.1;
    if fields {
      assert s[i + (|y.fields| - 1)] == y.fields[|y.fields| - 1];
      if i <= k < e {
        LitHasNoOpening(s, i, y.fields, k);
      }
    } else if i <= k < i + |y.page| {
      LitHasNoOpening(s, i, y.page, k);
    } else if i + |y.page| <= k < e - 1 {
      NumberIsDigits(s, i + |y.page|, k);
    }
  }

  /** The characters of a match: no opening bracket after the first, and a closing bracket last. */
  lemma MatchShape(y: Syntax, s: string, i: nat, fields: bool, k: nat)
    requires y.Valid() && MatchAt(y, s, i, fields).Some?
    ensures s[MatchAt(y, s, i, fields).value.1 - 1] == ']'
    ensures i < k < MatchAt(y, s, i, fields).value.1 ==> s[k] != '['
  {
    MatchParts(y, s, i, fields);
    var a, e := i + |y.open|, MatchAt(y, s, i, fields).value.1;
    var b := NumberAt(s, a).value.1;
    PlaceShape(y, s, b, fields, k);
    if i < k < a {
      assert s[i + (k - i)] == y.open[k - i] == y.open[1..][k - i - 1];
    } else if a <= k < b {
      NumberIsDigits(s, a, k);
    }
  }

  lemma {:induction false} SameDigits(a: string, t: string, i: nat)
    requires i <= |a|
    ensures DigitsEnd(a, i) < |a| || DigitsEnd(a + t, i) < |a| ==> DigitsEnd(a + t, i) == DigitsEnd(a, i)
    decreases |a| - i
  {
    if i < |a| {
      assert (a + t)[i] == a[i];
      if IsDigit(a[i]) {
        SameDigits(a, t, i + 1);
      }
    }
  }

  lemma {:induction false} SameValue(a: string, t: string, i: nat, e: nat)
    requires i <= e <= |a|
    ensures ValueIn(a + t, i, e) == ValueIn(a, i, e)
    decreases e
  {
    if i < e {
      SameValue(a, t, i, e - 1);
    }
  }

  /** A number that ends before the first text does is the same with or without the second. */
  lemma SameNumber(a: string, t: string, i: nat)
    requires (NumberAt(a, i).Some? && NumberAt(a, i).value.1 < |a|)
             || (NumberAt(a + t, i).Some? && NumberAt(a + t, i).value.1 < |a|)
    ensures NumberAt(a + t, i) == NumberAt(a, i)
  {
    SameDigits(a, t, i + 1);
    SameValue(a, t, i, DigitsEnd(a, i + 1));
  }

  lemma SameLit(a: string, t: string, i: nat, lit: string)
    requires i + |lit| <= |a|
    ensures LitAt(a + t, i, lit) <==> LitAt(a, i, lit)
  {
    assert forall k :: 0 <= k < |a| ==> (a + t)[k] == a[k];
  }

  predicate PlaceWithin(y: Syntax, s: string, i: nat, fields: bool, n: nat) {
    PlaceAt(y, s, i, fields).Some? && PlaceAt(y, s, i, fields).value.1 <= n
  }

  lemma SamePlace(y: Syntax, a: string, t: string, i: nat, fields: bool)
    requires PlaceWithin(y, a, i, fields, |a|) || PlaceWithin(y, a + t, i, fields, |a|)
    ensures PlaceAt(y, a + t, i, fields) == PlaceAt(y, a, i, fields)
  {
    if fields {
      SameLit(a, t, i, y.fields);
    } else {
      SameLit(a, t, i, y.page);
      SameNumber(a, t, i + |y.page|);
      var e := NumberAt(a, i + |y.page|).value.1;
      assert (a + t)[e] == a[e];
    }
  }

  predicate MatchWithin(y: Syntax, s: string, i: nat, fields: bool, n: nat) {
    MatchAt(y, s, i, fields).Some? && MatchAt(y, s, i, fields).value.1 <= n
  }

  lemma SameMatch(y: Syntax, a: string, t: string, i: nat, fields: bool)
    requires y.Valid() && (MatchWithin(y, a, i, fields, |a|) || MatchWithin(y, a + t, i, fields, |a|))
    ensures MatchAt(y, a + t, i, fields) == MatchAt(y, a, i, fields)
  {
    MatchParts(y, a, i, fields);
    MatchParts(y, a + t, i, fields);
    hide MatchAt, NumberAt, PlaceAt;
    var s := if MatchWithin(y, a, i, fields, |a|) then a else a + t;
    PlaceShape(y, s, NumberAt(s, i + |y.open|).value.1, fields, 0);
    SameLit(a, t, i, y.open);
    SameNumber(a, t, i + |y.open|);
    SamePlace(y, a, t, NumberAt(a, i + |y.open|).value.1, fields);
  }

  /** What follows starts with a space and an opening bracket, so no match reaches into it from before. */
  lemma NoMatchReachesOver(y: Syntax, a: string, t: string, i: nat, fields: bool)
    requires y.Valid() && i < |a| && |t| >= 2 && t[0] == ' ' && t[1] == '['
    ensures MatchAt(y, a + t, i, fields) == MatchAt(y, a, i, fields)
  {
    var s := a + t;
    assert s[|a|] == ' ' && s[|a| + 1] == '[';
    if MatchAt(y, s, i, fields).Some? {
      MatchShape(y, s, i, fields, |a| + 1);
      SameMatch(y, a, t, i, fields);
    } else if MatchAt(y, a, i, fields).Some? {
      SameMatch(y, a, t, i, fields);
    }
  }

  lemma {:induction false} FindAllSplits(y: Syntax, a: string, t: string, i: nat, fields: bool)
    requires y.Valid() && i <= |a| && |t| >= 2 && t[0] == ' ' && t[1] == '['
    ensures FindAll(y, a + t, i, fields) == FindAll(y, a, i, fields) + FindAll(y, t, 0, fields)
    decreases |a| - i
  {
    hide MatchAt;
    if i == |a| {
      TailFindAll(y, a + t, |a|, t, 0, fields);
    } else {
      NoMatchReachesOver(y, a, t, i, fields);
      match MatchAt(y, a, i, fields)
      case Some((c, e)) => FindAllSplits(y, a, t, e, fields);
      case None => FindAllSplits(y, a, t, i + 1, fields);
    }
  }

  // ---------------------------------------------------------------------------
  // The round trip
  // ---------------------------------------------------------------------------

  function OfKind(cs: seq<Citation>, fields: bool): seq<Citation> {
    if cs == [] then []
    else (if cs[0].page.None? == fields then [cs[0]] else []) + OfKind(cs[1..], fields)
  }

  lemma MarkersStart(y: Syntax, cs: seq<Citation>)
    requires y.Valid() && cs != []
    ensures Marker(y, cs[0]) != []
    ensures |Markers(y, cs)| >= 2 && Markers(y, cs)[0] == ' ' && Markers(y, cs)[1] == '['
    ensures LitAt(Markers(y, cs), 1, Marker(y, cs[0]))
    ensures IsTail(Markers(y, cs), 1 + |Marker(y, cs[0])|, Markers(y, cs[1..]))
  {
    var m := Marker(y, cs[0]);
    MarkerOpens(y, cs[0]);
    hide Marker;
    SpaceJoined(m, Markers(y, cs[1..]));
  }

  lemma MarkerOpens(y: Syntax, c: Citation)
    requires y.Valid()
    ensures Marker(y, c) != [] && Marker(y, c)[0] == '['
  {
    hide Decimal, Place;
  }

  lemma SpaceJoined(m: string, rest: string)
    requires m != []
    ensures (" " + m + rest)[0] == ' ' && (" " + m + rest)[1] == m[0]
    ensures LitAt(" " + m + rest, 1, m) && IsTail(" " + m + rest, 1 + |m|, rest)
  {
  }

  /** Scanning printed markers gives back the citations of the pattern's kind, in order. */
  lemma {:induction false} MarkersAreRead(y: Syntax, cs: seq<Citation>, fields: bool)
    requires y.Valid()
    ensures FindAll(y, Markers(y, cs), 0, fields) == OfKind(cs, fields)
  {
    if cs != [] {
      FirstMarkerIsRead(y, cs, fields);
      MarkersAreRead(y, cs[1..], fields);
    }
  }

  lemma FirstMarkerIsRead(y: Syntax, cs: seq<Citation>, fields: bool)
    requires y.Valid() && cs != []
    ensures FindAll(y, Markers(y, cs), 0, fields)
            == (if cs[0].page.None? == fields then [cs[0]] else []) + FindAll(y, Markers(y, cs[1..]), 0, fields)
  {
    hide FindAll, MatchAt, Marker, Decimal;
    MarkersStart(y, cs);
    MarkerIsPassed(y, Markers(y, cs), 1, cs[0], fields);
    SpaceAndTail(y, Markers(y, cs), |Marker(y, cs[0])|, Markers(y, cs[1..]), fields);
  }

  lemma SpaceAndTail(y: Syntax, s: string, n: nat, rest: string, fields: bool)
    requires y.Valid() && s != [] && s[0] == ' ' && IsTail(s, 1 + n, rest)
    ensures FindAll(y, s, 0, fields) == FindAll(y, s, 1, fields)
    ensures FindAll(y, s, 1 + n, fields) == FindAll(y, rest, 0, fields)
  {
    hide FindAll;
    SkipTo(y, s, 0, 1, fields);
    TailFindAll(y, s, 1 + n, rest, 0, fields);
  }

  /** What only the other pattern matches is skipped to its end. */
  lemma OtherKindIsSkipped(y: Syntax, s: string, i: nat, fields: bool)
    requires y.Valid() && MatchAt(y, s, i, fields).None? && MatchAt(y, s, i, !fields).Some?
    ensures FindAll(y, s, i, fields) == FindAll(y, s, MatchAt(y, s, i, !fields).value.1, fields)
  {
    hide MatchAt;
    var e := MatchAt(y, s, i, !fields).value.1;
    forall k | i < k < e ensures s[k] != '[' {
      MatchShape(y, s, i, !fields, k);
    }
    SkipTo(y, s, i + 1, e, fields);
  }

  lemma MatchIsTaken(y: Syntax, s: string, i: nat, fields: bool)
    requires i < |s| && MatchAt(y, s, i, fields).Some?
    ensures var (c, e) := MatchAt(y, s, i, fields).value;
            e <= |s| && FindAll(y, s, i, fields) == [c] + FindAll(y, s, e, fields)
  {
    hide MatchAt;
  }

  /** Scanning goes past a printed marker in one piece, and takes it if it is of the pattern's kind. */
  lemma MarkerIsPassed(y: Syntax, s: string, i: nat, c: Citation, fields: bool)
    requires y.Valid() && LitAt(s, i, Marker(y, c)) && Marker(y, c) != []
    ensures FindAll(y, s, i, fields)
            == (if c.page.None? == fields then [c] else []) + FindAll(y, s, i + |Marker(y, c)|, fields)
  {
    hide Marker, MatchAt, FindAll, LitAt;
    MarkerIsRead(y, s, i, c, fields);
    MarkerIsRead(y, s, i, c, !fields);
    if c.page.None? == fields {
      MatchIsTaken(y, s, i, fields);
    } else {
      OtherKindIsSkipped(y, s, i, fields);
    }
  }

  /** Scanning a local answer finds what the question holds, then what was printed. */
  lemma AnswerIsRead(y: Syntax, intro: string, question: string, cs: seq<Citation>, fields: bool)
    requires y.Valid() && NoOpening(intro) && cs != []
    ensures FindAll(y, intro + question + Markers(y, cs), 0, fields)
            == FindAll(y, question, 0, fields) + OfKind(cs, fields)
  {
    MarkersStart(y, cs);
    FindAllSplits(y, intro + question, Markers(y, cs), 0, fields);
    MarkersAreRead(y, cs, fields);
    IntroIsSkipped(y, intro, question, fields);
  }

  lemma IntroIsSkipped(y: Syntax, intro: string, question: string, fields: bool)
    requires y.Valid() && NoOpening(intro)
    ensures FindAll(y, intro + question, 0, fields) == FindAll(y, question, 0, fields)
  {
    hide FindAll, MatchAt;
    var s := intro + question;
    assert forall k :: 0 <= k < |intro| ==> s[k] == intro[k];
    SkipTo(y, s, 0, |intro|, fields);
    TailFindAll(y, s, |intro|, question, 0, fields);
  }

  lemma {:induction false} KindsOfSum(a: seq<Citation>, b: seq<Citation>, fields: bool)
    ensures OfKind(a + b, fields) == OfKind(a, fields) + OfKind(b, fields)
  {
    if a == [] {
      assert a + b == b;
    } else {
      var first := if a[0].page.None? == fields then [a[0]] else [];
      assert (a + b)[0] == a[0] && (a + b)[1..] == a[1..] + b;
      assert OfKind(a + b, fields) == first + OfKind(a[1..] + b, fields);
      KindsOfSum(a[1..], b, fields);
    }
  }

  lemma {:induction false} AllOfKind(cs: seq<Citation>, fields: bool)
    ensures (forall c :: c in cs ==> c.page.None? == fields) ==> OfKind(cs, fields) == cs && OfKind(cs, !fields) == []
  {
    if cs != [] {
      AllOfKind(cs[1..], fields);
      assert cs == [cs[0]] + cs[1..];
    }
  }

  /** Page citations, then field citations, after a question: each pattern finds its own. */
  lemma KindsAreRead(y: Syntax, intro: string, question: string, a: seq<Citation>, b: seq<Citation>)
    requires y.Valid() && NoOpening(intro) && a + b != []
    requires (forall c :: c in a ==> c.page.Some?) && (forall c :: c in b ==> c.page.None?)
    ensures ParsedBy(y, intro + question + Markers(y, a + b))
            == Dedup(FindAll(y, question, 0, false) + a + (FindAll(y, question, 0, true) + b))
  {
    AnswerIsRead(y, intro, question, a + b, false);
    AnswerIsRead(y, intro, question, a + b, true);
    KindsOfSum(a, b, false);
    KindsOfSum(a, b, true);
    AllOfKind(a, false);
    AllOfKind(b, true);
    assert a + [] == a && [] + b == b;
  }

  /** Parsing what local_answer printed: the question's own citations and the printed ones, pages first, each once. */
  lemma LocalAnswerIsParsed(question: string, chunks: seq<(nat, nat)>, extractions: seq<nat>)
    requires chunks != [] || extractions != []
    ensures Parsed(LocalAnswer(question, chunks, extractions))
            == Dedup(FindAll(SYNTAX, question, 0, false) + ChunkCitations(chunks)
                     + (FindAll(SYNTAX, question, 0, true) + FieldCitations(extractions)))
  {
    SyntaxIsValid();
    KindsAreRead(SYNTAX, INTRO, question, ChunkCitations(chunks), FieldCitations(extractions));
  }

  lemma {:induction false} DedupOfSum<T>(a: seq<T>, b: seq<T>)
    requires forall x :: x in a ==> x !in b
    ensures Dedup(a + b) == Dedup(a) + Dedup(b)
  {
    if b == [] {
      assert a + b == a;
    } else {
      var n := |b| - 1;
      DedupOfSum(a, b[..n]);
      assert (a + b)[..|a + b| - 1] == a + b[..n] && (a + b)[|a + b| - 1] == b[n];
      assert b[n] in b;
    }
  }

  /** For a question without an opening bracket: exactly the chunk pairs, then the extracted-field pairs. */
  lemma PlainQuestionRoundTrip(question: string, chunks: seq<(nat, nat)>, extractions: seq<nat>)
    requires NoOpening(question)
    ensures Parsed(LocalAnswer(question, chunks, extractions))
            == Dedup(ChunkCitations(chunks)) + Dedup(FieldCitations(extractions))
  {
    SyntaxIsValid();
    var a, b := ChunkCitations(chunks), FieldCitations(extractions);
    if chunks == [] && extractions == [] {
      NothingToFind(REFUSAL, false);
      NothingToFind(REFUSAL, true);
    } else {
      NothingToFind(question, false);
      NothingToFind(question, true);
      LocalAnswerIsParsed(question, chunks, extractions);
      assert [] + a == a && [] + b == b;
      DedupOfSum(a, b);
    }
  }

  lemma NothingToFind(s: string, fields: bool)
    requires NoOpening(s)
    ensures FindAll(SYNTAX, s, 0, fields) == []
  {
    SyntaxIsValid();
    SkipTo(SYNTAX, s, 0, |s|, fields);
  }

  // ---------------------------------------------------------------------------
  // Numbering and resolving
  // ---------------------------------------------------------------------------

  type DocumentId = nat

  /** Documents numbered 1, 2, ... in order of first retrieval. */
  function Numbers(retrieved: seq<DocumentId>): map<DocumentId, nat> {
    if retrieved == [] then map[]
    else
      var before, d := Numbers(retrieved[..|retrieved| - 1]), retrieved[|retrieved| - 1];
      if d in before then before else before[d := |before| + 1]
  }

  /** m numbers the documents of order 1, 2, ..., |order| in that order. */
  ghost predicate IsNumbering(m: map<DocumentId, nat>, order: seq<DocumentId>) {
    && |m| == |order|
    && (forall k :: 0 <= k < |order| ==> order[k] in m && m[order[k]] == k + 1)
    && (forall d :: d in m ==> 1 <= m[d] <= |order| && order[m[d] - 1] == d)
  }

  lemma NumberingGrows(m: map<DocumentId, nat>, order: seq<DocumentId>, d: DocumentId)
    requires IsNumbering(m, order) && d !in m
    ensures IsNumbering(m[d := |m| + 1], order + [d])
  {
  }

  lemma NumbersStep(init: seq<DocumentId>, d: DocumentId)
    ensures var before := Numbers(init);
            Numbers(init + [d]) == if d in before then before else before[d := |before| + 1]
    ensures Dedup(init + [d]) == Dedup(init) + if d in init then [] else [d]
  {
    assert (init + [d])[..|init|] == init;
  }

  lemma NumberingStep(init: seq<DocumentId>, d: DocumentId)
    requires IsNumbering(Numbers(init), Dedup(init)) && forall x :: x in Numbers(init) <==> x in init
    ensures IsNumbering(Numbers(init + [d]), Dedup(init + [d]))
    ensures forall x :: x in Numbers(init + [d]) <==> x in init + [d]
  {
    NumbersStep(init, d);
    hide *;
    if d in init {
      assert Dedup(init) + [] == Dedup(init);
    } else {
      NumberingGrows(Numbers(init), Dedup(init), d);
    }
  }

  /** The numbering is a bijection from the retrieved documents to 1..k, in first-retrieval order. */
  lemma {:induction false} NumbersAreDense(retrieved: seq<DocumentId>)
    ensures IsNumbering(Numbers(retrieved), Dedup(retrieved))
    ensures forall d :: d in Numbers(retrieved) <==> d in retrieved
  {
    if retrieved == [] {
    } else {
      hide *;
      var n := |retrieved| - 1;
      assert retrieved == retrieved[..n] + [retrieved[n]];
      NumbersAreDense(retrieved[..n]);
      NumberingStep(retrieved[..n], retrieved[n]);
    }
  }

  /** The numbering loop of _prepare_ask, with the label number of every retrieved chunk. */
  method NumberDocuments(retrieved: seq<DocumentId>) returns (numbers: map<DocumentId, nat>, labels: seq<nat>)
    ensures numbers == Numbers(retrieved)
    ensures |labels| == |retrieved|
    ensures forall i :: 0 <= i < |retrieved| ==> retrieved[i] in numbers && labels[i] == numbers[retrieved[i]]
  {
    numbers, labels := map[], [];
    for i := 0 to |retrieved|
      invariant numbers == Numbers(retrieved[..i]) && |labels| == i
      invariant forall k :: 0 <= k < i ==> retrieved[k] in numbers && labels[k] == numbers[retrieved[k]]
    {
      assert retrieved[..i + 1][..i] == retrieved[..i];
      if retrieved[i] !in numbers {
        numbers := numbers[retrieved[i] := |numbers| + 1];
      }
      labels := labels + [numbers[retrieved[i]]];
    }
    assert retrieved[..|retrieved|] == retrieved;
  }

  /** Citations whose number is known, with the document it stands for. */
  function Resolved(parsed: seq<Citation>, byNumber: map<nat, DocumentId>): seq<(DocumentId, Option<nat>)> {
    if parsed == [] then []
    else
      var c := parsed[|parsed| - 1];
      Resolved(parsed[..|parsed| - 1], byNumber) + if c.document in byNumber then [(byNumber[c.document], c.page)] else []
  }

  /** 1..k to the documents in the given order. */
  function Numbered(order: seq<DocumentId>): (m: map<nat, DocumentId>)
    ensures forall n :: n in m <==> 1 <= n <= |order|
    ensures forall n :: n in m ==> m[n] == order[n - 1]
  {
    if order == [] then map[] else Numbered(order[..|order| - 1])[|order| := order[|order| - 1]]
  }

  function ByNumber(retrieved: seq<DocumentId>): map<nat, DocumentId> {
    Numbered(Dedup(retrieved))
  }

  lemma InverseOfNumbering(m: map<DocumentId, nat>, order: seq<DocumentId>, inverse: map<nat, DocumentId>)
    requires IsNumbering(m, order)
    requires forall d :: d in m ==> m[d] in inverse && inverse[m[d]] == d
    requires forall n :: n in inverse ==> inverse[n] in m && m[inverse[n]] == n
    ensures inverse == Numbered(order)
  {
    forall n | 1 <= n <= |order| ensures n in inverse && inverse[n] == order[n - 1] {
      assert m[order[n - 1]] == n;
    }
  }

  /** _citations_for: the inverse of the numbering, then one pass over the citations. */
  method CitationsFor(parsed: seq<Citation>, numbers: map<DocumentId, nat>, ghost retrieved: seq<DocumentId>)
    returns (results: seq<(DocumentId, Option<nat>)>)
    requires numbers == Numbers(retrieved)
    ensures results == Resolved(parsed, ByNumber(retrieved))
  {
    NumbersAreDense(retrieved);
    hide Numbers, Numbered, Dedup;
    var byNumber := map d | d in numbers :: numbers[d] := d;
    InverseOfNumbering(numbers, Dedup(retrieved), byNumber);
    results := [];
    for i := 0 to |parsed|
      invariant results == Resolved(parsed[..i], byNumber)
    {
      assert parsed[..i + 1][..i] == parsed[..i];
      if parsed[i].document in byNumber {
        results := results + [(byNumber[parsed[i].document], parsed[i].page)];
      }
    }
    assert parsed[..|parsed|] == parsed;
  }

  /** Whatever the answer text, every resolved citation names a retrieved document. */
  lemma {:induction false} ResolvedAreRetrieved(parsed: seq<Citation>, retrieved: seq<DocumentId>)
    ensures forall r :: r in Resolved(parsed, ByNumber(retrieved)) ==> r.0 in retrieved
  {
    if parsed != [] {
      ResolvedAreRetrieved(parsed[..|parsed| - 1], retrieved);
      DedupFacts(retrieved);
      var n := parsed[|parsed| - 1].document;
      assert n in ByNumber(retrieved) ==> ByNumber(retrieved)[n] == Dedup(retrieved)[n - 1];
    }
  }

  lemma {:induction false} ResolvedOfSum(a: seq<Citation>, b: seq<Citation>, byNumber: map<nat, DocumentId>)
    ensures Resolved(a + b, byNumber) == Resolved(a, byNumber) + Resolved(b, byNumber)
  {
    if b == [] {
      assert a + b == a;
    } else {
      var n := |b| - 1;
      assert (a + b)[..|a + b| - 1] == a + b[..n] && (a + b)[|a + b| - 1] == b[n];
      ResolvedOfSum(a, b[..n], byNumber);
    }
  }

  /** The citations c of the items: each document's number, with the item's page. */
  ghost predicate Labels(m: map<DocumentId, nat>, items: seq<(DocumentId, Option<nat>)>, c: seq<Citation>) {
    |c| == |items| && forall k :: 0 <= k < |c| ==> items[k].0 in m && c[k] == Citation(m[items[k].0], items[k].1)
  }

  ghost predicate Inverts(inverse: map<nat, DocumentId>, m: map<DocumentId, nat>) {
    forall d :: d in m ==> m[d] in inverse && inverse[m[d]] == d
  }

  /** Removing duplicates from labels and resolving them gives the items with duplicates removed. */
  lemma {:induction false} LabelsResolve(
    m: map<DocumentId, nat>, inverse: map<nat, DocumentId>, items: seq<(DocumentId, Option<nat>)>, c: seq<Citation>)
    requires Labels(m, items, c) && Inverts(inverse, m)
    ensures Resolved(Dedup(c), inverse) == Dedup(items)
  {
    if c != [] {
      var n := |c| - 1;
      LabelsResolve(m, inverse, items[..n], c[..n]);
      LabelsAreNew(m, inverse, items, c);
      ResolvedOfSum(Dedup(c[..n]), [c[n]], inverse);
      ResolvedOne(c[n], inverse);
      assert c[n].document in inverse && (inverse[c[n].document], c[n].page) == items[n];
      assert Dedup(c[..n]) + [] == Dedup(c[..n]) && Dedup(items[..n]) + [] == Dedup(items[..n]);
    }
  }

  lemma LabelsAreNew(
    m: map<DocumentId, nat>, inverse: map<nat, DocumentId>, items: seq<(DocumentId, Option<nat>)>, c: seq<Citation>)
    requires c != [] && Labels(m, items, c) && Inverts(inverse, m)
    ensures c[|c| - 1] in c[..|c| - 1] <==> items[|c| - 1] in items[..|c| - 1]
  {
    var n := |c| - 1;
    if c[n] in c[..n] {
      var k :| 0 <= k < n && c[..n][k] == c[n];
      assert items[..n][k] == items[n];
    }
  }

  lemma ResolvedOne(c: Citation, inverse: map<nat, DocumentId>)
    ensures Resolved([c], inverse) == if c.document in inverse then [(inverse[c.document], c.page)] else []
  {
    assert [c][..0] == [];
  }

  function Documents(retrieved: seq<(DocumentId, nat)>): (r: seq<DocumentId>)
  {
    seq(|retrieved|, k requires 0 <= k < |retrieved| => retrieved[k].0)
  }

  function PageItems(retrieved: seq<(DocumentId, nat)>): seq<(DocumentId, Option<nat>)> {
    seq(|retrieved|, k requires 0 <= k < |retrieved| => (retrieved[k].0, Some(retrieved[k].1)))
  }

  function FieldItems(extracted: seq<DocumentId>): seq<(DocumentId, Option<nat>)> {
    seq(|extracted|, k requires 0 <= k < |extracted| => (extracted[k], None))
  }

  function LabelledChunks(m: map<DocumentId, nat>, retrieved: seq<(DocumentId, nat)>): seq<(nat, nat)>
    requires forall r :: r in retrieved ==> r.0 in m
  {
    seq(|retrieved|, k requires 0 <= k < |retrieved| => (m[retrieved[k].0], retrieved[k].1))
  }

  function LabelledFields(m: map<DocumentId, nat>, extracted: seq<DocumentId>): seq<nat>
    requires forall d :: d in extracted ==> d in m
  {
    seq(|extracted|, k requires 0 <= k < |extracted| => m[extracted[k]])
  }

  /** Numbering, printing, parsing and resolving in turn: a local answer cites exactly what was retrieved. */
  lemma LocalAnswerCitesRetrieved(
    question: string, retrieved: seq<(DocumentId, nat)>, extracted: seq<DocumentId>, m: map<DocumentId, nat>)
    requires NoOpening(question) && m == Numbers(Documents(retrieved))
    requires (forall r :: r in retrieved ==> r.0 in m) && (forall d :: d in extracted ==> d in m)
    ensures Resolved(Parsed(LocalAnswer(question, LabelledChunks(m, retrieved), LabelledFields(m, extracted))),
                     ByNumber(Documents(retrieved)))
            == Dedup(PageItems(retrieved)) + Dedup(FieldItems(extracted))
  {
    hide LocalAnswer, Parsed, Resolved, Dedup;
    var chunks, fields := LabelledChunks(m, retrieved), LabelledFields(m, extracted);
    var a, b, inverse := ChunkCitations(chunks), FieldCitations(fields), ByNumber(Documents(retrieved));
    PlainQuestionRoundTrip(question, chunks, fields);
    NumbersAreDense(Documents(retrieved));
    ResolvedOfSum(Dedup(a), Dedup(b), inverse);
    LabelsResolve(m, inverse, PageItems(retrieved), a);
    LabelsResolve(m, inverse, FieldItems(extracted), b);
  }
}
