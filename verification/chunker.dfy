/** Splitting page text into overlapping windows of whitespace-separated tokens, optionally by section. */
module Chunker {
  import opened Common

  // ---------------------------------------------------------------------------
  // Tokens
  // ---------------------------------------------------------------------------

  datatype Span = Span(start: nat, end: nat)

  function TokenEnd(s: string, i: nat): (j: nat)
    requires i < |s| && !IsSpace(s[i])
    ensures i < j <= |s| && (j < |s| ==> IsSpace(s[j]))
    ensures forall k :: i <= k < j ==> !IsSpace(s[k])
    decreases |s| - i
  {
    if i + 1 == |s| || IsSpace(s[i + 1]) then i + 1 else TokenEnd(s, i + 1)
  }

  /** The matches of \S+ at or after i. */
  function Tokens(s: string, i: nat): seq<Span>
    requires i <= |s|
    decreases |s| - i
  {
    if i == |s| then []
    else if IsSpace(s[i]) then Tokens(s, i + 1)
    else [Span(i, TokenEnd(s, i))] + Tokens(s, TokenEnd(s, i))
  }

  function Piece(s: string, a: nat, b: nat): string
    requires a <= b <= |s|
  {
    s[a..b]
  }

  /** The words of a text from position i on. */
  function WordsFrom(s: string, i: nat): seq<string>
    requires i <= |s|
    decreases |s| - i
  {
    if i == |s| then []
    else if IsSpace(s[i]) then WordsFrom(s, i + 1)
    else [Piece(s, i, TokenEnd(s, i))] + WordsFrom(s, TokenEnd(s, i))
  }

  function Words(s: string): seq<string> {
    WordsFrom(s, 0)
  }

  /** Token spans lie in the text, in order and apart, and spell its words. */
  lemma {:induction false} TokensSpellWords(s: string, i: nat)
    requires i <= |s|
    ensures |Tokens(s, i)| == |WordsFrom(s, i)|
    ensures forall k :: 0 <= k < |Tokens(s, i)| ==>
              i <= Tokens(s, i)[k].start < Tokens(s, i)[k].end <= |s|
              && WordsFrom(s, i)[k] == s[Tokens(s, i)[k].start..Tokens(s, i)[k].end]
    decreases |s| - i
  {
    if i < |s| {
      TokensSpellWords(s, if IsSpace(s[i]) then i + 1 else TokenEnd(s, i));
    }
  }

  lemma WordsStep(s: string, i: nat)
    requires i <= |s|
    ensures i == |s| ==> WordsFrom(s, i) == []
    ensures i < |s| && IsSpace(s[i]) ==> WordsFrom(s, i) == WordsFrom(s, i + 1)
    ensures i < |s| && !IsSpace(s[i]) ==>
      WordsFrom(s, i) == [Piece(s, i, TokenEnd(s, i))] + WordsFrom(s, TokenEnd(s, i))
  {
  }

  lemma SliceOfTail(s: string, lo: nat, c: string, a: nat, b: nat)
    requires IsTail(s, lo, c) && a <= b <= |c|
    ensures Piece(c, a, b) == Piece(s, lo + a, lo + b)
  {
    assert forall k :: 0 <= k < b - a ==> c[a..b][k] == c[a + k] == s[lo + (a + k)];
  }

  lemma {:induction false} EndInTail(s: string, lo: nat, c: string, k: nat)
    requires IsTail(s, lo, c) && k < |c| && !IsSpace(c[k])
    ensures lo + TokenEnd(c, k) == TokenEnd(s, lo + k)
    decreases |c| - k
  {
    if k + 1 < |c| && !IsSpace(c[k + 1]) {
      EndInTail(s, lo, c, k + 1);
    }
  }

  lemma TailWord(s: string, lo: nat, c: string, k: nat)
    requires IsTail(s, lo, c) && k < |c|
    ensures lo + k < |s| && (IsSpace(c[k]) <==> IsSpace(s[lo + k]))
    ensures !IsSpace(c[k]) ==>
      lo + TokenEnd(c, k) == TokenEnd(s, lo + k) && Piece(c, k, TokenEnd(c, k)) == Piece(s, lo + k, TokenEnd(s, lo + k))
  {
    if !IsSpace(c[k]) {
      EndInTail(s, lo, c, k);
      SliceOfTail(s, lo, c, k, TokenEnd(c, k));
    }
  }

  lemma TailLength(s: string, lo: nat, c: string)
    requires IsTail(s, lo, c)
    ensures lo + |c| == |s|
  {
  }

  /** Words of the rest of a text, from position k of the rest, are words of the text from there. */
  lemma {:induction false} WordsOfTail(s: string, lo: nat, c: string, k: nat)
    requires IsTail(s, lo, c) && k <= |c|
    ensures WordsFrom(c, k) == WordsFrom(s, lo + k)
    decreases |c| - k
  {
    hide *;
    TailLength(s, lo, c);
    WordsStep(c, k);
    WordsStep(s, lo + k);
    if k < |c| {
      TailWord(s, lo, c, k);
      WordsOfTail(s, lo, c, if IsSpace(c[k]) then k + 1 else TokenEnd(c, k));
    }
  }

  lemma {:induction false} EndInHead(s: string, hi: nat, i: nat)
    requires i < |s| && !IsSpace(s[i]) && TokenEnd(s, i) <= hi <= |s|
    ensures i < hi && !IsSpace(s[..hi][i]) && TokenEnd(s[..hi], i) == TokenEnd(s, i)
    decreases |s| - i
  {
    if i + 1 < |s| && !IsSpace(s[i + 1]) {
      EndInHead(s, hi, i + 1);
    }
  }

  /** Cutting a text after its n-th token keeps its first n words. */
  lemma {:induction false} WordsOfHead(s: string, i: nat, n: nat)
    requires i <= |s| && 0 < n <= |Tokens(s, i)|
    ensures i < Tokens(s, i)[n - 1].end <= |s| && n <= |WordsFrom(s, i)|
    ensures WordsFrom(s[..Tokens(s, i)[n - 1].end], i) == WordsFrom(s, i)[..n]
    decreases |s| - i
  {
    var hi := Tokens(s, i)[n - 1].end;
    TokensSpellWords(s, i);
    if IsSpace(s[i]) {
      WordsOfHead(s, i + 1, n);
      assert s[..hi][i] == s[i];
    } else {
      var j := TokenEnd(s, i);
      if n > 1 {
        WordsOfHead(s, j, n - 1);
      }
      EndInHead(s, hi, i);
      assert s[..hi][i..j] == s[i..j];
      assert WordsFrom(s[..hi], j) == WordsFrom(s, j)[..n - 1];
    }
  }

  /** Tokens from any token on are the tail of the token list. */
  lemma {:induction false} TokensTail(s: string, i: nat, k: nat)
    requires i <= |s| && k < |Tokens(s, i)| && |WordsFrom(s, i)| == |Tokens(s, i)|
    ensures Tokens(s, i)[k].start <= |s|
    ensures Tokens(s, Tokens(s, i)[k].start) == Tokens(s, i)[k..]
    ensures WordsFrom(s, Tokens(s, i)[k].start) == WordsFrom(s, i)[k..]
    decreases |s| - i
  {
    if IsSpace(s[i]) {
      TokensTail(s, i + 1, k);
    } else if k > 0 {
      var j := TokenEnd(s, i);
      TokensTail(s, j, k - 1);
      assert Tokens(s, i)[k..] == Tokens(s, j)[k - 1..] && WordsFrom(s, i)[k..] == WordsFrom(s, j)[k - 1..];
    }
  }

  /** Re-tokenising the text from the first to the last of a run of tokens gives their words. */
  lemma WindowWords(s: string, a: nat, b: nat)
    requires a < b <= |Tokens(s, 0)|
    ensures b <= |Words(s)|
    ensures var ts := Tokens(s, 0);
            ts[a].start <= ts[b - 1].end <= |s| && Words(s[ts[a].start..ts[b - 1].end]) == Words(s)[a..b]
  {
    TokensSpellWords(s, 0);
    hide WordsFrom, Tokens, Piece;
    var ts := Tokens(s, 0);
    var lo, hi := ts[a].start, ts[b - 1].end;
    TokensTail(s, 0, a);
    WordsOfHead(s, lo, b - a);
    assert Tokens(s, lo)[b - a - 1] == ts[b - 1];
    WordsOfTail(s[..hi], lo, s[lo..hi], 0);
    assert s[..hi][lo..] == s[lo..hi];
    assert Words(s)[a..][..b - a] == Words(s)[a..b];
  }

  // ---------------------------------------------------------------------------
  // Windows
  // ---------------------------------------------------------------------------

  /** Token ranges of the windows that start at `start` or later. */
  function Windows(n: nat, size: nat, overlap: nat, start: nat): seq<(nat, nat)>
    requires overlap < size
    decreases n - start
  {
    if start >= n then []
    else if start + size >= n then [(start, n)]
    else [(start, start + size)] + Windows(n, size, overlap, start + (size - overlap))
  }

  function CeilDiv(a: nat, b: nat): nat
    requires b > 0
  {
    (a + b - 1) / b
  }

  lemma CeilDivStep(a: nat, b: nat)
    requires b > 0 && a >= b
    ensures CeilDiv(a, b) == 1 + CeilDiv(a - b, b)
  {
    QuotientStep(a - 1, b);
  }

  lemma QuotientStep(x: nat, b: nat)
    requires b > 0
    ensures (x + b) / b == x / b + 1
  {
    var q, p := x / b, (x + b) / b;
    assert q * b <= x < (q + 1) * b && p * b <= x + b < (p + 1) * b by {
      assert x == q * b + x % b && x + b == p * b + (x + b) % b;
      assert (q + 1) * b == q * b + b && (p + 1) * b == p * b + b;
    }
    assert (q + 2) * b == (q + 1) * b + b;
    MulKeepsOrder(p + 1, q + 1, b);
    MulKeepsOrder(q + 2, p, b);
  }

  lemma MulKeepsOrder(x: nat, y: nat, b: nat)
    ensures x <= y ==> x * b <= y * b
  {
  }

  lemma CeilDivOne(a: nat, b: nat)
    requires 0 < a <= b
    ensures CeilDiv(a, b) == 1
  {
    QuotientStep(a - 1, b);
    assert (a - 1) / b == 0;
  }

  /** n tokens make no window, one, or 1 + ceil((n - size) / (size - overlap)) of them. */
  lemma {:induction false} WindowCount(n: nat, size: nat, overlap: nat, start: nat)
    requires overlap < size && start <= n
    ensures |Windows(n, size, overlap, start)| ==
            if n == start then 0 else if n - start <= size then 1 else 1 + CeilDiv(n - start - size, size - overlap)
    decreases n - start
  {
    var step := size - overlap;
    if start + size < n {
      WindowCount(n, size, overlap, start + step);
      var rest: nat := n - start - size;
      hide CeilDiv;
      if rest > step {
        CeilDivStep(rest, step);
      } else {
        CeilDivOne(rest, step);
      }
    }
  }

  /** From start to the last of n tokens, all but the last full, each reaching back over exactly `overlap` tokens. */
  predicate Shaped(ws: seq<(nat, nat)>, n: nat, size: nat, overlap: nat, start: nat) {
    && |ws| > 0 && ws[0].0 == start && ws[|ws| - 1].1 == n
    && (forall k :: 0 <= k < |ws| ==> start <= ws[k].0 < ws[k].1 <= n && ws[k].1 - ws[k].0 <= size)
    && (forall k :: 0 <= k < |ws| - 1 ==> ws[k].1 - ws[k].0 == size)
    && (forall k :: 1 <= k < |ws| ==> ws[k].0 + overlap == ws[k - 1].1 < ws[k].1)
  }

  lemma ShapedStep(rest: seq<(nat, nat)>, n: nat, size: nat, overlap: nat, start: nat)
    requires overlap < size && start + size < n && Shaped(rest, n, size, overlap, start + (size - overlap))
    ensures Shaped([(start, start + size)] + rest, n, size, overlap, start)
  {
    var w := (start, start + size);
    var ws := [w] + rest;
    assert ws[0] == w && ws[|ws| - 1] == rest[|rest| - 1];
    assert forall k :: 1 <= k < |ws| ==> ws[k] == rest[k - 1];
    forall k | 1 <= k < |ws| ensures ws[k].0 + overlap == ws[k - 1].1 < ws[k].1 {
      assert k > 1 ==> rest[k - 1].0 + overlap == rest[k - 2].1;
    }
  }

  /** Windows start where asked, end at the last token, and each next one reaches back over exactly `overlap` tokens. */
  lemma {:induction false} WindowShape(n: nat, size: nat, overlap: nat, start: nat)
    requires overlap < size && start < n
    ensures Shaped(Windows(n, size, overlap, start), n, size, overlap, start)
    decreases n - start
  {
    if start + size < n {
      WindowShape(n, size, overlap, start + (size - overlap));
      ShapedStep(Windows(n, size, overlap, start + (size - overlap)), n, size, overlap, start);
    }
  }

  function Cut<T>(words: seq<T>, ws: seq<(nat, nat)>): seq<seq<T>>
    requires forall w :: w in ws ==> w.0 <= w.1 <= |words|
  {
    seq(|ws|, k requires 0 <= k < |ws| => assert ws[k] in ws; words[ws[k].0..ws[k].1])
  }

  /** The first piece, then every later piece without its first `overlap` items. */
  function Unoverlap<T>(pieces: seq<seq<T>>, overlap: nat): seq<T> {
    if pieces == [] then []
    else if |pieces| == 1 then pieces[0]
    else
      var last := pieces[|pieces| - 1];
      Unoverlap(pieces[..|pieces| - 1], overlap) + if overlap <= |last| then last[overlap..] else []
  }

  lemma CutPrefix<T>(words: seq<T>, ws: seq<(nat, nat)>, n: nat)
    requires n < |ws| && forall k :: 0 <= k < |ws| ==> ws[k].0 <= ws[k].1 <= |words|
    ensures (forall w :: w in ws ==> w.0 <= w.1 <= |words|) && (forall w :: w in ws[..n] ==> w.0 <= w.1 <= |words|)
    ensures Cut(words, ws)[..n] == Cut(words, ws[..n]) && Cut(words, ws)[n] == words[ws[n].0..ws[n].1]
  {
  }

  lemma LastPiece<T>(pieces: seq<seq<T>>, overlap: nat)
    requires |pieces| > 1 && overlap <= |pieces[|pieces| - 1]|
    ensures Unoverlap(pieces, overlap)
            == Unoverlap(pieces[..|pieces| - 1], overlap) + pieces[|pieces| - 1][overlap..]
  {
  }

  lemma SliceOfSlice<T>(s: seq<T>, lo: nat, hi: nat, from: nat)
    requires lo + from <= hi <= |s|
    ensures s[lo..hi][from..] == s[lo + from..hi]
  {
  }

  lemma DropShared<T>(words: seq<T>, a: nat, b: nat, lo: nat, hi: nat, overlap: nat)
    requires a <= b <= hi <= |words| && lo + overlap == b
    ensures words[a..b] + words[lo..hi][overlap..] == words[a..hi]
  {
    SliceOfSlice(words, lo, hi, overlap);
  }

  /** Dropping the shared prefix of every later window and joining restores the token sequence. */
  lemma {:induction false} UnoverlapRestores<T>(words: seq<T>, ws: seq<(nat, nat)>, overlap: nat)
    requires ws != [] && forall k :: 0 <= k < |ws| ==> ws[k].0 < ws[k].1 <= |words|
    requires forall k :: 1 <= k < |ws| ==> ws[k].0 + overlap == ws[k - 1].1 < ws[k].1
    ensures forall w :: w in ws ==> w.0 <= w.1 <= |words|
    ensures ws[0].0 <= ws[|ws| - 1].1
    ensures Unoverlap(Cut(words, ws), overlap) == words[ws[0].0..ws[|ws| - 1].1]
  {
    var n := |ws| - 1;
    var pieces := Cut(words, ws);
    if n > 0 {
      UnoverlapRestores(words, ws[..n], overlap);
      CutPrefix(words, ws, n);
      LastPiece(pieces, overlap);
      hide Unoverlap, Cut;
      DropShared(words, ws[0].0, ws[n - 1].1, ws[n].0, ws[n].1, overlap);
    }
  }

  // ---------------------------------------------------------------------------
  // Sections
  // ---------------------------------------------------------------------------

  function DropHashes(s: string): string {
    if s != [] && (s[0] == '#' || s[0] == ' ') then DropHashes(s[1..]) else s
  }

  predicate IsHeading(line: string) {
    Strip(line) != [] && Strip(line)[0] == '#'
  }

  predicate IsBody(line: string) {
    Strip(line) != [] && Strip(line)[0] != '#'
  }

  function Title(line: string): string {
    Strip(DropHashes(Strip(line)))
  }

  /** The last titled heading among the lines; an untitled heading leaves the title before it. */
  function LastTitle(lines: seq<string>): Option<string> {
    if lines == [] then None
    else
      var n := |lines| - 1;
      if IsHeading(lines[n]) && Title(lines[n]) != [] then Some(Title(lines[n])) else LastTitle(lines[..n])
  }

  /** Body lines in order, each with the nearest titled heading before it. */
  function TitledLines(lines: seq<string>): seq<(Option<string>, string)> {
    if lines == [] then []
    else
      var n := |lines| - 1;
      TitledLines(lines[..n]) + if IsBody(lines[n]) then [(LastTitle(lines[..n]), Strip(lines[n]))] else []
  }

  /** A section before its lines are joined. */
  datatype Group = Group(title: Option<string>, lines: seq<string>)

  function Under(title: Option<string>, lines: seq<string>): seq<(Option<string>, string)> {
    seq(|lines|, k requires 0 <= k < |lines| => (title, lines[k]))
  }

  function Ungroup(groups: seq<Group>): seq<(Option<string>, string)> {
    if groups == [] then []
    else Ungroup(groups[..|groups| - 1]) + Under(groups[|groups| - 1].title, groups[|groups| - 1].lines)
  }

  /** Closes the lines collected so far into a section, unless there are none. */
  function Close(groups: seq<Group>, title: Option<string>, current: seq<string>): seq<Group> {
    if current == [] then groups else groups + [Group(title, current)]
  }

  lemma CloseUngroups(groups: seq<Group>, title: Option<string>, current: seq<string>)
    ensures Ungroup(Close(groups, title, current)) == Ungroup(groups) + Under(title, current)
  {
    if current != [] {
      assert (groups + [Group(title, current)])[..|groups|] == groups;
    }
  }

  /** The section loop after some lines: the heading in force, the lines under it so far, the sections closed. */
  datatype Sectioning = Sectioning(section: Option<string>, current: seq<string>, groups: seq<Group>) {
    function Line(line: string): Sectioning {
      if IsHeading(line) then
        Sectioning(if Title(line) != [] then Some(Title(line)) else section, [], Close(groups, section, current))
      else if IsBody(line) then Sectioning(section, current + [Strip(line)], groups)
      else this
    }
  }

  function Scan(lines: seq<string>): Sectioning {
    if lines == [] then Sectioning(None, [], []) else Scan(lines[..|lines| - 1]).Line(lines[|lines| - 1])
  }

  function Sections(lines: seq<string>): seq<Group> {
    var s := Scan(lines);
    Close(s.groups, s.section, s.current)
  }

  predicate OnlyBody(lines: seq<string>) {
    forall l :: l in lines ==> IsBody(l) && Strip(l) == l
  }

  lemma {:induction false} ScanFacts(lines: seq<string>)
    ensures var s := Scan(lines);
            && s.section == LastTitle(lines)
            && Ungroup(s.groups) + Under(s.section, s.current) == TitledLines(lines)
            && OnlyBody(s.current) && forall g :: g in s.groups ==> g.lines != [] && OnlyBody(g.lines)
  {
    if lines != [] {
      var n := |lines| - 1;
      ScanFacts(lines[..n]);
      StripStripped(lines[n]);
      var s := Scan(lines[..n]);
      if IsHeading(lines[n]) {
        CloseUngroups(s.groups, s.section, s.current);
      } else if IsBody(lines[n]) {
        assert Under(s.section, s.current + [Strip(lines[n])]) == Under(s.section, s.current) + [(s.section, Strip(lines[n]))];
      }
    }
  }

  /** No body line is lost, invented, reordered, or put under another heading. */
  lemma SectionsConserveLines(lines: seq<string>)
    ensures Ungroup(Sections(lines)) == TitledLines(lines)
    ensures forall g :: g in Sections(lines) ==> g.lines != [] && OnlyBody(g.lines)
  {
    ScanFacts(lines);
    var s := Scan(lines);
    CloseUngroups(s.groups, s.section, s.current);
  }

  /** The section loop. */
  method SplitSections(lines: seq<string>) returns (groups: seq<Group>)
    ensures groups == Sections(lines)
  {
    var section: Option<string> := None;
    var current: seq<string> := [];
    groups := [];
    for i := 0 to |lines|
      invariant Sectioning(section, current, groups) == Scan(lines[..i])
    {
      var stripped := Strip(lines[i]);
      assert lines[..i + 1][..i] == lines[..i];
      if stripped != [] && stripped[0] == '#' {
        if current != [] {
          groups := groups + [Group(section, current)];
          current := [];
        }
        var title := Strip(DropHashes(stripped));
        section := if title != [] then Some(title) else section;
      } else if stripped != [] {
        current := current + [stripped];
      }
    }
    assert lines[..|lines|] == lines;
    if current != [] {
      groups := groups + [Group(section, current)];
    }
  }

  lemma {:induction false} StripStripped(s: string)
    ensures Strip(Strip(s)) == Strip(s)
    ensures Strip(s) != [] ==> !IsSpace(Strip(s)[0]) && !IsSpace(Strip(s)[|Strip(s)| - 1])
    decreases |s|
  {
    if s != [] && IsSpace(s[0]) {
      StripStripped(s[1..]);
    } else if s != [] && IsSpace(s[|s| - 1]) {
      StripStripped(s[..|s| - 1]);
    }
  }

  // ---------------------------------------------------------------------------
  // Joining and finding
  // ---------------------------------------------------------------------------

  /** " ".join. */
  function Join(words: seq<string>): string {
    if words == [] then ""
    else if |words| == 1 then words[0]
    else Join(words[..|words| - 1]) + " " + words[|words| - 1]
  }

  /** A text that starts with a space adds its words after those of the text before it. */
  lemma {:induction false} WordsOfSum(a: string, rest: string, i: nat)
    requires i <= |a| && rest != [] && IsSpace(rest[0])
    ensures WordsFrom(a + rest, i) == WordsFrom(a, i) + Words(rest)
    decreases |a| - i
  {
    if i == |a| {
      WordsOfTail(a + rest, i, rest, 0);
    } else if IsSpace(a[i]) {
      WordsOfSum(a, rest, i + 1);
    } else {
      EndBeforeSpace(a, rest, i);
      var j := TokenEnd(a, i);
      WordsOfSum(a, rest, j);
      SliceOfPrefix(a, rest, i, j);
    }
  }

  lemma SliceOfPrefix<T>(a: seq<T>, rest: seq<T>, i: nat, j: nat)
    requires i <= j <= |a|
    ensures (a + rest)[i..j] == a[i..j]
  {
  }

  lemma {:induction false} EndBeforeSpace(a: string, rest: string, i: nat)
    requires i < |a| && !IsSpace(a[i]) && rest != [] && IsSpace(rest[0])
    ensures !IsSpace((a + rest)[i]) && TokenEnd(a + rest, i) == TokenEnd(a, i)
    decreases |a| - i
  {
    if i + 1 < |a| && !IsSpace(a[i + 1]) {
      EndBeforeSpace(a, rest, i + 1);
    }
  }

  /** Words of texts joined by a space are the words of each, in turn. */
  lemma WordsOfPair(a: string, b: string)
    ensures Words(a + " " + b) == Words(a) + Words(b)
  {
    assert a + " " + b == a + (" " + b);
    WordsOfSum(a, " " + b, 0);
    WordsOfTail(" " + b, 1, b, 0);
  }

  function AllWords(texts: seq<string>): seq<string> {
    if texts == [] then [] else AllWords(texts[..|texts| - 1]) + Words(texts[|texts| - 1])
  }

  lemma {:induction false} WordsOfJoin(texts: seq<string>)
    ensures Words(Join(texts)) == AllWords(texts)
  {
    if |texts| == 1 {
      assert texts[..0] == [];
      assert AllWords(texts) == [] + Words(texts[0]);
    } else if texts != [] {
      WordsOfJoin(texts[..|texts| - 1]);
      WordsOfPair(Join(texts[..|texts| - 1]), texts[|texts| - 1]);
    }
  }

  predicate IsWord(w: string) {
    w != [] && forall k :: 0 <= k < |w| ==> !IsSpace(w[k])
  }

  lemma {:induction false} WholeWord(w: string, i: nat)
    requires i < |w| && forall k :: 0 <= k < |w| ==> !IsSpace(w[k])
    ensures TokenEnd(w, i) == |w|
    decreases |w| - i
  {
    if i + 1 < |w| {
      WholeWord(w, i + 1);
    }
  }

  lemma WordOfWord(w: string)
    requires IsWord(w)
    ensures Words(w) == [w]
  {
    WholeWord(w, 0);
    assert WordsFrom(w, |w|) == [] && w[0..|w|] == w;
  }

  lemma {:induction false} WordsAreWords(s: string, i: nat)
    requires i <= |s|
    ensures forall w :: w in WordsFrom(s, i) ==> IsWord(w)
    decreases |s| - i
  {
    if i < |s| {
      WordsAreWords(s, if IsSpace(s[i]) then i + 1 else TokenEnd(s, i));
    }
  }

  lemma {:induction false} AllWordsOfWords(words: seq<string>)
    requires forall w :: w in words ==> IsWord(w)
    ensures AllWords(words) == words
  {
    if words != [] {
      AllWordsOfWords(words[..|words| - 1]);
      assert words[|words| - 1] in words;
      WordOfWord(words[|words| - 1]);
    }
  }

  /** str.find: the first position, if any. */
  function Find(s: string, part: string, i: nat): Option<nat>
    requires i <= |s|
    decreases |s| - i
  {
    if i + |part| <= |s| && s[i..i + |part|] == part then Some(i)
    else if i == |s| then None
    else Find(s, part, i + 1)
  }

  lemma {:induction false} FindIsOccurrence(s: string, part: string, i: nat)
    requires i <= |s| && Find(s, part, i).Some?
    ensures var p := Find(s, part, i).value; p + |part| <= |s| && s[p..p + |part|] == part
    decreases |s| - i
  {
    if !(i + |part| <= |s| && s[i..i + |part|] == part) {
      FindIsOccurrence(s, part, i + 1);
    }
  }

  predicate IsBreak(c: char) {
    || '\n' <= c <= '\r' || '\U{1C}' <= c <= '\U{1E}' || c == '\U{85}' || c == '\U{2028}' || c == '\U{2029}'
  }

  function BreakAt(s: string, i: nat): (k: nat)
    requires i <= |s|
    ensures i <= k <= |s|
    decreases |s| - i
  {
    if i == |s| || IsBreak(s[i]) then i else BreakAt(s, i + 1)
  }

  /** str.splitlines: a carriage return and line feed break once, and a final break adds no line. */
  function SplitLines(s: string): seq<string> {
    if s == [] then []
    else
      var k := BreakAt(s, 0);
      if k == |s| then [s]
      else [s[..k]] + SplitLines(s[k + (if s[k] == '\r' && k + 1 < |s| && s[k + 1] == '\n' then 2 else 1)..])
  }

  // ---------------------------------------------------------------------------
  // chunk_pages
  // ---------------------------------------------------------------------------

  datatype Page = Page(number: int, text: string, boxes: seq<string>)

  datatype Chunk = Chunk(text: string, page: int, section: Option<string>, boxes: seq<string>, startChar: nat, endChar: nat)

  datatype Result = Chunks(value: seq<Chunk>) | InvalidSize | InvalidOverlap

  datatype Section = Section(title: Option<string>, text: string)

  function JoinGroups(groups: seq<Group>): seq<Section> {
    seq(|groups|, k requires 0 <= k < |groups| => Section(groups[k].title, Join(groups[k].lines)))
  }

  function PageSections(text: string, aware: bool): seq<Section> {
    if aware then JoinGroups(Sections(SplitLines(text))) else [Section(None, text)]
  }

  function Offset(text: string, section: Section, aware: bool): nat {
    if aware && text != [] then
      match Find(text, section.text, 0)
      case Some(p) => p
      case None => 0
    else 0
  }

  function WindowChunk(page: Page, section: Section, offset: nat, w: (nat, nat)): Chunk
    requires w.0 < w.1 <= |Tokens(section.text, 0)|
  {
    TokensSpellWords(section.text, 0);
    var ts := Tokens(section.text, 0);
    Chunk(Join(Words(section.text)[w.0..w.1]), page.number, section.title, page.boxes,
          offset + ts[w.0].start, offset + ts[w.1 - 1].end)
  }

  predicate WindowsFit(n: nat, ws: seq<(nat, nat)>) {
    forall k :: 0 <= k < |ws| ==> ws[k].0 < ws[k].1 <= n
  }

  function WindowChunks(page: Page, section: Section, offset: nat, ws: seq<(nat, nat)>): seq<Chunk>
    requires WindowsFit(|Tokens(section.text, 0)|, ws)
  {
    seq(|ws|, k requires 0 <= k < |ws| => WindowChunk(page, section, offset, ws[k]))
  }

  /** The chunks of the windows from one start on. */
  function ChunksFrom(page: Page, section: Section, offset: nat, size: nat, overlap: nat, start: nat): seq<Chunk>
    requires overlap < size && start < |Tokens(section.text, 0)|
  {
    WindowShape(|Tokens(section.text, 0)|, size, overlap, start);
    WindowChunks(page, section, offset, Windows(|Tokens(section.text, 0)|, size, overlap, start))
  }

  lemma WindowChunksCons(page: Page, section: Section, offset: nat, w: (nat, nat), rest: seq<(nat, nat)>)
    requires w.0 < w.1 <= |Tokens(section.text, 0)| && WindowsFit(|Tokens(section.text, 0)|, rest)
    ensures WindowsFit(|Tokens(section.text, 0)|, [w] + rest)
    ensures WindowChunks(page, section, offset, [w] + rest)
            == [WindowChunk(page, section, offset, w)] + WindowChunks(page, section, offset, rest)
  {
    assert forall k :: 1 <= k <= |rest| ==> ([w] + rest)[k] == rest[k - 1];
  }

  lemma ChunksFromStep(page: Page, section: Section, offset: nat, size: nat, overlap: nat, start: nat, end: nat)
    requires overlap < size && start < |Tokens(section.text, 0)|
    requires end == if start + size >= |Tokens(section.text, 0)| then |Tokens(section.text, 0)| else start + size
    ensures ChunksFrom(page, section, offset, size, overlap, start)
            == [WindowChunk(page, section, offset, (start, end))]
               + if end == |Tokens(section.text, 0)| then []
                 else ChunksFrom(page, section, offset, size, overlap, start + (size - overlap))
  {
    var n := |Tokens(section.text, 0)|;
    WindowShape(n, size, overlap, start);
    if start + size < n {
      var rest := Windows(n, size, overlap, start + (size - overlap));
      WindowShape(n, size, overlap, start + (size - overlap));
      WindowChunksCons(page, section, offset, (start, start + size), rest);
    }
  }

  function SectionChunks(page: Page, section: Section, aware: bool, size: nat, overlap: nat): seq<Chunk>
    requires overlap < size
  {
    if Tokens(section.text, 0) == [] then []
    else ChunksFrom(page, section, Offset(page.text, section, aware), size, overlap, 0)
  }

  function ChunksOfSections(page: Page, sections: seq<Section>, aware: bool, size: nat, overlap: nat): seq<Chunk>
    requires overlap < size
  {
    if sections == [] then []
    else
      ChunksOfSections(page, sections[..|sections| - 1], aware, size, overlap)
      + SectionChunks(page, sections[|sections| - 1], aware, size, overlap)
  }

  function ChunksOfPages(pages: seq<Page>, aware: bool, size: nat, overlap: nat): seq<Chunk>
    requires overlap < size
  {
    if pages == [] then []
    else
      var last := pages[|pages| - 1];
      ChunksOfPages(pages[..|pages| - 1], aware, size, overlap)
      + ChunksOfSections(last, PageSections(last.text, aware), aware, size, overlap)
  }

  method MakeChunk(
    page: Page, section: Section, offset: nat, spans: seq<Span>, words: seq<string>, start: nat, end: nat) returns (c: Chunk)
    requires spans == Tokens(section.text, 0) && words == Words(section.text) && start < end <= |spans|
    ensures c == WindowChunk(page, section, offset, (start, end))
  {
    TokensSpellWords(section.text, 0);
    c := Chunk(Join(words[start..end]), page.number, section.title, page.boxes,
               offset + spans[start].start, offset + spans[end - 1].end);
  }

  lemma Reassociate<T>(done: seq<T>, next: T, rest: seq<T>)
    ensures done + ([next] + rest) == (done + [next]) + rest
  {
  }

  lemma SlideStep(
    page: Page, section: Section, offset: nat, size: nat, overlap: nat, start: nat, end: nat,
    done: seq<Chunk>, next: Chunk, all: seq<Chunk>)
    requires overlap < size && start < |Tokens(section.text, 0)|
    requires end == if start + size >= |Tokens(section.text, 0)| then |Tokens(section.text, 0)| else start + size
    requires next == WindowChunk(page, section, offset, (start, end))
    requires done + ChunksFrom(page, section, offset, size, overlap, start) == all
    ensures start + size >= |Tokens(section.text, 0)| ==> done + [next] == all
    ensures start + size < |Tokens(section.text, 0)| ==>
              done + [next] + ChunksFrom(page, section, offset, size, overlap, start + (size - overlap)) == all
  {
    ChunksFromStep(page, section, offset, size, overlap, start, end);
    if start + size < |Tokens(section.text, 0)| {
      Reassociate(done, next, ChunksFrom(page, section, offset, size, overlap, start + (size - overlap)));
    }
  }

  /** The inner loop: step by size - overlap, and stop at the window that reaches the last token. */
  method SlideWindows(page: Page, section: Section, offset: nat, size: nat, overlap: nat) returns (chunks: seq<Chunk>)
    requires overlap < size && Tokens(section.text, 0) != []
    ensures chunks == ChunksFrom(page, section, offset, size, overlap, 0)
  {
    var spans, words := Tokens(section.text, 0), Words(section.text);
    hide *;
    chunks := [];
    var start := 0;
    ghost var all := ChunksFrom(page, section, offset, size, overlap, 0);
    while start < |spans|
      invariant start < |spans|
      invariant chunks + ChunksFrom(page, section, offset, size, overlap, start) == all
      decreases |spans| - start
    {
      var end := if start + size >= |spans| then |spans| else start + size;
      var next := MakeChunk(page, section, offset, spans, words, start, end);
      SlideStep(page, section, offset, size, overlap, start, end, chunks, next, all);
      chunks := chunks + [next];
      if start + size >= |spans| {
        return;
      }
      start := start + (size - overlap);
    }
  }

  method ChunkSections(page: Page, sections: seq<Section>, aware: bool, size: nat, overlap: nat) returns (chunks: seq<Chunk>)
    requires overlap < size
    ensures chunks == ChunksOfSections(page, sections, aware, size, overlap)
  {
    chunks := [];
    for i := 0 to |sections|
      invariant chunks == ChunksOfSections(page, sections[..i], aware, size, overlap)
    {
      assert sections[..i + 1][..i] == sections[..i];
      var spans := Tokens(sections[i].text, 0);
      if spans != [] {
        var windows := SlideWindows(page, sections[i], Offset(page.text, sections[i], aware), size, overlap);
        chunks := chunks + windows;
      }
    }
    assert sections[..|sections|] == sections;
  }

  method ChunkPages(pages: seq<Page>, chunkSize: int, overlap: int, sectionAware: bool) returns (r: Result)
    ensures r.InvalidSize? <==> chunkSize <= 0
    ensures r.InvalidOverlap? <==> chunkSize > 0 && (overlap < 0 || overlap >= chunkSize)
    ensures r.Chunks? ==> r.value == ChunksOfPages(pages, sectionAware, chunkSize, overlap)
  {
    if chunkSize <= 0 {
      return InvalidSize;
    }
    if overlap < 0 || overlap >= chunkSize {
      return InvalidOverlap;
    }
    var chunks: seq<Chunk> := [];
    for i := 0 to |pages|
      invariant chunks == ChunksOfPages(pages[..i], sectionAware, chunkSize, overlap)
    {
      var page := pages[i];
      assert pages[..i + 1][..i] == pages[..i];
      var sections: seq<Section>;
      if sectionAware {
        var groups := SplitSections(SplitLines(page.text));
        sections := JoinGroups(groups);
      } else {
        sections := [Section(None, page.text)];
      }
      var ofPage := ChunkSections(page, sections, sectionAware, chunkSize, overlap);
      chunks := chunks + ofPage;
    }
    assert pages[..|pages|] == pages;
    return Chunks(chunks);
  }

  // ---------------------------------------------------------------------------
  // What chunking keeps
  // ---------------------------------------------------------------------------

  function ChunkWords(chunks: seq<Chunk>): seq<seq<string>> {
    seq(|chunks|, k requires 0 <= k < |chunks| => Words(chunks[k].text))
  }

  lemma JoinedWords(text: string, a: nat, b: nat)
    requires a <= b <= |Words(text)|
    ensures Words(Join(Words(text)[a..b])) == Words(text)[a..b]
  {
    WordsAreWords(text, 0);
    hide WordsFrom, Join, IsWord, AllWords;
    var words := Words(text)[a..b];
    WordsOfJoin(words);
    AllWordsOfWords(words);
  }

  /** A chunk's text, and the stretch of section text it points at, both spell the words of its window. */
  lemma ChunkSpellsWindow(page: Page, section: Section, offset: nat, w: (nat, nat))
    requires w.0 < w.1 <= |Tokens(section.text, 0)|
    ensures w.1 <= |Words(section.text)|
    ensures var c := WindowChunk(page, section, offset, w);
            && Words(c.text) == Words(section.text)[w.0..w.1]
            && offset <= c.startChar <= c.endChar <= offset + |section.text|
            && Words(section.text[c.startChar - offset..c.endChar - offset]) == Words(section.text)[w.0..w.1]
  {
    hide Words, Tokens, Join;
    WindowWords(section.text, w.0, w.1);
    JoinedWords(section.text, w.0, w.1);
  }

  /** Two neighbouring chunks: the first is full, and its last words are the first words of the second. */
  predicate SharesOverlap(a: seq<string>, b: seq<string>, size: nat, overlap: nat)
    requires overlap < size
  {
    |a| == size && overlap < |b| <= size && b[..overlap] == a[size - overlap..]
  }

  lemma SectionChunkWords(page: Page, section: Section, aware: bool, size: nat, overlap: nat)
    requires overlap < size && Tokens(section.text, 0) != []
    ensures var n := |Tokens(section.text, 0)|;
            && n == |Words(section.text)| && WindowsFit(n, Windows(n, size, overlap, 0))
            && ChunkWords(SectionChunks(page, section, aware, size, overlap))
               == Cut(Words(section.text), Windows(n, size, overlap, 0))
  {
    TokensSpellWords(section.text, 0);
    var words, n := Words(section.text), |Tokens(section.text, 0)|;
    var ws := Windows(n, size, overlap, 0);
    WindowShape(n, size, overlap, 0);
    var cs := SectionChunks(page, section, aware, size, overlap);
    forall k | 0 <= k < |ws| ensures ChunkWords(cs)[k] == words[ws[k].0..ws[k].1] {
      ChunkSpellsWindow(page, section, Offset(page.text, section, aware), ws[k]);
    }
  }

  /** The chunks of one section: how many there are, and what page and title they carry. */
  lemma SectionChunkCount(page: Page, section: Section, aware: bool, size: nat, overlap: nat)
    requires overlap < size
    ensures var cs, n := SectionChunks(page, section, aware, size, overlap), |Words(section.text)|;
            && |cs| == (if n == 0 then 0 else if n <= size then 1 else 1 + CeilDiv(n - size, size - overlap))
            && (forall c :: c in cs ==> c.section == section.title && c.page == page.number && c.boxes == page.boxes)
  {
    TokensSpellWords(section.text, 0);
    WindowCount(|Tokens(section.text, 0)|, size, overlap, 0);
  }

  /** Neighbouring chunks share exactly `overlap` words, and without the shared words they spell the section. */
  lemma SectionChunksRestore(page: Page, section: Section, aware: bool, size: nat, overlap: nat)
    requires overlap < size
    ensures var pieces := ChunkWords(SectionChunks(page, section, aware, size, overlap));
            && Unoverlap(pieces, overlap) == Words(section.text)
            && forall k {:trigger pieces[k]} :: 1 <= k < |pieces| ==> SharesOverlap(pieces[k - 1], pieces[k], size, overlap)
  {
    var words, n := Words(section.text), |Tokens(section.text, 0)|;
    TokensSpellWords(section.text, 0);
    if n > 0 {
      SectionChunkWords(page, section, aware, size, overlap);
      WindowShape(n, size, overlap, 0);
      CutRestores(words, Windows(n, size, overlap, 0), size, overlap);
    }
  }

  lemma CutRestores(words: seq<string>, ws: seq<(nat, nat)>, size: nat, overlap: nat)
    requires overlap < size && ws != [] && WindowsFit(|words|, ws) && ws[0].0 == 0 && ws[|ws| - 1].1 == |words|
    requires forall k :: 0 <= k < |ws| ==> ws[k].1 - ws[k].0 <= size
    requires forall k :: 0 <= k < |ws| - 1 ==> ws[k].1 - ws[k].0 == size
    requires forall k :: 1 <= k < |ws| ==> ws[k].0 + overlap == ws[k - 1].1 < ws[k].1
    ensures forall w :: w in ws ==> w.0 <= w.1 <= |words|
    ensures Unoverlap(Cut(words, ws), overlap) == words
    ensures var pieces := Cut(words, ws);
            forall k {:trigger pieces[k]} :: 1 <= k < |pieces| ==> SharesOverlap(pieces[k - 1], pieces[k], size, overlap)
  {
    UnoverlapRestores(words, ws, overlap);
    assert words[0..|words|] == words;
    hide Unoverlap;
    var pieces := Cut(words, ws);
    forall k {:trigger pieces[k]} | 1 <= k < |pieces| ensures SharesOverlap(pieces[k - 1], pieces[k], size, overlap) {
      SharedPart(words, ws[k - 1], ws[k], size, overlap);
      assert pieces[k - 1] == words[ws[k - 1].0..ws[k - 1].1] && pieces[k] == words[ws[k].0..ws[k].1];
    }
  }

  lemma SharedPart(words: seq<string>, a: (nat, nat), b: (nat, nat), size: nat, overlap: nat)
    requires overlap < size && a.1 == a.0 + size <= |words| && b.0 + overlap == a.1 < b.1 <= |words| && b.1 - b.0 <= size
    ensures SharesOverlap(words[a.0..a.1], words[b.0..b.1], size, overlap)
  {
    assert words[b.0..b.1][..overlap] == words[b.0..a.1] == words[a.0..a.1][size - overlap..];
  }

  lemma ChunkIsWindow(page: Page, section: Section, aware: bool, size: nat, overlap: nat, k: nat)
    requires overlap < size && k < |SectionChunks(page, section, aware, size, overlap)|
    ensures var n := |Tokens(section.text, 0)|;
            && WindowsFit(n, Windows(n, size, overlap, 0)) && k < |Windows(n, size, overlap, 0)|
            && SectionChunks(page, section, aware, size, overlap)[k]
               == WindowChunk(page, section, Offset(page.text, section, aware), Windows(n, size, overlap, 0)[k])
  {
    hide Offset, WindowChunk, Tokens;
    WindowShape(|Tokens(section.text, 0)|, size, overlap, 0);
  }

  lemma OffsetIsOccurrence(text: string, section: Section, aware: bool)
    requires if aware then Find(text, section.text, 0).Some? else section.text == text
    ensures var p := Offset(text, section, aware); p + |section.text| <= |text| && text[p..p + |section.text|] == section.text
  {
    if aware {
      FindIsOccurrence(text, section.text, 0);
    }
  }

  lemma WindowInPage(page: Page, section: Section, offset: nat, w: (nat, nat))
    requires w.0 < w.1 <= |Tokens(section.text, 0)|
    requires offset + |section.text| <= |page.text| && page.text[offset..offset + |section.text|] == section.text
    ensures var c := WindowChunk(page, section, offset, w);
            c.startChar <= c.endChar <= |page.text| && Words(page.text[c.startChar..c.endChar]) == Words(c.text)
  {
    hide Words, Tokens, WindowChunk;
    ChunkSpellsWindow(page, section, offset, w);
    var c := WindowChunk(page, section, offset, w);
    SliceInside(page.text, offset, offset + |section.text|, c.startChar - offset, c.endChar - offset);
  }

  /** Wherever the section text is found in the page, a chunk's character range re-tokenises to its words. */
  lemma OffsetsSpellChunks(page: Page, section: Section, aware: bool, size: nat, overlap: nat, k: nat)
    requires overlap < size && k < |SectionChunks(page, section, aware, size, overlap)|
    requires if aware then Find(page.text, section.text, 0).Some? else section.text == page.text
    ensures var c := SectionChunks(page, section, aware, size, overlap)[k];
            c.startChar <= c.endChar <= |page.text| && Words(page.text[c.startChar..c.endChar]) == Words(c.text)
  {
    ChunkIsWindow(page, section, aware, size, overlap, k);
    OffsetIsOccurrence(page.text, section, aware);
    hide Find, Offset, SectionChunks, Tokens, WindowChunk, Words;
    var n := |Tokens(section.text, 0)|;
    WindowInPage(page, section, Offset(page.text, section, aware), Windows(n, size, overlap, 0)[k]);
  }

  predicate HoldsAt(s: string, part: string, p: nat) {
    p + |part| <= |s| && s[p..p + |part|] == part
  }

  ghost predicate Within(part: string, s: string) {
    exists p: nat :: HoldsAt(s, part, p)
  }

  lemma {:induction false} FindFinds(s: string, part: string, i: nat, p: nat)
    requires i <= p && HoldsAt(s, part, p)
    ensures Find(s, part, i).Some?
    decreases p - i
  {
    if i < p {
      FindFinds(s, part, i + 1, p);
    }
  }

  lemma WithinSlice(part: string, s: string, lo: nat, hi: nat)
    requires lo <= hi <= |s| && Within(part, s[lo..hi])
    ensures Within(part, s)
  {
    var p: nat :| HoldsAt(s[lo..hi], part, p);
    SliceInside(s, lo, hi, p, p + |part|);
    assert HoldsAt(s, part, lo + p);
  }

  lemma {:induction false} StripWithin(s: string)
    ensures Within(Strip(s), s)
  {
    if s != [] && IsSpace(s[0]) {
      StripWithin(s[1..]);
      assert s[1..] == s[1..|s|];
      WithinSlice(Strip(s), s, 1, |s|);
    } else if s != [] && IsSpace(s[|s| - 1]) {
      StripWithin(s[..|s| - 1]);
      assert s[..|s| - 1] == s[0..|s| - 1];
      WithinSlice(Strip(s), s, 0, |s| - 1);
    } else {
      assert s[0..|s|] == s;
      assert HoldsAt(s, s, 0);
    }
  }

  lemma {:induction false} LinesWithin(s: string, line: string)
    requires line in SplitLines(s)
    ensures Within(line, s)
  {
    var k := BreakAt(s, 0);
    if line == s[..k] {
      assert HoldsAt(s, line, 0);
    } else {
      var n := k + (if s[k] == '\r' && k + 1 < |s| && s[k + 1] == '\n' then 2 else 1);
      LinesWithin(s[n..], line);
      assert s[n..] == s[n..|s|];
      WithinSlice(line, s, n, |s|);
    }
  }

  lemma {:induction false} BodyLineIsStripped(lines: seq<string>, t: (Option<string>, string))
    requires t in TitledLines(lines)
    ensures exists line :: line in lines && t.1 == Strip(line)
  {
    var n := |lines| - 1;
    if t in TitledLines(lines[..n]) {
      BodyLineIsStripped(lines[..n], t);
    } else {
      assert lines[n] in lines;
    }
  }

  lemma {:induction false} GroupLineIsListed(groups: seq<Group>, k: nat, j: nat)
    requires k < |groups| && j < |groups[k].lines|
    ensures (groups[k].title, groups[k].lines[j]) in Ungroup(groups)
  {
    var n := |groups| - 1;
    if k == n {
      assert Under(groups[n].title, groups[n].lines)[j] == (groups[n].title, groups[n].lines[j]);
    } else {
      GroupLineIsListed(groups[..n], k, j);
    }
  }

  lemma WithinThrough(part: string, mid: string, s: string)
    requires Within(part, mid) && Within(mid, s)
    ensures Within(part, s)
  {
    var p: nat :| HoldsAt(s, mid, p);
    WithinSlice(part, s, p, p + |mid|);
  }

  lemma BodyLineWithin(text: string, t: (Option<string>, string))
    requires t in TitledLines(SplitLines(text))
    ensures Within(t.1, text)
  {
    BodyLineIsStripped(SplitLines(text), t);
    hide Strip, SplitLines, TitledLines, Within;
    var line :| line in SplitLines(text) && t.1 == Strip(line);
    LinesWithin(text, line);
    StripWithin(line);
    WithinThrough(t.1, line, text);
  }

  /** A section of one line is found in its page, so its chunks' offsets are right. */
  lemma OneLineIsFound(text: string, k: nat)
    requires k < |Sections(SplitLines(text))| && |Sections(SplitLines(text))[k].lines| == 1
    ensures Find(text, PageSections(text, true)[k].text, 0).Some?
  {
    var g := Sections(SplitLines(text))[k];
    SectionsConserveLines(SplitLines(text));
    GroupLineIsListed(Sections(SplitLines(text)), k, 0);
    assert g.lines == [g.lines[0]] && Join(g.lines) == g.lines[0] == PageSections(text, true)[k].text;
    hide Find, SplitLines, Sections, TitledLines, Join, Ungroup, PageSections;
    BodyLineWithin(text, (g.title, g.lines[0]));
    var q: nat :| HoldsAt(text, g.lines[0], q);
    FindFinds(text, g.lines[0], 0, q);
  }

  // ---------------------------------------------------------------------------
  // Exactly when a chunk's offsets are right
  // ---------------------------------------------------------------------------

  predicate SameOrSpaces(a: char, b: char) {
    a == b || (IsSpace(a) && IsSpace(b))
  }

  /** Equal up to which whitespace character stands where whitespace stands. */
  predicate SameShape(t: string, u: string) {
    |t| == |u| && forall k :: 0 <= k < |t| ==> SameOrSpaces(t[k], u[k])
  }

  predicate NoRuns(s: string) {
    forall k :: 0 <= k < |s| - 1 ==> !IsSpace(s[k]) || !IsSpace(s[k + 1])
  }

  /** Begins and ends with a word, and has single whitespace characters in between. */
  predicate Tight(u: string) {
    u != [] && !IsSpace(u[0]) && !IsSpace(u[|u| - 1]) && NoRuns(u)
  }

  lemma {:induction false} EndInShape(t: string, u: string, i: nat)
    requires SameShape(t, u) && i < |t| && !IsSpace(t[i])
    ensures !IsSpace(u[i]) && TokenEnd(t, i) == TokenEnd(u, i)
    ensures Piece(t, i, TokenEnd(t, i)) == Piece(u, i, TokenEnd(t, i))
    decreases |t| - i
  {
    assert SameOrSpaces(t[i], u[i]);
    if i + 1 < |t| {
      assert SameOrSpaces(t[i + 1], u[i + 1]);
      if !IsSpace(t[i + 1]) {
        EndInShape(t, u, i + 1);
      }
    }
    var j := TokenEnd(t, i);
    assert t[i..j] == [t[i]] + t[i + 1..j] && u[i..j] == [u[i]] + u[i + 1..j];
  }

  lemma {:induction false} ShapeKeepsWords(t: string, u: string, i: nat)
    requires SameShape(t, u) && i <= |t|
    ensures WordsFrom(t, i) == WordsFrom(u, i)
    decreases |t| - i
  {
    WordsStep(t, i);
    WordsStep(u, i);
    hide WordsFrom, TokenEnd, Piece;
    if i < |t| {
      assert SameOrSpaces(t[i], u[i]);
      if IsSpace(t[i]) {
        ShapeKeepsWords(t, u, i + 1);
      } else {
        EndInShape(t, u, i);
        ShapeKeepsWords(t, u, TokenEnd(t, i));
      }
    }
  }

  /** What stands from i to a also stands from j on. */
  predicate SameRun(t: string, i: nat, a: nat, u: string, j: nat) {
    i <= a <= |t| && j + (a - i) <= |u| && forall k :: i <= k < a ==> t[k] == u[j + (k - i)]
  }

  /** The first words agree: how far they reach, and what stands there. */
  lemma FirstWords(t: string, i: nat, u: string, j: nat)
    requires i < |t| && j < |u| && !IsSpace(t[i]) && !IsSpace(u[j]) && WordsFrom(t, i) == WordsFrom(u, j)
    ensures TokenEnd(t, i) - i == TokenEnd(u, j) - j
    ensures SameRun(t, i, TokenEnd(t, i), u, j)
    ensures WordsFrom(t, TokenEnd(t, i)) == WordsFrom(u, TokenEnd(u, j))
  {
    var a, b := TokenEnd(t, i), TokenEnd(u, j);
    WordsStep(t, i);
    WordsStep(u, j);
    hide WordsFrom;
    assert ([Piece(t, i, a)] + WordsFrom(t, a))[1..] == WordsFrom(t, a);
    assert ([Piece(u, j, b)] + WordsFrom(u, b))[1..] == WordsFrom(u, b);
    assert t[i..a] == u[j..b];
    forall k | i <= k < a ensures t[k] == u[j + (k - i)] {
      assert t[k] == t[i..a][k - i] == u[j..b][k - i];
    }
  }

  /** Two rests of one length that have the same shape. */
  predicate SameRest(t: string, i: nat, u: string, j: nat) {
    i <= |t| && j <= |u| && |t| - i == |u| - j && forall k :: i <= k < |t| ==> SameOrSpaces(t[k], u[j + (k - i)])
  }

  lemma RestOfShape(t: string, i: nat, u: string, j: nat, a: nat, b: nat)
    requires i <= a < |t| && j <= b < |u| && a - i == b - j && IsSpace(t[a]) && IsSpace(u[b])
    requires SameRun(t, i, a, u, j) && SameRest(t, a + 1, u, b + 1)
    ensures SameRest(t, i, u, j)
  {
    forall k | i <= k < |t| ensures SameOrSpaces(t[k], u[j + (k - i)]) {
      if k > a {
        assert SameOrSpaces(t[k], u[b + 1 + (k - (a + 1))]);
        assert b + 1 + (k - (a + 1)) == j + (k - i);
      }
    }
  }

  lemma SameRestLengths(t: string, i: nat, u: string, j: nat)
    requires SameRest(t, i, u, j)
    ensures |t| - i == |u| - j
  {
  }

  lemma LastOfShape(t: string, i: nat, u: string, j: nat)
    requires i <= |t| && j <= |u| && |t| - i == |u| - j && SameRun(t, i, |t|, u, j)
    ensures SameRest(t, i, u, j)
  {
  }

  lemma AfterWord(t: string, i: nat)
    requires i < |t| && !IsSpace(t[i]) && WordsFrom(t, TokenEnd(t, i)) != []
    ensures var a := TokenEnd(t, i); a < |t| && IsSpace(t[a]) && WordsFrom(t, a) == WordsFrom(t, a + 1)
  {
    WordsStep(t, TokenEnd(t, i));
    hide WordsFrom;
  }

  lemma AfterTightWord(u: string, j: nat)
    requires j < |u| && Tight(u) && !IsSpace(u[j])
    ensures var b := TokenEnd(u, j);
            if b == |u| then WordsFrom(u, b) == [] else b + 1 < |u| && !IsSpace(u[b + 1]) && WordsFrom(u, b) != []
  {
    var b := TokenEnd(u, j);
    WordsStep(u, b);
    if b < |u| {
      assert b != |u| - 1;
      WordsStep(u, b + 1);
    }
    hide WordsFrom;
  }

  lemma TightHead(t: string, i: nat, u: string, j: nat)
    requires i <= |t| && j < |u| && !IsSpace(u[j]) && WordsFrom(t, i) == WordsFrom(u, j)
    ensures i < |t| && (IsSpace(t[i]) ==> WordsFrom(t, i + 1) == WordsFrom(u, j))
  {
    WordsStep(t, i);
    WordsStep(u, j);
    hide WordsFrom, Piece;
  }

  /** Past a first word in common: where the texts go on. */
  lemma TightStep(t: string, i: nat, u: string, j: nat)
    requires i < |t| && j < |u| && Tight(u) && !IsSpace(t[i]) && !IsSpace(u[j]) && WordsFrom(t, i) == WordsFrom(u, j)
    ensures var a, b := TokenEnd(t, i), TokenEnd(u, j);
            && SameRun(t, i, a, u, j) && i < a && a - i == b - j && b <= |u|
            && (b < |u| ==> a < |t| && b + 1 < |u| && IsSpace(t[a]) && IsSpace(u[b]) && !IsSpace(u[b + 1]))
            && (b < |u| ==> WordsFrom(t, a + 1) == WordsFrom(u, b + 1))
  {
    hide WordsFrom, Tight, IsSpace, TokenEnd, Piece, SameRun;
    FirstWords(t, i, u, j);
    AfterTightWord(u, j);
    if TokenEnd(u, j) < |u| {
      AfterWord(t, i);
      AfterWord(u, j);
    }
  }

  lemma ShapeStep(t: string, i: nat, u: string, j: nat, a: nat, b: nat)
    requires i < a <= |t| && j < b <= |u| && a - i == b - j && SameRun(t, i, a, u, j)
    requires b < |u| ==> a < |t| && IsSpace(t[a]) && IsSpace(u[b])
    ensures a == |t| && b == |u| ==> SameRest(t, i, u, j)
    ensures b < |u| && SameRest(t, a + 1, u, b + 1) ==> SameRest(t, i, u, j)
  {
    hide SameRest, SameRun, IsSpace;
    if a == |t| && b == |u| {
      LastOfShape(t, i, u, j);
    }
    if b < |u| && SameRest(t, a + 1, u, b + 1) {
      SameRestLengths(t, a + 1, u, b + 1);
      RestOfShape(t, i, u, j, a, b);
    }
  }

  /** A tight text is the shortest with its words, and any other of its length has its shape. */
  lemma {:induction false} TightIsShortest(t: string, i: nat, u: string, j: nat)
    requires i <= |t| && j < |u| && Tight(u) && !IsSpace(u[j]) && WordsFrom(t, i) == WordsFrom(u, j)
    ensures |t| - i >= |u| - j
    ensures |t| - i == |u| - j ==> SameRest(t, i, u, j)
    decreases |t| - i
  {
    hide *;
    TightHead(t, i, u, j);
    if IsSpace(t[i]) {
      TightIsShortest(t, i + 1, u, j);
    } else {
      TightStep(t, i, u, j);
      ShapeStep(t, i, u, j, TokenEnd(t, i), TokenEnd(u, j));
      if TokenEnd(u, j) < |u| {
        TightIsShortest(t, TokenEnd(t, i) + 1, u, TokenEnd(u, j) + 1);
      }
    }
  }

  lemma SameShapeWords(t: string, u: string)
    requires SameShape(t, u)
    ensures Words(t) == Words(u)
  {
    ShapeKeepsWords(t, u, 0);
  }

  /** Two texts of one length, the second tight, have the same words exactly when they have the same shape. */
  lemma SameWordsIff(t: string, u: string)
    requires |t| == |u| && Tight(u)
    ensures Words(t) == Words(u) <==> SameShape(t, u)
  {
    if SameShape(t, u) {
      SameShapeWords(t, u);
    }
    if Words(t) == Words(u) {
      TightIsShortest(t, 0, u, 0);
      assert forall k :: 0 <= k < |t| ==> SameOrSpaces(t[k], u[0 + (k - 0)]);
    }
  }

  lemma {:induction false} TokensAreSolid(s: string, i: nat)
    requires i <= |s|
    ensures forall k :: 0 <= k < |Tokens(s, i)| ==>
              i <= Tokens(s, i)[k].start < Tokens(s, i)[k].end <= |s|
              && !IsSpace(s[Tokens(s, i)[k].start]) && !IsSpace(s[Tokens(s, i)[k].end - 1])
    ensures forall k, l :: 0 <= k <= l < |Tokens(s, i)| ==> Tokens(s, i)[k].start <= Tokens(s, i)[l].start
    decreases |s| - i
  {
    if i < |s| {
      TokensAreSolid(s, if IsSpace(s[i]) then i + 1 else TokenEnd(s, i));
    }
  }

  lemma StretchIsTight(s: string, lo: nat, hi: nat)
    requires lo < hi <= |s| && NoRuns(s) && !IsSpace(s[lo]) && !IsSpace(s[hi - 1])
    ensures Tight(s[lo..hi])
  {
    var u := s[lo..hi];
    assert forall k :: 0 <= k < |u| ==> u[k] == s[lo + k];
    forall k | 0 <= k < |u| - 1 ensures !IsSpace(u[k]) || !IsSpace(u[k + 1]) {
      assert u[k] == s[lo + k] && u[k + 1] == s[(lo + k) + 1];
    }
  }

  /** The lengths of lines, each with its end. */
  function Size(lines: seq<string>): nat {
    if lines == [] then 0 else Size(lines[..|lines| - 1]) + |lines[|lines| - 1]| + 1
  }

  lemma {:induction false} SizeOfSum(line: string, rest: seq<string>)
    ensures Size([line] + rest) == |line| + 1 + Size(rest)
    decreases |rest|
  {
    var all, n := [line] + rest, |rest|;
    if n == 0 {
      assert all[..0] == [];
    } else {
      SizeOfSum(line, rest[..n - 1]);
      assert all[..n] == [line] + rest[..n - 1];
    }
  }

  lemma {:induction false} SizeOfLines(s: string)
    ensures Size(SplitLines(s)) <= |s| + 1
  {
    if s != [] {
      var k := BreakAt(s, 0);
      if k == |s| {
        SizeOfSum(s, []);
        assert [s] + [] == [s];
      } else {
        var rest := s[k + (if s[k] == '\r' && k + 1 < |s| && s[k + 1] == '\n' then 2 else 1)..];
        SizeOfLines(rest);
        SizeOfSum(s[..k], SplitLines(rest));
      }
    }
  }

  lemma {:induction false} SizeOfJoin(lines: seq<string>)
    requires lines != []
    ensures |Join(lines)| + 1 == Size(lines)
  {
    if |lines| == 1 {
      assert lines[..0] == [];
    } else {
      SizeOfJoin(lines[..|lines| - 1]);
    }
  }

  lemma {:induction false} StripIsShorter(s: string)
    ensures |Strip(s)| <= |s|
  {
    if s != [] && IsSpace(s[0]) {
      StripIsShorter(s[1..]);
    } else if s != [] && IsSpace(s[|s| - 1]) {
      StripIsShorter(s[..|s| - 1]);
    }
  }

  lemma {:induction false} ScanSize(lines: seq<string>)
    ensures Size(Scan(lines).current) <= Size(lines)
    ensures forall g :: g in Scan(lines).groups ==> g.lines != [] && Size(g.lines) <= Size(lines)
  {
    if lines != [] {
      var n := |lines| - 1;
      ScanSize(lines[..n]);
      StripIsShorter(lines[n]);
      var s := Scan(lines[..n]);
      hide Strip, IsHeading, IsBody, Title;
      assert (s.current + [Strip(lines[n])])[..|s.current|] == s.current;
    }
  }

  lemma GroupFits(lines: seq<string>, g: Group)
    requires g in Sections(lines)
    ensures |Join(g.lines)| + 1 <= Size(lines)
  {
    ScanSize(lines);
    hide Scan, Size, Join;
    SizeOfJoin(g.lines);
  }

  /** The text of a section is no longer than its page. */
  lemma SectionFits(text: string, aware: bool, section: Section)
    requires section in PageSections(text, aware)
    ensures |section.text| <= |text|
  {
    hide Scan, Join, Size, SplitLines, Sections;
    if aware {
      var groups := Sections(SplitLines(text));
      SizeOfLines(text);
      var k :| 0 <= k < |groups| && section == JoinGroups(groups)[k];
      GroupFits(SplitLines(text), groups[k]);
    }
  }

  lemma OffsetFits(text: string, aware: bool, section: Section)
    requires section in PageSections(text, aware)
    ensures Offset(text, section, aware) + |section.text| <= |text|
  {
    SectionFits(text, aware, section);
    if aware && Find(text, section.text, 0).Some? {
      FindIsOccurrence(text, section.text, 0);
    }
  }

  lemma WindowIsSolid(page: Page, section: Section, offset: nat, w: (nat, nat))
    requires w.0 < w.1 <= |Tokens(section.text, 0)|
    ensures var c := WindowChunk(page, section, offset, w);
            && offset <= c.startChar < c.endChar <= offset + |section.text|
            && !IsSpace(section.text[c.startChar - offset]) && !IsSpace(section.text[c.endChar - offset - 1])
  {
    hide IsSpace, Words, Join, Tokens;
    TokensAreSolid(section.text, 0);
  }

  predicate InPage(page: Page, c: Chunk) {
    c.startChar <= c.endChar <= |page.text|
  }

  /** Re-tokenising the page between a chunk's offsets gives the words of the chunk. */
  predicate PointsRight(page: Page, c: Chunk) {
    InPage(page, c) && Words(page.text[c.startChar..c.endChar]) == Words(c.text)
  }

  /** Between a chunk's offsets, the page has the shape of the section text the chunk was cut from. */
  predicate ShapedThere(page: Page, section: Section, offset: nat, c: Chunk) {
    && InPage(page, c) && offset <= c.startChar && c.endChar <= offset + |section.text|
    && SameShape(page.text[c.startChar..c.endChar], section.text[c.startChar - offset..c.endChar - offset])
  }

  lemma ShapeDecides(page: Page, section: Section, offset: nat, c: Chunk)
    requires offset <= c.startChar < c.endChar <= offset + |section.text| <= |page.text|
    requires !IsSpace(section.text[c.startChar - offset]) && !IsSpace(section.text[c.endChar - offset - 1])
    requires Words(section.text[c.startChar - offset..c.endChar - offset]) == Words(c.text)
    ensures ShapedThere(page, section, offset, c) ==> PointsRight(page, c)
    ensures NoRuns(section.text) ==> (PointsRight(page, c) <==> ShapedThere(page, section, offset, c))
  {
    hide Words, SameShape, NoRuns, Tight, IsSpace;
    var there, here := page.text[c.startChar..c.endChar], section.text[c.startChar - offset..c.endChar - offset];
    if SameShape(there, here) {
      SameShapeWords(there, here);
    }
    if NoRuns(section.text) {
      StretchIsTight(section.text, c.startChar - offset, c.endChar - offset);
      SameWordsIff(there, here);
    }
  }

  /**
   * The chunks of the sections of any page: their offsets lie in the page, and point at the chunk's words if the page
   * has the section's shape there; when the section has no run of whitespace, only then.
   */
  lemma OffsetsSpellIff(page: Page, section: Section, aware: bool, size: nat, overlap: nat, k: nat)
    requires overlap < size && k < |SectionChunks(page, section, aware, size, overlap)|
    requires section in PageSections(page.text, aware)
    ensures var c, p := SectionChunks(page, section, aware, size, overlap)[k], Offset(page.text, section, aware);
            && InPage(page, c)
            && (ShapedThere(page, section, p, c) ==> PointsRight(page, c))
            && (NoRuns(section.text) ==> (PointsRight(page, c) <==> ShapedThere(page, section, p, c)))
  {
    ChunkIsWindow(page, section, aware, size, overlap, k);
    OffsetFits(page.text, aware, section);
    hide Offset, PageSections, SectionChunks, Tokens, WindowChunk, Words, IsSpace, PointsRight, ShapedThere, NoRuns;
    var p, w := Offset(page.text, section, aware), Windows(|Tokens(section.text, 0)|, size, overlap, 0)[k];
    ChunkSpellsWindow(page, section, p, w);
    WindowIsSolid(page, section, p, w);
    ShapeDecides(page, section, p, WindowChunk(page, section, p, w));
  }

  lemma LinesOfThree()
    ensures SplitLines("#h\nab\ncd") == ["#h", "ab", "cd"]
  {
    hide Strip, IsSpace;
    var text, a, b := "#h\nab\ncd", "ab\ncd", "cd";
    assert BreakAt(text, 2) == 2 && BreakAt(text, 1) == 2 && BreakAt(text, 0) == 2 && text[..2] == "#h" && text[3..] == a;
    assert BreakAt(a, 2) == 2 && BreakAt(a, 1) == 2 && BreakAt(a, 0) == 2 && a[..2] == "ab" && a[3..] == b;
    assert BreakAt(b, 2) == 2 && BreakAt(b, 1) == 2 && BreakAt(b, 0) == 2;
    hide BreakAt;
    assert SplitLines(b) == [b];
    assert SplitLines(a) == ["ab"] + SplitLines(b);
    assert SplitLines(text) == ["#h"] + SplitLines(a);
  }

  lemma HeadingThenBody()
    ensures IsHeading("#h") && Title("#h") == "h" && !IsHeading("ab") && IsBody("ab") && !IsHeading("cd") && IsBody("cd")
    ensures Strip("ab") == "ab" && Strip("cd") == "cd"
  {
    assert "#h"[1..] == "h" && DropHashes("h") == "h" && DropHashes("#h") == "h";
  }

  lemma TwoLineSections()
    ensures PageSections("#h\nab\ncd", true) == [Section(Some("h"), "ab cd")]
  {
    var one, two, three := ["#h"], ["#h", "ab"], ["#h", "ab", "cd"];
    LinesOfThree();
    HeadingThenBody();
    hide SplitLines, IsHeading, IsBody, Title, Strip;
    assert one[..0] == [] && two[..1] == one && three[..2] == two;
    assert Scan(one) == Sectioning(Some("h"), [], []);
    assert Scan(two) == Sectioning(Some("h"), ["ab"], []);
    assert Scan(three) == Sectioning(Some("h"), ["ab", "cd"], []);
    hide Scan;
    assert Sections(three) == [Group(Some("h"), ["ab", "cd"])];
    assert ["ab", "cd"][..1] == ["ab"] && Join(["ab", "cd"]) == "ab" + " " + "cd" == "ab cd";
  }

  /** Two words of two letters, with one character of whitespace between. */
  lemma WordsOfFive(t: string)
    requires |t| == 5 && IsSpace(t[2]) && !IsSpace(t[0]) && !IsSpace(t[1]) && !IsSpace(t[3]) && !IsSpace(t[4])
    ensures Words(t) == [t[0..2], t[3..5]] && Tokens(t, 0) == [Span(0, 2), Span(3, 5)]
  {
    assert TokenEnd(t, 1) == 2 && TokenEnd(t, 0) == 2 && TokenEnd(t, 4) == 5 && TokenEnd(t, 3) == 5;
    WordsStep(t, 0);
    WordsStep(t, 2);
    WordsStep(t, 3);
    WordsStep(t, 5);
    assert Tokens(t, 5) == [] && Tokens(t, 3) == [Span(3, 5)] && Tokens(t, 2) == Tokens(t, 3);
  }

  lemma HeldChar(s: string, part: string, p: nat, k: nat)
    ensures HoldsAt(s, part, p) && k < |part| ==> s[p + k] == part[k]
  {
    if HoldsAt(s, part, p) && k < |part| {
      assert s[p..p + |part|][k] == s[p + k];
    }
  }

  lemma {:induction false} NotFound(s: string, part: string, i: nat)
    requires i <= |s| && part != [] && forall p :: i <= p < |s| ==> !HoldsAt(s, part, p)
    ensures Find(s, part, i) == None
    decreases |s| - i
  {
    assert i < |s| ==> !HoldsAt(s, part, i);
    if i < |s| {
      NotFound(s, part, i + 1);
    }
  }

  lemma OneWindowChunk(page: Page, section: Section, a: string, b: string)
    requires Tokens(section.text, 0) == [Span(0, 2), Span(3, 5)] && Words(section.text) == [a, b]
    requires section.text == a + " " + b && Find(page.text, section.text, 0) == None
    ensures SectionChunks(page, section, true, 2, 0) == [Chunk(section.text, page.number, section.title, page.boxes, 0, 5)]
  {
    hide Tokens, Words, Find;
    assert Windows(2, 2, 0, 0) == [(0, 2)];
    assert [a, b][0..2] == [a, b] && [a, b][..1] == [a] && Join([a, b]) == a + " " + b;
  }

  lemma TwoLineChunks()
    ensures var text, section := "#h\nab\ncd", Section(Some("h"), "ab cd");
            && Find(text, section.text, 0) == None
            && SectionChunks(Page(1, text, []), section, true, 2, 0) == [Chunk("ab cd", 1, Some("h"), [], 0, 5)]
            && Words(text[0..5]) == ["#h", "ab"] && Words("ab cd") == ["ab", "cd"]
  {
    var text, t, u := "#h\nab\ncd", "ab cd", "#h\nab";
    assert t[0] != text[0] && t[0] != text[1] && t[0] != text[2] && t[2] != text[5];
    forall p | 0 <= p < |text| ensures !HoldsAt(text, t, p) {
      HeldChar(text, t, p, 0);
      HeldChar(text, t, p, 2);
    }
    NotFound(text, t, 0);
    WordsOfFive(t);
    WordsOfFive(u);
    assert t[0..2] == "ab" && t[3..5] == "cd" && u[0..2] == "#h" && u[3..5] == "ab" && text[0..5] == u;
    OneWindowChunk(Page(1, text, []), Section(Some("h"), t), "ab", "cd");
  }

  /** A heading over two lines: the section text is on no one line, and the offsets point at the heading. */
  lemma TwoLinesMisplaced()
    ensures var text, section := "#h\nab\ncd", Section(Some("h"), "ab cd");
            && PageSections(text, true) == [section] && Find(text, section.text, 0) == None
            && exists c :: SectionChunks(Page(1, text, []), section, true, 2, 0) == [c]
                 && c.endChar <= |text| && c.startChar <= c.endChar && c.text == section.text
                 && Words(text[c.startChar..c.endChar]) == ["#h", "ab"] != Words(c.text)
  {
    TwoLineSections();
    TwoLineChunks();
  }

  function Tag(title: Option<string>, words: seq<string>): seq<(Option<string>, string)> {
    seq(|words|, k requires 0 <= k < |words| => (title, words[k]))
  }

  function TaggedSections(sections: seq<Section>): seq<(Option<string>, string)> {
    if sections == [] then []
    else
      var last := sections[|sections| - 1];
      TaggedSections(sections[..|sections| - 1]) + Tag(last.title, Words(last.text))
  }

  function TaggedLines(lines: seq<(Option<string>, string)>): seq<(Option<string>, string)> {
    if lines == [] then []
    else TaggedLines(lines[..|lines| - 1]) + Tag(lines[|lines| - 1].0, Words(lines[|lines| - 1].1))
  }

  lemma {:induction false} TaggedLinesJoin(a: seq<(Option<string>, string)>, b: seq<(Option<string>, string)>)
    ensures TaggedLines(a + b) == TaggedLines(a) + TaggedLines(b)
  {
    hide Words, Tag, AllWords;
    if b == [] {
      assert a + b == a;
    } else {
      var n := |b| - 1;
      TaggedLinesJoin(a, b[..n]);
      PrefixOfSum(a, b, n);
    }
  }

  lemma PrefixOfSum<T>(a: seq<T>, b: seq<T>, n: nat)
    requires |b| == n + 1
    ensures (a + b)[..|a + b| - 1] == a + b[..n] && (a + b)[|a + b| - 1] == b[n]
  {
  }

  lemma {:induction false} TaggedGroup(title: Option<string>, lines: seq<string>)
    ensures TaggedLines(Under(title, lines)) == Tag(title, AllWords(lines))
  {
    if lines != [] {
      var n := |lines| - 1;
      TaggedGroup(title, lines[..n]);
      assert Under(title, lines)[..n] == Under(title, lines[..n]);
      assert Tag(title, AllWords(lines[..n]) + Words(lines[n])) == Tag(title, AllWords(lines[..n])) + Tag(title, Words(lines[n]));
    }
  }

  lemma {:induction false} TaggedGroups(groups: seq<Group>)
    ensures TaggedSections(JoinGroups(groups)) == TaggedLines(Ungroup(groups))
  {
    if groups != [] {
      var n := |groups| - 1;
      TaggedGroups(groups[..n]);
      assert JoinGroups(groups)[..n] == JoinGroups(groups[..n]);
      TaggedLinesJoin(Ungroup(groups[..n]), Under(groups[n].title, groups[n].lines));
      TaggedGroup(groups[n].title, groups[n].lines);
      WordsOfJoin(groups[n].lines);
    }
  }

  /** The sections of a page hold the words of its non-heading lines, in order, each under the nearest titled heading. */
  lemma SectionsConserveWords(text: string)
    ensures TaggedSections(PageSections(text, true)) == TaggedLines(TitledLines(SplitLines(text)))
  {
    SectionsConserveLines(SplitLines(text));
    TaggedGroups(Sections(SplitLines(text)));
  }

  ghost predicate Wordless(sections: seq<Section>) {
    forall s :: s in sections ==> Words(s.text) == []
  }

  lemma WordlessParts(sections: seq<Section>)
    requires sections != []
    ensures Wordless(sections) <==> Wordless(sections[..|sections| - 1]) && Words(sections[|sections| - 1].text) == []
  {
    assert sections == sections[..|sections| - 1] + [sections[|sections| - 1]];
  }

  lemma NoChunksIff(page: Page, section: Section, aware: bool, size: nat, overlap: nat)
    requires overlap < size
    ensures SectionChunks(page, section, aware, size, overlap) == [] <==> Words(section.text) == []
  {
    SectionChunkCount(page, section, aware, size, overlap);
  }

  /** Chunking yields nothing exactly when no section of any page has a word. */
  lemma {:induction false} ChunksEmptyIff(page: Page, sections: seq<Section>, aware: bool, size: nat, overlap: nat)
    requires overlap < size
    ensures ChunksOfSections(page, sections, aware, size, overlap) == [] <==> Wordless(sections)
  {
    if sections != [] {
      var n := |sections| - 1;
      ChunksEmptyIff(page, sections[..n], aware, size, overlap);
      NoChunksIff(page, sections[n], aware, size, overlap);
      WordlessParts(sections);
      hide Wordless, Words, SectionChunks;
    }
  }

  ghost predicate AllBlank(pages: seq<Page>) {
    forall p :: p in pages ==> Words(p.text) == []
  }

  /** Without sections, chunking yields nothing exactly when no page has a word. */
  lemma {:induction false} PagesEmptyIff(pages: seq<Page>, size: nat, overlap: nat)
    requires overlap < size
    ensures ChunksOfPages(pages, false, size, overlap) == [] <==> AllBlank(pages)
  {
    if pages != [] {
      var init, last := pages[..|pages| - 1], pages[|pages| - 1];
      PagesEmptyIff(init, size, overlap);
      ChunksEmptyIff(last, PageSections(last.text, false), false, size, overlap);
      assert Wordless(PageSections(last.text, false)) <==> Words(last.text) == [] by {
        assert PageSections(last.text, false)[0].text == last.text;
      }
      assert pages == init + [last];
    }
  }

  // ---------------------------------------------------------------------------
  // What the extractors hand over
  // ---------------------------------------------------------------------------

  /** A text has no word exactly when it is all whitespace. */
  lemma {:induction false} NoWordsIff(s: string, i: nat)
    requires i <= |s|
    ensures WordsFrom(s, i) == [] <==> forall k :: i <= k < |s| ==> IsSpace(s[k])
    decreases |s| - i
  {
    if i < |s| && IsSpace(s[i]) {
      NoWordsIff(s, i + 1);
    }
  }

  /** What the extractors share: each page, slide, block or row is stripped, and kept if text is left. */
  function KeptPages(raw: seq<Page>): seq<Page> {
    if raw == [] then []
    else
      var last := raw[|raw| - 1];
      KeptPages(raw[..|raw| - 1]) + if Strip(last.text) != [] then [last.(text := Strip(last.text))] else []
  }

  /** So every page they hand over has a word. */
  lemma {:induction false} KeptPagesHaveWords(raw: seq<Page>)
    ensures forall p :: p in KeptPages(raw) ==> Words(p.text) != []
  {
    if raw != [] {
      KeptPagesHaveWords(raw[..|raw| - 1]);
      var text := Strip(raw[|raw| - 1].text);
      StripStripped(raw[|raw| - 1].text);
      NoWordsIff(text, 0);
    }
  }
}
