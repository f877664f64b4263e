/** What several modules share: optional values and facts about parts of sequences. */
module Common {

  datatype Option<+T> = None | Some(value: T)

  /** Python's str.isspace of one character. */
  predicate IsSpace(c: char) {
    || '\t' <= c <= '\r' || '\U{1C}' <= c <= ' ' || c == '\U{85}' || c == '\U{A0}' || c == '\U{1680}'
    || '\U{2000}' <= c <= '\U{200A}' || c == '\U{2028}' || c == '\U{2029}' || c == '\U{202F}' || c == '\U{205F}'
    || c == '\U{3000}'
  }

  /** str.strip. */
  function Strip(s: string): string {
    if s == [] then s
    else if IsSpace(s[0]) then Strip(s[1..])
    else if IsSpace(s[|s| - 1]) then Strip(s[..|s| - 1])
    else s
  }

  /** c is what s holds from lo on. */
  predicate IsTail(s: string, lo: nat, c: string) {
    lo <= |s| && |c| == |s| - lo && forall k :: 0 <= k < |c| ==> c[k] == s[lo + k]
  }

  lemma SliceInside<T>(s: seq<T>, lo: nat, hi: nat, a: nat, b: nat)
    requires lo <= hi <= |s| && a <= b <= hi - lo
    ensures s[lo..hi][a..b] == s[lo + a..lo + b]
  {
    assert forall k :: 0 <= k < b - a ==> s[lo..hi][a..b][k] == s[lo..hi][a + k] == s[lo + a + k];
  }
}
