/** String predicates the source uses through Python's `str` methods. */
module Text {
  import opened Wrappers

  /** `s.startswith(p)`. */
  predicate StartsWith(s: string, p: string) {
    |p| <= |s| && s[..|p|] == p
  }

  /** `sub in s` for strings: `sub` starts at some position of `s`. */
  predicate Contains(s: string, sub: string)
    decreases |s|
  {
    StartsWith(s, sub) || (|s| > 0 && Contains(s[1..], sub))
  }

  /** `c.lower()` for one character; only ASCII letters are folded. */
  function LowerChar(c: char): (r: char)
    ensures 'A' <= c <= 'Z' ==> 'a' <= r <= 'z'
    ensures !('A' <= c <= 'Z') ==> r == c
  {
    if 'A' <= c <= 'Z' then (c as int + 32) as char else c
  }

  /** `s.lower()`, ASCII only. */
  function Lower(s: string): (r: string)
    ensures |r| == |s|
    ensures forall i :: 0 <= i < |s| ==> r[i] == LowerChar(s[i])
  {
    seq(|s|, i requires 0 <= i < |s| => LowerChar(s[i]))
  }

  /** Python truthiness of an optional string: None and "" are false. */
  predicate Truthy(s: Option<string>) {
    s.Some? && s.value != ""
  }

  /** A string that starts with `p + "_"` does not start with `q + "_"` when `p` and `q` have
      the same length and differ. Used to show that one twin's keys never carry the other's prefix. */
  lemma {:induction false} DistinctPrefixes(s: string, p: string, q: string)
    requires |p| == |q| && p != q
    requires StartsWith(s, p + "_")
    ensures !StartsWith(s, q + "_")
  {
    var i :| 0 <= i < |p| && p[i] != q[i];
    assert s[..|p| + 1][i] == (p + "_")[i] == p[i];
    assert (q + "_")[i] == q[i];
  }
}
