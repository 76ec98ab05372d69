/** Byte-string helpers used by the ESI compiler: Go's `bytes.Index` and friends.
    A byte is represented by a `char`; the scanner only ever compares bytes. */
module EsiBytes {

  /** `pat` occurs in `s` at offset `k`. */
  predicate At(s: string, pat: string, k: int) {
    0 <= k && k + |pat| <= |s| && s[k..k + |pat|] == pat
  }

  /** Dropping a prefix shifts every later occurrence. */
  lemma AtDrop(s: string, pat: string, d: nat, k: int)
    requires d <= |s| && d <= k
    ensures At(s, pat, k) <==> At(s[d..], pat, k - d)
  {
    if k + |pat| <= |s| {
      assert |s[d..]| == |s| - d;
      assert s[d..][k - d..k - d + |pat|] == s[k..k + |pat|];
    }
  }

  /** `bytes.Index`: the least offset at which `pat` occurs, or -1. */
  function Index(s: string, pat: string): (r: int)
    ensures -1 <= r
    ensures r >= 0 ==> At(s, pat, r)
    ensures forall k :: 0 <= k < r ==> !At(s, pat, k)
    ensures r < 0 ==> forall k :: !At(s, pat, k)
    decreases |s|
  {
    if At(s, pat, 0) then 0
    else if s == "" then -1
    else
      var r := Index(s[1..], pat);
      assert forall k :: 1 <= k ==> (At(s, pat, k) <==> At(s[1..], pat, k - 1)) by {
        forall k | 1 <= k ensures At(s, pat, k) <==> At(s[1..], pat, k - 1) { AtDrop(s, pat, 1, k); }
      }
      if r < 0 then -1 else r + 1
  }

  /** ASCII whitespace of HTML tags: space, tab, LF, CR. */
  predicate IsWs(c: char) {
    c == ' ' || c == '\t' || c == '\n' || c == '\r'
  }

  ghost predicate NoWs(s: string) {
    forall i :: 0 <= i < |s| ==> !IsWs(s[i])
  }

  ghost predicate Lacks(s: string, c: char) {
    forall i :: 0 <= i < |s| ==> s[i] != c
  }
}
