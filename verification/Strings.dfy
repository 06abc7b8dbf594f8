/** Looking for a character in a text. */
module Strings {
  predicate Has(s: string, c: char) { exists i :: 0 <= i < |s| && s[i] == c }

  /** memchr: where c first stands, or the length if it does not. */
  function Find(s: string, c: char): (n: nat)
    ensures n <= |s| && (n < |s| ==> s[n] == c) && forall i :: 0 <= i < n ==> s[i] != c
  {
    if s == "" || s[0] == c then 0 else
    var n := Find(s[1..], c);
    assert forall i :: 0 < i < n + 1 ==> s[i] == s[1..][i - 1];
    n + 1
  }

  lemma FindUnique(s: string, c: char, k: nat)
    requires k <= |s| && (k < |s| ==> s[k] == c) && forall i :: 0 <= i < k ==> s[i] != c
    ensures Find(s, c) == k
  {}

  lemma FindIs(a: string, c: char, rest: string)
    requires !Has(a, c) && (rest == "" || rest[0] == c)
    ensures Find(a + rest, c) == |a|
    ensures (a + rest)[..|a|] == a && (a + rest)[|a|..] == rest
  {
    forall i | 0 <= i < |a| ensures (a + rest)[i] != c { assert (a + rest)[i] == a[i]; }
    FindUnique(a + rest, c, |a|);
  }
}
