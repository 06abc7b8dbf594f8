/** Copying into a buffer. */
module Memory {
  /** memcpy. */
  method Copy<T>(out: array<T>, at: nat, s: seq<T>)
    requires at + |s| <= out.Length
    modifies out
    ensures out[..] == old(out[..at]) + s + old(out[at + |s|..])
  {
    var i := 0;
    while i < |s|
      invariant 0 <= i <= |s|
      invariant out[..at] == old(out[..at]) && out[at..at + i] == s[..i] && out[at + i..] == old(out[at + i..])
    {
      ghost var before := out[..];
      out[at + i] := s[i];
      assert out[..] == before[at + i := s[i]];
      assert out[at..at + (i + 1)] == out[at..at + i] + [s[i]];
      i := i + 1;
    }
    assert out[..] == out[..at] + out[at..at + i] + out[at + i..];
  }
}
