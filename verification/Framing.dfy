/** Sequences of self-framing records over bytes, for any codec that decodes exactly what it encodes. */
module Framing {
  import opened Crc

  datatype Option<+T> = None | Some(value: T) {
    function GetOr(default: T): T {
      match this
      case None => default
      case Some(v) => v
    }
  }

  /** Encode and decode of one record; dec also gives the number of bytes it used. */
  datatype Codec<!R> = Codec(valid: R -> bool, enc: R -> seq<byte>, dec: seq<byte> -> Option<(R, nat)>)

  ghost predicate DecodesEncoding<R>(c: Codec<R>, r: R, tail: seq<byte>) {
    c.valid(r) ==> |c.enc(r)| > 0 && c.dec(c.enc(r) + tail) == Some((r, |c.enc(r)|))
  }

  ghost predicate EncodesDecoding<R>(c: Codec<R>, s: seq<byte>) {
    match c.dec(s)
    case None => true
    case Some((r, n)) => c.valid(r) && n == |c.enc(r)| <= |s| && s[..n] == c.enc(r)
  }

  ghost predicate Lawful<R(!new)>(c: Codec<R>) {
    && (forall r, tail :: DecodesEncoding(c, r, tail))
    && (forall s :: EncodesDecoding(c, s))
  }

  ghost predicate AllValid<R>(c: Codec<R>, rs: seq<R>) {
    forall i :: 0 <= i < |rs| ==> c.valid(rs[i])
  }

  /** The bytes of a list of records. */
  function Flat<R>(c: Codec<R>, rs: seq<R>): seq<byte> {
    if rs == [] then [] else c.enc(rs[0]) + Flat(c, rs[1..])
  }

  /** The records at the front of s, up to the first byte where nothing decodes. */
  function Parse<R>(c: Codec<R>, s: seq<byte>): seq<R>
    decreases |s|
  {
    match c.dec(s)
    case None => []
    case Some((r, n)) => if 0 < n <= |s| then [r] + Parse(c, s[n..]) else []
  }

  lemma {:induction false} FlatAppend<R>(c: Codec<R>, a: seq<R>, b: seq<R>)
    ensures Flat(c, a + b) == Flat(c, a) + Flat(c, b)
  {
    if a == [] {
      assert a + b == b;
    } else {
      assert (a + b)[0] == a[0] && (a + b)[1..] == a[1..] + b;
      FlatAppend(c, a[1..], b);
    }
  }

  lemma FlatSingle<R>(c: Codec<R>, r: R)
    ensures Flat(c, [r]) == c.enc(r)
  {}

  lemma FlatSnoc<R>(c: Codec<R>, a: seq<R>, r: R)
    ensures Flat(c, a + [r]) == Flat(c, a) + c.enc(r)
  {
    FlatAppend(c, a, [r]);
    FlatSingle(c, r);
  }

  /** Longer lists of records take strictly more bytes. */
  lemma FlatGrows<R(!new)>(c: Codec<R>, rs: seq<R>, m: nat, n: nat)
    requires Lawful(c) && AllValid(c, rs) && m <= n <= |rs|
    ensures Flat(c, rs[..m]) <= Flat(c, rs[..n])
    ensures m < n ==> |Flat(c, rs[..m])| < |Flat(c, rs[..n])|
  {
    assert rs[..n] == rs[..m] + rs[m..n];
    FlatAppend(c, rs[..m], rs[m..n]);
    if m < n {
      assert DecodesEncoding(c, rs[m], []);
      assert rs[m..n][0] == rs[m];
    }
  }

  /** Records written to the front of a file are the records read back, whatever follows. */
  lemma {:induction false} ParseOfFlat<R(!new)>(c: Codec<R>, rs: seq<R>, tail: seq<byte>)
    requires Lawful(c) && AllValid(c, rs)
    ensures Parse(c, Flat(c, rs) + tail) == rs + Parse(c, tail)
    decreases |rs|
  {
    if rs == [] {
      assert Flat(c, rs) + tail == tail;
    } else {
      var rest := Flat(c, rs[1..]) + tail;
      assert Flat(c, rs) + tail == c.enc(rs[0]) + rest;
      assert DecodesEncoding(c, rs[0], rest);
      assert (c.enc(rs[0]) + rest)[|c.enc(rs[0])|..] == rest;
      ParseOfFlat(c, rs[1..], tail);
    }
  }

  /** What was parsed re-encodes to the bytes it came from, and nothing decodes after it. */
  lemma {:induction false} FlatOfParse<R(!new)>(c: Codec<R>, s: seq<byte>)
    requires Lawful(c)
    ensures AllValid(c, Parse(c, s))
    ensures Flat(c, Parse(c, s)) <= s
    ensures c.dec(s[|Flat(c, Parse(c, s))|..]).None?
    decreases |s|
  {
    assert EncodesDecoding(c, s);
    match c.dec(s)
    case None =>
      assert s[0..] == s;
    case Some((r, n)) =>
      assert DecodesEncoding(c, r, []);
      FlatOfParse(c, s[n..]);
      var rest := Parse(c, s[n..]);
      assert Parse(c, s) == [r] + rest;
      assert ([r] + rest)[1..] == rest;
      assert s == c.enc(r) + s[n..];
      assert s[|Flat(c, Parse(c, s))|..] == s[n..][|Flat(c, rest)|..];
  }

  /** More bytes never change what decoded. */
  lemma DecodeExtends<R(!new)>(c: Codec<R>, s: seq<byte>, t: seq<byte>)
    requires Lawful(c)
    ensures c.dec(s).Some? ==> c.dec(s + t) == c.dec(s) && 0 < c.dec(s).value.1 <= |s|
  {
    assert EncodesDecoding(c, s);
    match c.dec(s)
    case None =>
    case Some((r, n)) =>
      assert DecodesEncoding(c, r, s[n..] + t);
      assert c.enc(r) + (s[n..] + t) == s + t;
  }

  /** No proper prefix of a record is a record. */
  lemma CutRecordDoesNotDecode<R(!new)>(c: Codec<R>, r: R, k: nat)
    requires Lawful(c) && c.valid(r) && k < |c.enc(r)|
    ensures c.dec(c.enc(r)[..k]).None?
  {
    var s := c.enc(r);
    DecodeExtends(c, s[..k], s[k..]);
    assert s[..k] + s[k..] == s && s + [] == s;
    assert DecodesEncoding(c, r, []);
  }

  /** Cutting a file at any byte keeps exactly the records that fit whole. */
  lemma {:induction false} ParseOfCut<R(!new)>(c: Codec<R>, rs: seq<R>, k: nat) returns (m: nat)
    requires Lawful(c) && AllValid(c, rs) && k <= |Flat(c, rs)|
    ensures m <= |rs| && Parse(c, Flat(c, rs)[..k]) == rs[..m]
    ensures |Flat(c, rs[..m])| <= k
    ensures m < |rs| ==> k < |Flat(c, rs[..m + 1])|
    decreases |rs|
  {
    if rs == [] {
      m := 0;
      ParseOfFlat(c, [], []);
      NothingDecodesEmpty(c);
      assert Flat(c, rs)[..k] == [];
    } else if k < |c.enc(rs[0])| {
      m := 0;
      assert Flat(c, rs)[..k] == c.enc(rs[0])[..k];
      CutRecordDoesNotDecode(c, rs[0], k);
      assert rs[..1] == [rs[0]];
      FlatSingle(c, rs[0]);
    } else {
      var e := |c.enc(rs[0])|;
      var m' := ParseOfCut(c, rs[1..], k - e);
      m := m' + 1;
      var rest := Flat(c, rs[1..])[..k - e];
      assert Flat(c, rs)[..k] == c.enc(rs[0]) + rest;
      assert DecodesEncoding(c, rs[0], rest);
      assert (c.enc(rs[0]) + rest)[e..] == rest;
      assert rs[..m][0] == rs[0] && rs[..m][1..] == rs[1..][..m'];
      assert rs[..m] == [rs[0]] + rs[1..][..m'];
      if m < |rs| {
        assert rs[..m + 1][0] == rs[0] && rs[..m + 1][1..] == rs[1..][..m' + 1];
      }
    }
  }

  lemma NothingDecodesEmpty<R(!new)>(c: Codec<R>)
    requires Lawful(c)
    ensures c.dec([]).None? && Parse(c, []) == []
  {
    DecodeExtends(c, [], []);
  }

  /** Cutting any file, even a damaged one, keeps a prefix of its records: the ones that fit. */
  lemma ParseOfAnyCut<R(!new)>(c: Codec<R>, s: seq<byte>, k: nat) returns (m: nat)
    requires Lawful(c) && k <= |s|
    ensures m <= |Parse(c, s)| && Parse(c, s[..k]) == Parse(c, s)[..m]
    ensures |Flat(c, Parse(c, s)[..m])| <= k
    ensures m < |Parse(c, s)| ==> k < |Flat(c, Parse(c, s)[..m + 1])|
  {
    var rs := Parse(c, s);
    FlatOfParse(c, s);
    var whole := Flat(c, rs);
    if k <= |whole| {
      assert s[..k] == whole[..k];
      m := ParseOfCut(c, rs, k);
    } else {
      m := |rs|;
      var tail := s[|whole|..k];
      assert s[..k] == whole + tail;
      ParseOfFlat(c, rs, tail);
      CutTailDoesNotDecode(c, s[|whole|..], k - |whole|);
      assert tail == s[|whole|..][..k - |whole|];
      assert rs[..m] == rs;
    }
  }

  /** If nothing decodes at the front of s, nothing decodes at the front of a prefix of s. */
  lemma CutTailDoesNotDecode<R(!new)>(c: Codec<R>, s: seq<byte>, k: nat)
    requires Lawful(c) && c.dec(s).None? && k <= |s|
    ensures c.dec(s[..k]).None?
  {
    DecodeExtends(c, s[..k], s[k..]);
    assert s[..k] + s[k..] == s;
  }
}
