/** The text of storaged's ring notes: "ns=<0|1> gen=<hex>" and "ns=<0|1> seq=<hex>", written by
    snprintf and read back by sscanf. */
module Note {
  import opened Crc
  import opened Bytes
  import opened Framing

  const NS_EQ: seq<byte> := [110, 115, 61]             // "ns="
  const GEN_EQ: seq<byte> := [103, 101, 110, 61]       // "gen="
  const SEQ_EQ: seq<byte> := [115, 101, 113, 61]       // "seq="
  const BLANK: byte := 32
  const MAX_U64 := 0xFFFF_FFFF_FFFF_FFFF

  // ------------------------------------------------------------------ printing

  function DigitChar(d: nat): byte
    requires d < 16
  {
    if d < 10 then 48 + d else 87 + d
  }

  /** n in the given base, lower case, without leading zeros. */
  function Digits(n: nat, base: nat): (s: seq<byte>)
    requires base == 10 || base == 16
    ensures s != []
    decreases n
  {
    if n < base then [DigitChar(n)] else Digits(n / base, base) + [DigitChar(n % base)]
  }

  /** "ns=%u <key>%x" */
  function NoteText(key: seq<byte>, ns: u32, v: u64): seq<byte> {
    NS_EQ + Digits(ns, 10) + [BLANK] + key + Digits(v, 16)
  }

  // ------------------------------------------------------------------ scanning

  predicate IsSpace(b: byte) { 9 <= b <= 13 || b == 32 }

  function SkipSpace(s: seq<byte>): seq<byte> {
    if s != [] && IsSpace(s[0]) then SkipSpace(s[1..]) else s
  }

  function DigitValue(b: byte, base: nat): (d: Option<nat>)
    requires base == 10 || base == 16
    ensures d.Some? ==> d.value < base
  {
    if 48 <= b <= 57 then Some(b - 48)
    else if base == 16 && 97 <= b <= 102 then Some(b - 87)
    else if base == 16 && 65 <= b <= 70 then Some(b - 55)
    else None
  }

  /** How many digits s starts with. */
  function DigitRun(s: seq<byte>, base: nat): (n: nat)
    requires base == 10 || base == 16
    ensures n <= |s|
  {
    if s != [] && DigitValue(s[0], base).Some? then 1 + DigitRun(s[1..], base) else 0
  }

  function ValueOf(s: seq<byte>, base: nat): nat
    requires base == 10 || base == 16
  {
    if s == [] then 0 else
    ValueOf(s[..|s| - 1], base) * base + DigitValue(s[|s| - 1], base).GetOr(0)
  }

  /** strtoul: too large a magnitude is the largest value; a minus sign negates modulo 2^64. */
  function ToUnsigned(negative: bool, n: nat): u64 {
    if n > MAX_U64 then MAX_U64 else if negative && n > 0 then MAX_U64 + 1 - n else n
  }

  /** One %u or %x conversion, as the GNU C library reads it: the value and what follows it. */
  function ScanNumber(s0: seq<byte>, base: nat): Option<(u64, seq<byte>)>
    requires base == 10 || base == 16
  {
    var s := SkipSpace(s0);
    var signed := s != [] && (s[0] == 43 || s[0] == 45);
    var t := if signed then s[1..] else s;
    var prefixed := base == 16 && |t| >= 2 && t[0] == 48 && (t[1] == 120 || t[1] == 88);
    var u := if prefixed then t[2..] else t;
    var n := DigitRun(u, base);
    if n == 0 && !prefixed then None
    else Some((ToUnsigned(signed && s[0] == 45, ValueOf(u[..n], base)), u[n..]))
  }

  function CString(s: seq<byte>): seq<byte> {
    if s == [] || s[0] == 0 then [] else [s[0]] + CString(s[1..])
  }

  function After(prefix: seq<byte>, s: seq<byte>): Option<seq<byte>> {
    if prefix <= s then Some(s[|prefix|..]) else None
  }

  /** The blank, the key and the hexadecimal value, with ns already read. */
  function ScanValue(key: seq<byte>, ns: u64, b: seq<byte>): Option<(u32, u64)> {
    match After(key, SkipSpace(b))
    case None => None
    case Some(c) =>
      match ScanNumber(c, 16)
      case None => None
      case Some((v, _)) => Some((ns % 0x1_0000_0000, v))
  }

  /** sscanf(text, "ns=%u <key>%x"): both numbers, or nothing. */
  function ScanNote(key: seq<byte>, text: seq<byte>): Option<(u32, u64)> {
    match After(NS_EQ, CString(text))
    case None => None
    case Some(a) =>
      match ScanNumber(a, 10)
      case None => None
      case Some((ns, b)) => ScanValue(key, ns, b)
  }

  // ------------------------------------------------------------------ a note reads back

  ghost predicate AllDigits(s: seq<byte>, base: nat)
    requires base == 10 || base == 16
  {
    forall i :: 0 <= i < |s| ==> DigitValue(s[i], base).Some?
  }

  lemma {:induction false} DigitsRead(n: nat, base: nat)
    requires base == 10 || base == 16
    ensures AllDigits(Digits(n, base), base) && ValueOf(Digits(n, base), base) == n
    decreases n
  {
    if n < base {
      assert Digits(n, base)[..0] == [];
    } else {
      DigitsRead(n / base, base);
      var p := Digits(n / base, base);
      assert Digits(n, base) == p + [DigitChar(n % base)];
      assert (p + [DigitChar(n % base)])[..|p|] == p;
      if base == 10 { assert n / 10 * 10 + n % 10 == n; } else { assert n / 16 * 16 + n % 16 == n; }
    }
  }

  lemma {:induction false} DigitRunIs(d: seq<byte>, rest: seq<byte>, base: nat)
    requires (base == 10 || base == 16) && AllDigits(d, base)
    requires rest == [] || DigitValue(rest[0], base).None?
    ensures DigitRun(d + rest, base) == |d|
    decreases |d|
  {
    if d == [] {
      assert d + rest == rest;
    } else {
      assert (d + rest)[1..] == d[1..] + rest;
      DigitRunIs(d[1..], rest, base);
    }
  }

  lemma DigitIsPlain(b: byte, base: nat)
    requires (base == 10 || base == 16) && DigitValue(b, base).Some?
    ensures !IsSpace(b) && b != 43 && b != 45 && b != 120 && b != 88
  {}

  lemma ScanDigitString(d: seq<byte>, rest: seq<byte>, base: nat)
    requires (base == 10 || base == 16) && d != [] && AllDigits(d, base)
    requires rest == [] || rest[0] == BLANK
    ensures ScanNumber(d + rest, base) == Some((ToUnsigned(false, ValueOf(d, base)), rest))
  {
    var s := d + rest;
    DigitIsPlain(d[0], base);
    if |d| >= 2 { DigitIsPlain(d[1], base); assert s[1] == d[1]; }
    assert SkipSpace(s) == s;
    DigitRunIs(d, rest, base);
    assert s[..|d|] == d && s[|d|..] == rest;
  }

  lemma ScanNumberOfDigits(n: u64, base: nat, rest: seq<byte>)
    requires base == 10 || base == 16
    requires rest == [] || rest[0] == BLANK
    ensures ScanNumber(Digits(n, base) + rest, base) == Some((n, rest))
  {
    DigitsRead(n, base);
    ScanDigitString(Digits(n, base), rest, base);
  }

  lemma {:induction false} CStringIs(s: seq<byte>)
    requires forall i :: 0 <= i < |s| ==> s[i] != 0
    ensures CString(s) == s
  {
    if s != [] { CStringIs(s[1..]); }
  }

  lemma {:induction false} DigitsBytes(n: nat, base: nat)
    requires base == 10 || base == 16
    ensures forall i :: 0 <= i < |Digits(n, base)| ==> Digits(n, base)[i] != 0
    decreases n
  {
    if n >= base { DigitsBytes(n / base, base); }
  }

  lemma NoteIsText(key: seq<byte>, ns: u32, v: u64)
    requires key == GEN_EQ || key == SEQ_EQ
    ensures CString(NoteText(key, ns, v)) == NoteText(key, ns, v)
  {
    DigitsBytes(ns, 10);
    DigitsBytes(v, 16);
    CStringIs(NoteText(key, ns, v));
  }

  lemma AfterPrefix(p: seq<byte>, s: seq<byte>)
    ensures After(p, p + s) == Some(s)
  {}

  lemma SkipOneBlank(key: seq<byte>, s: seq<byte>)
    requires key == GEN_EQ || key == SEQ_EQ
    ensures SkipSpace([BLANK] + key + s) == key + s
  {
    var t := [BLANK] + key + s;
    assert t[1..] == key + s;
    assert SkipSpace(t) == SkipSpace(t[1..]);
  }

  lemma ScanValueOf(key: seq<byte>, ns: u32, h: seq<byte>, v: u64)
    requires (key == GEN_EQ || key == SEQ_EQ) && ScanNumber(h, 16) == Some((v, []))
    ensures ScanValue(key, ns, [BLANK] + key + h) == Some((ns, v))
  {
    SkipOneBlank(key, h);
    AfterPrefix(key, h);
  }

  lemma ScanNoteOf(key: seq<byte>, text: seq<byte>, d: seq<byte>, b: seq<byte>, ns: u32, r: Option<(u32, u64)>)
    requires CString(text) == NS_EQ + (d + b) && ScanNumber(d + b, 10) == Some((ns, b)) && ScanValue(key, ns, b) == r
    ensures ScanNote(key, text) == r
  {
    AfterPrefix(NS_EQ, d + b);
  }

  lemma NoteParts(key: seq<byte>, d: seq<byte>, h: seq<byte>, b: seq<byte>)
    requires b == [BLANK] + key + h
    ensures NS_EQ + d + [BLANK] + key + h == NS_EQ + (d + b)
  {}

  lemma ReadsParts(key: seq<byte>, text: seq<byte>, ns: u32, v: u64, d: seq<byte>, h: seq<byte>, b: seq<byte>)
    requires (key == GEN_EQ || key == SEQ_EQ) && b == [BLANK] + key + h && CString(text) == NS_EQ + (d + b)
    requires ScanNumber(d + b, 10) == Some((ns, b)) && ScanNumber(h, 16) == Some((v, []))
    ensures ScanNote(key, text) == Some((ns, v))
  {
    ScanValueOf(key, ns, h, v);
    ScanNoteOf(key, text, d, b, ns, Some((ns, v)));
  }

  /** Every note storaged writes is read back as the namespace and value it holds. */
  lemma NoteReadsBack(key: seq<byte>, ns: u32, v: u64)
    requires key == GEN_EQ || key == SEQ_EQ
    ensures ScanNote(key, NoteText(key, ns, v)) == Some((ns, v))
  {
    var d, h := Digits(ns, 10), Digits(v, 16);
    var b := [BLANK] + key + h;
    NoteIsText(key, ns, v);
    NoteParts(key, d, h, b);
    ScanNumberOfDigits(ns, 10, b);
    assert h + [] == h;
    ScanNumberOfDigits(v, 16, []);
    ReadsParts(key, NoteText(key, ns, v), ns, v, d, h, b);
  }

  // ------------------------------------------------------------------ a note's length

  lemma {:induction false} DigitsShort(n: nat, k: nat)
    requires n < Pow16(k) && k > 0
    ensures |Digits(n, 16)| <= k
    decreases k
  {
    if n >= 16 { DigitsShort(n / 16, k - 1); }
  }

  function Pow16(k: nat): nat { if k == 0 then 1 else 16 * Pow16(k - 1) }

  /** "ns=0 seq=" and sixteen digits at most. */
  lemma NoteTextFits(key: seq<byte>, ns: nat, v: u64)
    requires (key == GEN_EQ || key == SEQ_EQ) && ns < 2
    ensures 10 <= |NoteText(key, ns, v)| <= 25
  {
    assert Pow16(8) == 0x1_0000_0000;
    assert Pow16(16) == 0x1_0000_0000_0000_0000;
    DigitsShort(v, 16);
  }
}
