/** CRC-32 (IEEE 802.3, reflected polynomial 0xEDB88320): the table-driven checksum of the
    record format and the bit-at-a-time definition it must agree with. */
module Crc {

  type byte = n: int | 0 <= n < 0x100

  // ------------------------------------------------------------------ the definition

  /** One bit of polynomial division. */
  function ShiftBit(c: bv32): bv32 {
    if c & 1 == 1 then 0xEDB88320 ^ (c >> 1) else c >> 1
  }

  function Iterate<T>(f: T -> T, c: T, n: nat): T
    decreases n
  {
    if n == 0 then c else Iterate(f, f(c), n - 1)
  }

  /** One byte of the bitwise definition: mix the byte in, then eight bit steps. */
  function ByteStep(c: bv32, b: bv8): bv32 {
    Iterate(ShiftBit, c ^ (b as bv32), 8)
  }

  function Fold<S, B>(f: (S, B) -> S, init: S, s: seq<B>): S {
    if s == [] then init else f(Fold(f, init, s[..|s| - 1]), s[|s| - 1])
  }

  lemma Successor(b: bv8)
    requires b != 0xFF
    ensures (b + 1) as int == b as int + 1
  {}

  /** n as a machine byte. */
  function Octet(n: byte): (b: bv8)
    ensures b as int == n
    decreases n
  {
    if n == 0 then 0 else
      Successor(Octet(n - 1));
      Octet(n - 1) + 1
  }

  function Bits(s: seq<byte>): (t: seq<bv8>)
    ensures |t| == |s| && forall i :: 0 <= i < |s| ==> t[i] == Octet(s[i])
  {
    if s == [] then [] else Bits(s[..|s| - 1]) + [Octet(s[|s| - 1])]
  }

  /** The bitwise CRC-32 of s. */
  function Crc32(s: seq<byte>): bv32 {
    Fold(ByteStep, 0xFFFFFFFF, Bits(s)) ^ 0xFFFFFFFF
  }

  // ------------------------------------------------------------------ the constant table

  /** Entries 0 to 31 of the constant table. */
  function Row0(k: bv5): bv32 {
    match k
    case 0 => 0x00000000 case 1 => 0x77073096 case 2 => 0xEE0E612C case 3 => 0x990951BA
    case 4 => 0x076DC419 case 5 => 0x706AF48F case 6 => 0xE963A535 case 7 => 0x9E6495A3
    case 8 => 0x0EDB8832 case 9 => 0x79DCB8A4 case 10 => 0xE0D5E91E case 11 => 0x97D2D988
    case 12 => 0x09B64C2B case 13 => 0x7EB17CBD case 14 => 0xE7B82D07 case 15 => 0x90BF1D91
    case 16 => 0x1DB71064 case 17 => 0x6AB020F2 case 18 => 0xF3B97148 case 19 => 0x84BE41DE
    case 20 => 0x1ADAD47D case 21 => 0x6DDDE4EB case 22 => 0xF4D4B551 case 23 => 0x83D385C7
    case 24 => 0x136C9856 case 25 => 0x646BA8C0 case 26 => 0xFD62F97A case 27 => 0x8A65C9EC
    case 28 => 0x14015C4F case 29 => 0x63066CD9 case 30 => 0xFA0F3D63 case _ => 0x8D080DF5
  }

  /** Entries 32 to 63 of the constant table. */
  function Row1(k: bv5): bv32 {
    match k
    case 0 => 0x3B6E20C8 case 1 => 0x4C69105E case 2 => 0xD56041E4 case 3 => 0xA2677172
    case 4 => 0x3C03E4D1 case 5 => 0x4B04D447 case 6 => 0xD20D85FD case 7 => 0xA50AB56B
    case 8 => 0x35B5A8FA case 9 => 0x42B2986C case 10 => 0xDBBBC9D6 case 11 => 0xACBCF940
    case 12 => 0x32D86CE3 case 13 => 0x45DF5C75 case 14 => 0xDCD60DCF case 15 => 0xABD13D59
    case 16 => 0x26D930AC case 17 => 0x51DE003A case 18 => 0xC8D75180 case 19 => 0xBFD06116
    case 20 => 0x21B4F4B5 case 21 => 0x56B3C423 case 22 => 0xCFBA9599 case 23 => 0xB8BDA50F
    case 24 => 0x2802B89E case 25 => 0x5F058808 case 26 => 0xC60CD9B2 case 27 => 0xB10BE924
    case 28 => 0x2F6F7C87 case 29 => 0x58684C11 case 30 => 0xC1611DAB case _ => 0xB6662D3D
  }

  /** Entries 64 to 95 of the constant table. */
  function Row2(k: bv5): bv32 {
    match k
    case 0 => 0x76DC4190 case 1 => 0x01DB7106 case 2 => 0x98D220BC case 3 => 0xEFD5102A
    case 4 => 0x71B18589 case 5 => 0x06B6B51F case 6 => 0x9FBFE4A5 case 7 => 0xE8B8D433
    case 8 => 0x7807C9A2 case 9 => 0x0F00F934 case 10 => 0x9609A88E case 11 => 0xE10E9818
    case 12 => 0x7F6A0DBB case 13 => 0x086D3D2D case 14 => 0x91646C97 case 15 => 0xE6635C01
    case 16 => 0x6B6B51F4 case 17 => 0x1C6C6162 case 18 => 0x856530D8 case 19 => 0xF262004E
    case 20 => 0x6C0695ED case 21 => 0x1B01A57B case 22 => 0x8208F4C1 case 23 => 0xF50FC457
    case 24 => 0x65B0D9C6 case 25 => 0x12B7E950 case 26 => 0x8BBEB8EA case 27 => 0xFCB9887C
    case 28 => 0x62DD1DDF case 29 => 0x15DA2D49 case 30 => 0x8CD37CF3 case _ => 0xFBD44C65
  }

  /** Entries 96 to 127 of the constant table. */
  function Row3(k: bv5): bv32 {
    match k
    case 0 => 0x4DB26158 case 1 => 0x3AB551CE case 2 => 0xA3BC0074 case 3 => 0xD4BB30E2
    case 4 => 0x4ADFA541 case 5 => 0x3DD895D7 case 6 => 0xA4D1C46D case 7 => 0xD3D6F4FB
    case 8 => 0x4369E96A case 9 => 0x346ED9FC case 10 => 0xAD678846 case 11 => 0xDA60B8D0
    case 12 => 0x44042D73 case 13 => 0x33031DE5 case 14 => 0xAA0A4C5F case 15 => 0xDD0D7CC9
    case 16 => 0x5005713C case 17 => 0x270241AA case 18 => 0xBE0B1010 case 19 => 0xC90C2086
    case 20 => 0x5768B525 case 21 => 0x206F85B3 case 22 => 0xB966D409 case 23 => 0xCE61E49F
    case 24 => 0x5EDEF90E case 25 => 0x29D9C998 case 26 => 0xB0D09822 case 27 => 0xC7D7A8B4
    case 28 => 0x59B33D17 case 29 => 0x2EB40D81 case 30 => 0xB7BD5C3B case _ => 0xC0BA6CAD
  }

  /** Entries 128 to 159 of the constant table. */
  function Row4(k: bv5): bv32 {
    match k
    case 0 => 0xEDB88320 case 1 => 0x9ABFB3B6 case 2 => 0x03B6E20C case 3 => 0x74B1D29A
    case 4 => 0xEAD54739 case 5 => 0x9DD277AF case 6 => 0x04DB2615 case 7 => 0x73DC1683
    case 8 => 0xE3630B12 case 9 => 0x94643B84 case 10 => 0x0D6D6A3E case 11 => 0x7A6A5AA8
    case 12 => 0xE40ECF0B case 13 => 0x9309FF9D case 14 => 0x0A00AE27 case 15 => 0x7D079EB1
    case 16 => 0xF00F9344 case 17 => 0x8708A3D2 case 18 => 0x1E01F268 case 19 => 0x6906C2FE
    case 20 => 0xF762575D case 21 => 0x806567CB case 22 => 0x196C3671 case 23 => 0x6E6B06E7
    case 24 => 0xFED41B76 case 25 => 0x89D32BE0 case 26 => 0x10DA7A5A case 27 => 0x67DD4ACC
    case 28 => 0xF9B9DF6F case 29 => 0x8EBEEFF9 case 30 => 0x17B7BE43 case _ => 0x60B08ED5
  }

  /** Entries 160 to 191 of the constant table. */
  function Row5(k: bv5): bv32 {
    match k
    case 0 => 0xD6D6A3E8 case 1 => 0xA1D1937E case 2 => 0x38D8C2C4 case 3 => 0x4FDFF252
    case 4 => 0xD1BB67F1 case 5 => 0xA6BC5767 case 6 => 0x3FB506DD case 7 => 0x48B2364B
    case 8 => 0xD80D2BDA case 9 => 0xAF0A1B4C case 10 => 0x36034AF6 case 11 => 0x41047A60
    case 12 => 0xDF60EFC3 case 13 => 0xA867DF55 case 14 => 0x316E8EEF case 15 => 0x4669BE79
    case 16 => 0xCB61B38C case 17 => 0xBC66831A case 18 => 0x256FD2A0 case 19 => 0x5268E236
    case 20 => 0xCC0C7795 case 21 => 0xBB0B4703 case 22 => 0x220216B9 case 23 => 0x5505262F
    case 24 => 0xC5BA3BBE case 25 => 0xB2BD0B28 case 26 => 0x2BB45A92 case 27 => 0x5CB36A04
    case 28 => 0xC2D7FFA7 case 29 => 0xB5D0CF31 case 30 => 0x2CD99E8B case _ => 0x5BDEAE1D
  }

  /** Entries 192 to 223 of the constant table. */
  function Row6(k: bv5): bv32 {
    match k
    case 0 => 0x9B64C2B0 case 1 => 0xEC63F226 case 2 => 0x756AA39C case 3 => 0x026D930A
    case 4 => 0x9C0906A9 case 5 => 0xEB0E363F case 6 => 0x72076785 case 7 => 0x05005713
    case 8 => 0x95BF4A82 case 9 => 0xE2B87A14 case 10 => 0x7BB12BAE case 11 => 0x0CB61B38
    case 12 => 0x92D28E9B case 13 => 0xE5D5BE0D case 14 => 0x7CDCEFB7 case 15 => 0x0BDBDF21
    case 16 => 0x86D3D2D4 case 17 => 0xF1D4E242 case 18 => 0x68DDB3F8 case 19 => 0x1FDA836E
    case 20 => 0x81BE16CD case 21 => 0xF6B9265B case 22 => 0x6FB077E1 case 23 => 0x18B74777
    case 24 => 0x88085AE6 case 25 => 0xFF0F6A70 case 26 => 0x66063BCA case 27 => 0x11010B5C
    case 28 => 0x8F659EFF case 29 => 0xF862AE69 case 30 => 0x616BFFD3 case _ => 0x166CCF45
  }

  /** Entries 224 to 255 of the constant table. */
  function Row7(k: bv5): bv32 {
    match k
    case 0 => 0xA00AE278 case 1 => 0xD70DD2EE case 2 => 0x4E048354 case 3 => 0x3903B3C2
    case 4 => 0xA7672661 case 5 => 0xD06016F7 case 6 => 0x4969474D case 7 => 0x3E6E77DB
    case 8 => 0xAED16A4A case 9 => 0xD9D65ADC case 10 => 0x40DF0B66 case 11 => 0x37D83BF0
    case 12 => 0xA9BCAE53 case 13 => 0xDEBB9EC5 case 14 => 0x47B2CF7F case 15 => 0x30B5FFE9
    case 16 => 0xBDBDF21C case 17 => 0xCABAC28A case 18 => 0x53B39330 case 19 => 0x24B4A3A6
    case 20 => 0xBAD03605 case 21 => 0xCDD70693 case 22 => 0x54DE5729 case 23 => 0x23D967BF
    case 24 => 0xB3667A2E case 25 => 0xC4614AB8 case 26 => 0x5D681B02 case 27 => 0x2A6F2B94
    case 28 => 0xB40BBE37 case 29 => 0xC30C8EA1 case 30 => 0x5A05DF1B case _ => 0x2D02EF8D
  }
  /** The 256-entry table; only the low eight bits of i count. */
  function TableEntry(i: bv32): bv32 {
    var k := (i & 0x1F) as bv5;
    match ((i >> 5) & 7) as bv3
    case 0 => Row0(k)
    case 1 => Row1(k)
    case 2 => Row2(k)
    case 3 => Row3(k)
    case 4 => Row4(k)
    case 5 => Row5(k)
    case 6 => Row6(k)
    case _ => Row7(k)
  }

  /** One byte of the table-driven form. */
  function TableStep(c: bv32, b: bv8): bv32 {
    TableEntry((c ^ (b as bv32)) & 0xFF) ^ (c >> 8)
  }

  /** The checksum as the log computes it, one table lookup a byte. */
  method RecCrc32(buf: seq<byte>) returns (crc: bv32)
    ensures crc == Crc32(buf)
  {
    var c: bv32 := 0xFFFFFFFF;
    ghost var bits := Bits(buf);
    for i := 0 to |buf|
      invariant c == Fold(TableStep, 0xFFFFFFFF, bits[..i])
    {
      FoldSnoc(TableStep, 0xFFFFFFFF, bits, i);
      c := TableStep(c, Octet(buf[i]));
    }
    assert bits[..|buf|] == bits;
    TableFoldIsBitwiseFold(bits);
    crc := c ^ 0xFFFFFFFF;
  }

  // ------------------------------------------------------------------ table and definition agree

  function EightShifts(c: bv32): bv32 {
    ShiftBit(ShiftBit(ShiftBit(ShiftBit(ShiftBit(ShiftBit(ShiftBit(ShiftBit(c))))))))
  }

  lemma EightShiftsIsIterate(c: bv32)
    ensures Iterate(ShiftBit, c, 8) == EightShifts(c)
  {
    var d := ShiftBit(ShiftBit(ShiftBit(ShiftBit(c))));
    assert Iterate(ShiftBit, d, 4) == ShiftBit(ShiftBit(ShiftBit(ShiftBit(d))));
  }

  lemma Row0IsBitwise(k: bv5)
    ensures Row0(k) == EightShifts(k as bv32 | 0x00)
  {
    match k
    case 0 => case 1 => case 2 => case 3 => case 4 => case 5 => case 6 => case 7 =>
    case 8 => case 9 => case 10 => case 11 => case 12 => case 13 => case 14 => case 15 =>
    case 16 => case 17 => case 18 => case 19 => case 20 => case 21 => case 22 => case 23 =>
    case 24 => case 25 => case 26 => case 27 => case 28 => case 29 => case 30 => case _ =>
  }

  lemma Row1IsBitwise(k: bv5)
    ensures Row1(k) == EightShifts(k as bv32 | 0x20)
  {
    match k
    case 0 => case 1 => case 2 => case 3 => case 4 => case 5 => case 6 => case 7 =>
    case 8 => case 9 => case 10 => case 11 => case 12 => case 13 => case 14 => case 15 =>
    case 16 => case 17 => case 18 => case 19 => case 20 => case 21 => case 22 => case 23 =>
    case 24 => case 25 => case 26 => case 27 => case 28 => case 29 => case 30 => case _ =>
  }

  lemma Row2IsBitwise(k: bv5)
    ensures Row2(k) == EightShifts(k as bv32 | 0x40)
  {
    match k
    case 0 => case 1 => case 2 => case 3 => case 4 => case 5 => case 6 => case 7 =>
    case 8 => case 9 => case 10 => case 11 => case 12 => case 13 => case 14 => case 15 =>
    case 16 => case 17 => case 18 => case 19 => case 20 => case 21 => case 22 => case 23 =>
    case 24 => case 25 => case 26 => case 27 => case 28 => case 29 => case 30 => case _ =>
  }

  lemma Row3IsBitwise(k: bv5)
    ensures Row3(k) == EightShifts(k as bv32 | 0x60)
  {
    match k
    case 0 => case 1 => case 2 => case 3 => case 4 => case 5 => case 6 => case 7 =>
    case 8 => case 9 => case 10 => case 11 => case 12 => case 13 => case 14 => case 15 =>
    case 16 => case 17 => case 18 => case 19 => case 20 => case 21 => case 22 => case 23 =>
    case 24 => case 25 => case 26 => case 27 => case 28 => case 29 => case 30 => case _ =>
  }

  lemma Row4IsBitwise(k: bv5)
    ensures Row4(k) == EightShifts(k as bv32 | 0x80)
  {
    match k
    case 0 => case 1 => case 2 => case 3 => case 4 => case 5 => case 6 => case 7 =>
    case 8 => case 9 => case 10 => case 11 => case 12 => case 13 => case 14 => case 15 =>
    case 16 => case 17 => case 18 => case 19 => case 20 => case 21 => case 22 => case 23 =>
    case 24 => case 25 => case 26 => case 27 => case 28 => case 29 => case 30 => case _ =>
  }

  lemma Row5IsBitwise(k: bv5)
    ensures Row5(k) == EightShifts(k as bv32 | 0xA0)
  {
    match k
    case 0 => case 1 => case 2 => case 3 => case 4 => case 5 => case 6 => case 7 =>
    case 8 => case 9 => case 10 => case 11 => case 12 => case 13 => case 14 => case 15 =>
    case 16 => case 17 => case 18 => case 19 => case 20 => case 21 => case 22 => case 23 =>
    case 24 => case 25 => case 26 => case 27 => case 28 => case 29 => case 30 => case _ =>
  }

  lemma Row6IsBitwise(k: bv5)
    ensures Row6(k) == EightShifts(k as bv32 | 0xC0)
  {
    match k
    case 0 => case 1 => case 2 => case 3 => case 4 => case 5 => case 6 => case 7 =>
    case 8 => case 9 => case 10 => case 11 => case 12 => case 13 => case 14 => case 15 =>
    case 16 => case 17 => case 18 => case 19 => case 20 => case 21 => case 22 => case 23 =>
    case 24 => case 25 => case 26 => case 27 => case 28 => case 29 => case 30 => case _ =>
  }

  lemma Row7IsBitwise(k: bv5)
    ensures Row7(k) == EightShifts(k as bv32 | 0xE0)
  {
    match k
    case 0 => case 1 => case 2 => case 3 => case 4 => case 5 => case 6 => case 7 =>
    case 8 => case 9 => case 10 => case 11 => case 12 => case 13 => case 14 => case 15 =>
    case 16 => case 17 => case 18 => case 19 => case 20 => case 21 => case 22 => case 23 =>
    case 24 => case 25 => case 26 => case 27 => case 28 => case 29 => case 30 => case _ =>
  }
  /** Every table entry is the bitwise register step of its index. */
  lemma TableIsBitwise(i: bv32)
    requires i & 0xFF == i
    ensures TableEntry(i) == Iterate(ShiftBit, i, 8)
  {
    var k := (i & 0x1F) as bv5;
    EightShiftsIsIterate(i);
    match ((i >> 5) & 7) as bv3
    case 0 => Row0IsBitwise(k); assert k as bv32 | 0x00 == i;
    case 1 => Row1IsBitwise(k); assert k as bv32 | 0x20 == i;
    case 2 => Row2IsBitwise(k); assert k as bv32 | 0x40 == i;
    case 3 => Row3IsBitwise(k); assert k as bv32 | 0x60 == i;
    case 4 => Row4IsBitwise(k); assert k as bv32 | 0x80 == i;
    case 5 => Row5IsBitwise(k); assert k as bv32 | 0xA0 == i;
    case 6 => Row6IsBitwise(k); assert k as bv32 | 0xC0 == i;
    case _ => Row7IsBitwise(k); assert k as bv32 | 0xE0 == i;
  }

  function Xor(a: bv32, b: bv32): bv32 { a ^ b }
  function Half(c: bv32): bv32 { c >> 1 }
  predicate Even(c: bv32) { c & 1 == 0 }

  predicate HoldsAlong<T>(p: T -> bool, f: T -> T, c: T, n: nat)
    decreases n
  {
    n == 0 || (p(c) && HoldsAlong(p, f, f(c), n - 1))
  }

  /** Mixing in a value that satisfies p commutes with f, which only halves that value. */
  ghost predicate Splits<T>(f: T -> T, half: T -> T, mix: (T, T) -> T, p: T -> bool, lo: T, hi: T) {
    p(hi) ==> f(mix(lo, hi)) == mix(f(lo), half(hi))
  }

  lemma {:induction false} IterateSplits<T(!new)>(f: T -> T, half: T -> T, mix: (T, T) -> T, p: T -> bool,
                                                  lo: T, hi: T, n: nat)
    requires forall a, b :: Splits(f, half, mix, p, a, b)
    requires HoldsAlong(p, half, hi, n)
    ensures Iterate(f, mix(lo, hi), n) == mix(Iterate(f, lo, n), Iterate(half, hi, n))
    decreases n
  {
    if n > 0 {
      assert Splits(f, half, mix, p, lo, hi);
      IterateSplits(f, half, mix, p, f(lo), half(hi), n - 1);
    }
  }

  lemma ShiftOdd(c: bv32)
    requires c & 1 == 1
    ensures ShiftBit(c) == 0xEDB88320 ^ (c >> 1)
  {}

  lemma ShiftEven(c: bv32)
    requires c & 1 == 0
    ensures ShiftBit(c) == c >> 1
  {}

  lemma XorHalves(p: bv32, a: bv32, b: bv32)
    ensures (a ^ b) >> 1 == (a >> 1) ^ (b >> 1)
    ensures p ^ ((a ^ b) >> 1) == (p ^ (a >> 1)) ^ (b >> 1)
  {}

  lemma XorKeepsLowBit(a: bv32, b: bv32)
    requires b & 1 == 0
    ensures (a ^ b) & 1 == a & 1
  {}

  lemma ShiftBitSplits(lo: bv32, hi: bv32)
    ensures Splits(ShiftBit, Half, Xor, Even, lo, hi)
  {
    if hi & 1 == 0 {
      XorKeepsLowBit(lo, hi);
      XorHalves(0xEDB88320, lo, hi);
      var x := lo ^ hi;
      if lo & 1 == 1 { ShiftOdd(lo); ShiftOdd(x); } else { ShiftEven(lo); ShiftEven(x); }
    }
  }

  lemma HighBytesOnlyHalve(hi: bv32)
    requires hi & 0xFF == 0
    ensures HoldsAlong(Even, Half, hi, 8) && Iterate(Half, hi, 8) == hi >> 8
  {
    var m := Half(Half(Half(Half(hi))));
    assert HoldsAlong(Even, Half, m, 4) && Iterate(Half, m, 4) == hi >> 8;
  }

  lemma ShiftsSplit(lo: bv32, hi: bv32, n: nat)
    requires HoldsAlong(Even, Half, hi, n)
    ensures Iterate(ShiftBit, Xor(lo, hi), n) == Xor(Iterate(ShiftBit, lo, n), Iterate(Half, hi, n))
  {
    forall a, b ensures Splits(ShiftBit, Half, Xor, Even, a, b) { ShiftBitSplits(a, b); }
    IterateSplits(ShiftBit, Half, Xor, Even, lo, hi, n);
  }

  lemma EightShiftsSplit(lo: bv32, hi: bv32)
    requires hi & 0xFF == 0
    ensures Iterate(ShiftBit, lo ^ hi, 8) == Iterate(ShiftBit, lo, 8) ^ (hi >> 8)
  {
    HighBytesOnlyHalve(hi);
    ShiftsSplit(lo, hi, 8);
  }

  lemma ByteStepIsIterate(c: bv32, b: bv8)
    ensures ByteStep(c, b) == Iterate(ShiftBit, c ^ (b as bv32), 8)
  {}

  lemma SplitLowByte(x: bv32)
    ensures (x & 0xFF) ^ (x & 0xFFFFFF00) == x
    ensures (x & 0xFFFFFF00) & 0xFF == 0 && (x & 0xFFFFFF00) >> 8 == x >> 8
  {}

  lemma ShiftsOfParts(x: bv32, lo: bv32, hi: bv32)
    requires lo ^ hi == x && hi & 0xFF == 0 && hi >> 8 == x >> 8
    ensures Iterate(ShiftBit, x, 8) == Iterate(ShiftBit, lo, 8) ^ (x >> 8)
  {
    EightShiftsSplit(lo, hi);
  }

  lemma ShiftsOfLowByte(x: bv32)
    ensures Iterate(ShiftBit, x, 8) == Iterate(ShiftBit, x & 0xFF, 8) ^ (x >> 8)
  {
    SplitLowByte(x);
    ShiftsOfParts(x, x & 0xFF, x & 0xFFFFFF00);
  }

  lemma XorOfByte(c: bv32, b: bv8)
    ensures (c ^ (b as bv32)) >> 8 == c >> 8
  {}

  lemma LowByteIsIndex(x: bv32)
    ensures (x & 0xFF) & 0xFF == x & 0xFF
  {}

  lemma StepFromEntry(c: bv32, b: bv8, x: bv32, t: bv32, d: bv32)
    requires x == c ^ (b as bv32) && t == Iterate(ShiftBit, x & 0xFF, 8) && d == x >> 8
    ensures t ^ d == ByteStep(c, b)
  {
    ShiftsOfLowByte(x);
    ByteStepIsIterate(c, b);
  }

  lemma TableStepIsEntry(c: bv32, b: bv8, t: bv32, d: bv32)
    requires t == TableEntry((c ^ (b as bv32)) & 0xFF) && d == c >> 8
    ensures TableStep(c, b) == t ^ d
  {}

  lemma StepsAgree(c: bv32, b: bv8, x: bv32, lo: bv32, t: bv32, d: bv32)
    requires x == c ^ (b as bv32) && lo == x & 0xFF && d == x >> 8 && d == c >> 8
    requires t == TableEntry(lo) && t == Iterate(ShiftBit, lo, 8)
    ensures TableStep(c, b) == ByteStep(c, b)
  {
    StepFromEntry(c, b, x, t, d);
    TableStepIsEntry(c, b, t, d);
  }

  lemma EntryOfLowByte(lo: bv32, x: bv32)
    requires lo == x & 0xFF
    ensures TableEntry(lo) == Iterate(ShiftBit, lo, 8)
  {
    LowByteIsIndex(x);
    TableIsBitwise(lo);
  }

  /** The table step and the eight-bit-step definition are the same function. */
  lemma TableStepIsByteStep(c: bv32, b: bv8)
    ensures TableStep(c, b) == ByteStep(c, b)
  {
    var x := c ^ (b as bv32);
    XorOfByte(c, b);
    EntryOfLowByte(x & 0xFF, x);
    StepsAgree(c, b, x, x & 0xFF, TableEntry(x & 0xFF), x >> 8);
  }

  lemma FoldSnoc<S, B>(f: (S, B) -> S, init: S, s: seq<B>, i: nat)
    requires i < |s|
    ensures Fold(f, init, s[..i + 1]) == f(Fold(f, init, s[..i]), s[i])
  {
    assert s[..i + 1][..i] == s[..i];
  }

  lemma {:induction false} FoldCongruence<S(!new), B(!new)>(f: (S, B) -> S, g: (S, B) -> S, init: S, s: seq<B>)
    requires forall c, b :: f(c, b) == g(c, b)
    ensures Fold(f, init, s) == Fold(g, init, s)
  {
    if s != [] { FoldCongruence(f, g, init, s[..|s| - 1]); }
  }

  lemma TableFoldIsBitwiseFold(s: seq<bv8>)
    ensures Fold(TableStep, 0xFFFFFFFF, s) == Fold(ByteStep, 0xFFFFFFFF, s)
  {
    forall c, b ensures TableStep(c, b) == ByteStep(c, b) { TableStepIsByteStep(c, b); }
    FoldCongruence(TableStep, ByteStep, 0xFFFFFFFF, s);
  }

  // ------------------------------------------------------------------ one changed byte changes the CRC

  /** The word that one bit step came from: the polynomial's top bit is 1 and a shifted word's is 0, so the
      top bit of the result is the bit that was shifted out. */
  function UnshiftBit(next: bv32): bv32 {
    if next & 0x80000000 != 0 then ((0xEDB88320 ^ next) << 1) | 1 else next << 1
  }

  lemma UnshiftBitOfShiftBit(c: bv32)
    ensures UnshiftBit(ShiftBit(c)) == c
  {}

  /** A function with a left inverse keeps different arguments different. */
  lemma UndoneIsInjective<T>(f: T -> T, undo: T -> T, a: T, b: T)
    requires undo(f(a)) == a && undo(f(b)) == b && a != b
    ensures f(a) != f(b)
  {}

  lemma ShiftBitInjective(a: bv32, b: bv32)
    requires a != b
    ensures ShiftBit(a) != ShiftBit(b)
  {
    UnshiftBitOfShiftBit(a);
    UnshiftBitOfShiftBit(b);
    UndoneIsInjective(ShiftBit, UnshiftBit, a, b);
  }

  lemma {:induction false} IterateInjective(a: bv32, b: bv32, n: nat)
    requires a != b
    ensures Iterate(ShiftBit, a, n) != Iterate(ShiftBit, b, n)
    decreases n
  {
    if n > 0 {
      ShiftBitInjective(a, b);
      IterateInjective(ShiftBit(a), ShiftBit(b), n - 1);
    }
  }

  lemma XorInjective(c: bv32, d: bv32, b: bv8, e: bv8)
    ensures c != d ==> c ^ (b as bv32) != d ^ (b as bv32)
    ensures b != e ==> c ^ (b as bv32) != c ^ (e as bv32)
  {}

  /** The register step loses nothing: different registers, or different bytes, stay different. */
  lemma ByteStepInjective(c: bv32, d: bv32, b: bv8, e: bv8)
    requires (c != d && b == e) || (c == d && b != e)
    ensures ByteStep(c, b) != ByteStep(d, e)
  {
    var x, y := c ^ (b as bv32), d ^ (e as bv32);
    XorInjective(c, d, b, e);
    IterateInjective(x, y, 8);
    ByteStepIsIterate(c, b);
    ByteStepIsIterate(d, e);
  }

  ghost predicate Injective<S, B>(f: (S, B) -> S, c: S, d: S, b: B, e: B) {
    (c != d && b == e) || (c == d && b != e) ==> f(c, b) != f(d, e)
  }

  lemma {:induction false} FoldSeesOneItem<S(!new), B(!new)>(f: (S, B) -> S, init: S, s: seq<B>, i: nat, b: B)
    requires forall c, d, x, y :: Injective(f, c, d, x, y)
    requires i < |s| && b != s[i]
    ensures Fold(f, init, s) != Fold(f, init, s[i := b])
  {
    var n := |s| - 1;
    var p := s[..n];
    if i == n {
      assert s[i := b][..n] == p;
      assert Injective(f, Fold(f, init, p), Fold(f, init, p), s[n], b);
    } else {
      assert s[i := b][..n] == p[i := b];
      FoldSeesOneItem(f, init, p, i, b);
      assert Injective(f, Fold(f, init, p), Fold(f, init, p[i := b]), s[n], s[n]);
    }
  }

  lemma XorOnesInjective(c: bv32, d: bv32)
    requires c != d
    ensures c ^ 0xFFFFFFFF != d ^ 0xFFFFFFFF
  {}

  lemma BitsOfUpdate(s: seq<byte>, i: nat, b: byte)
    requires i < |s| && b != s[i]
    ensures Bits(s)[i] != Octet(b) && Bits(s[i := b]) == Bits(s)[i := Octet(b)]
  {}

  lemma ByteStepsInjective()
    ensures forall c, d, x, y :: Injective(ByteStep, c, d, x, y)
  {
    forall c, d, x, y ensures Injective(ByteStep, c, d, x, y) {
      if (c != d && x == y) || (c == d && x != y) { ByteStepInjective(c, d, x, y); }
    }
  }

  lemma BitsChangeCrc(t: seq<bv8>, i: nat, e: bv8)
    requires i < |t| && e != t[i]
    ensures Fold(ByteStep, 0xFFFFFFFF, t) ^ 0xFFFFFFFF != Fold(ByteStep, 0xFFFFFFFF, t[i := e]) ^ 0xFFFFFFFF
  {
    ByteStepsInjective();
    FoldSeesOneItem(ByteStep, 0xFFFFFFFF, t, i, e);
    XorOnesInjective(Fold(ByteStep, 0xFFFFFFFF, t), Fold(ByteStep, 0xFFFFFFFF, t[i := e]));
  }

  /** Replacing any single byte of any input changes its CRC-32. */
  lemma OneByteChangesCrc(s: seq<byte>, i: nat, b: byte)
    requires i < |s| && b != s[i]
    ensures Crc32(s) != Crc32(s[i := b])
  {
    BitsOfUpdate(s, i, b);
    BitsChangeCrc(Bits(s), i, Octet(b));
  }

  // ------------------------------------------------------------------ the four stored bytes

  function CrcBytes(c: bv32): (s: seq<byte>)
    ensures |s| == 4
  {
    [(c & 0xFF) as bv8 as int, ((c >> 8) & 0xFF) as bv8 as int,
     ((c >> 16) & 0xFF) as bv8 as int, ((c >> 24) & 0xFF) as bv8 as int]
  }

  lemma SomeByteDiffers(c: bv32, d: bv32)
    requires c != d
    ensures (c & 0xFF) as bv8 != (d & 0xFF) as bv8 || ((c >> 8) & 0xFF) as bv8 != ((d >> 8) & 0xFF) as bv8
         || ((c >> 16) & 0xFF) as bv8 != ((d >> 16) & 0xFF) as bv8 || ((c >> 24) & 0xFF) as bv8 != ((d >> 24) & 0xFF) as bv8
  {}

  lemma AsIntSeparates(b: bv8, c: bv8)
    requires b != c
    ensures b as int != c as int
  {}

  lemma CrcBytesInjective(c: bv32, d: bv32)
    requires c != d
    ensures CrcBytes(c) != CrcBytes(d)
  {
    SomeByteDiffers(c, d);
    if
    case (c & 0xFF) as bv8 != (d & 0xFF) as bv8 =>
      AsIntSeparates((c & 0xFF) as bv8, (d & 0xFF) as bv8);
      assert CrcBytes(c)[0] != CrcBytes(d)[0];
    case ((c >> 8) & 0xFF) as bv8 != ((d >> 8) & 0xFF) as bv8 =>
      AsIntSeparates(((c >> 8) & 0xFF) as bv8, ((d >> 8) & 0xFF) as bv8);
      assert CrcBytes(c)[1] != CrcBytes(d)[1];
    case ((c >> 16) & 0xFF) as bv8 != ((d >> 16) & 0xFF) as bv8 =>
      AsIntSeparates(((c >> 16) & 0xFF) as bv8, ((d >> 16) & 0xFF) as bv8);
      assert CrcBytes(c)[2] != CrcBytes(d)[2];
    case ((c >> 24) & 0xFF) as bv8 != ((d >> 24) & 0xFF) as bv8 =>
      AsIntSeparates(((c >> 24) & 0xFF) as bv8, ((d >> 24) & 0xFF) as bv8);
      assert CrcBytes(c)[3] != CrcBytes(d)[3];
  }

  /** The stored checksum of s: its CRC-32, little-endian. */
  function Check(s: seq<byte>): (t: seq<byte>)
    ensures |t| == 4
  {
    CrcBytes(Crc32(s))
  }

  lemma OneByteChangesCheck(s: seq<byte>, i: nat, b: byte)
    requires i < |s| && b != s[i]
    ensures Check(s) != Check(s[i := b])
  {
    OneByteChangesCrc(s, i, b);
    CrcBytesInjective(Crc32(s), Crc32(s[i := b]));
  }
}
