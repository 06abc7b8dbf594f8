/** JSON's number grammar (section 6 of RFC 8259), and the scan that recognises it. */
module Number {
  import opened Framing

  /** A C string: no NUL inside. */
  type Text = s: string | forall i :: 0 <= i < |s| ==> s[i] != '\0' witness ""

  predicate IsDigit(c: char) { '0' <= c <= '9' }

  ghost predicate AllDigits(s: string) { forall i :: 0 <= i < |s| ==> IsDigit(s[i]) }

  // ------------------------------------------------------------------ the grammar

  /** int = zero / ( digit1-9 *DIGIT ) */
  ghost predicate IsInt(s: string) { s == "0" || (s != "" && s[0] != '0' && AllDigits(s)) }

  /** [ frac ], frac = "." 1*DIGIT */
  ghost predicate IsFrac(s: string) { s == "" || (|s| > 1 && s[0] == '.' && AllDigits(s[1..])) }

  /** [ exp ], exp = ( "e" / "E" ) [ "-" / "+" ] 1*DIGIT */
  ghost predicate IsExp(s: string) {
    s == "" || (|s| > 1 && (s[0] == 'e' || s[0] == 'E')
                && (AllDigits(s[1..]) || (|s| > 2 && (s[1] == '+' || s[1] == '-') && AllDigits(s[2..]))))
  }

  /** number = [ minus ] int [ frac ] [ exp ], with the parts ending at i, j and k. */
  ghost predicate Parts(s: string, i: nat, j: nat, k: nat) {
    i <= j <= k <= |s| && (i == 0 || (i == 1 && s[0] == '-')) && IsInt(s[i..j]) && IsFrac(s[j..k]) && IsExp(s[k..])
  }

  ghost predicate IsNumber(s: string) { exists i: nat, j: nat, k: nat :: Parts(s, i, j, k) }

  // ------------------------------------------------------------------ the scan

  /** The character at p, or NUL at the end. */
  function At(s: string, p: nat): char { if p < |s| then s[p] else '\0' }

  /** Past the digits at p. */
  function Digits(s: string, p: nat): (q: nat)
    ensures p <= q && (p <= |s| ==> q <= |s|) && !IsDigit(At(s, q))
    ensures forall i :: p <= i < q ==> i < |s| && IsDigit(s[i])
    decreases |s| - p
  {
    if p < |s| && IsDigit(s[p]) then Digits(s, p + 1) else p
  }

  function Sign(s: string): (p: nat)
    ensures p <= |s|
  {
    if At(s, 0) == '-' then 1 else 0
  }

  function ScanInt(s: string, p: nat): (q: Option<nat>)
    requires p <= |s|
    ensures q.Some? ==> p < q.value <= |s|
  {
    if At(s, p) == '0' then Some(p + 1) else if IsDigit(At(s, p)) then Some(Digits(s, p)) else None
  }

  function ScanFrac(s: string, p: nat): (q: Option<nat>)
    requires p <= |s|
    ensures q.Some? ==> p <= q.value <= |s|
  {
    if At(s, p) != '.' then Some(p) else if IsDigit(At(s, p + 1)) then Some(Digits(s, p + 1)) else None
  }

  function ScanExp(s: string, p: nat): (q: Option<nat>)
    requires p <= |s|
    ensures q.Some? ==> p <= q.value <= |s|
  {
    if At(s, p) != 'e' && At(s, p) != 'E' then Some(p) else
    var d := if At(s, p + 1) == '+' || At(s, p + 1) == '-' then p + 2 else p + 1;
    if IsDigit(At(s, d)) then Some(Digits(s, d)) else None
  }

  /** Where the number at the front of s ends, if one is there and is not broken off. */
  function NumberEnd(s: string): (q: Option<nat>)
    ensures q.Some? ==> 0 < q.value <= |s|
  {
    match ScanInt(s, Sign(s))
    case None => None
    case Some(j) =>
      match ScanFrac(s, j)
      case None => None
      case Some(k) => ScanExp(s, k)
  }

  // ------------------------------------------------------------------ the scan recognises the grammar

  lemma {:induction false} DigitsTo(s: string, p: nat, q: nat)
    requires p <= q <= |s| && AllDigits(s[p..q]) && !IsDigit(At(s, q))
    ensures Digits(s, p) == q
    decreases q - p
  {
    if p < q {
      assert s[p] == s[p..q][0] && s[p + 1..q] == s[p..q][1..];
      DigitsTo(s, p + 1, q);
    }
  }

  /** What follows a number without being part of it. */
  predicate Stops(c: char) { !IsDigit(c) && c != '.' && c != 'e' && c != 'E' }

  lemma IntEnds(s: string, i: nat, j: nat)
    requires i <= j <= |s| && IsInt(s[i..j]) && !IsDigit(At(s, j))
    ensures ScanInt(s, i) == Some(j)
  {
    assert s[i] == s[i..j][0];
    if s[i..j] != "0" { DigitsTo(s, i, j); }
  }

  lemma FracEnds(s: string, j: nat, k: nat)
    requires j <= k <= |s| && IsFrac(s[j..k]) && !IsDigit(At(s, k)) && (j == k ==> At(s, k) != '.')
    ensures ScanFrac(s, j) == Some(k)
  {
    if j < k {
      assert s[j] == s[j..k][0] && s[j + 1..k] == s[j..k][1..] && s[j + 1] == s[j..k][1];
      DigitsTo(s, j + 1, k);
    }
  }

  lemma ExpEnds(s: string, k: nat, e: nat)
    requires k <= e <= |s| && IsExp(s[k..e]) && Stops(At(s, e))
    ensures ScanExp(s, k) == Some(e)
  {
    if k < e {
      var t := s[k..e];
      assert s[k] == t[0] && s[k + 1] == t[1];
      if AllDigits(t[1..]) {
        assert t[1] == t[1..][0] && s[k + 1..e] == t[1..];
        DigitsTo(s, k + 1, e);
      } else {
        assert t[2] == t[2..][0] && s[k + 2..e] == t[2..];
        DigitsTo(s, k + 2, e);
      }
    }
  }

  /** A number followed by something that cannot continue it is scanned to its end. */
  lemma NumberScans(t: string, rest: string)
    requires IsNumber(t) && Stops(At(rest, 0))
    ensures NumberEnd(t + rest) == Some(|t|)
  {
    var i: nat, j: nat, k: nat :| Parts(t, i, j, k);
    var s, e := t + rest, |t|;
    assert s[i..j] == t[i..j] && s[j..k] == t[j..k] && s[k..e] == t[k..];
    assert At(s, e) == At(rest, 0);
    IntNotSigned(t, i, j);
    assert Sign(s) == i;
    assert j < e ==> !IsDigit(At(s, j)) by {
      if j < k { assert s[j] == s[j..k][0]; } else if k < e { assert s[k] == s[k..e][0]; }
    }
    IntEnds(s, i, j);
    assert !IsDigit(At(s, k)) && (j == k ==> At(s, k) != '.') by {
      if k < e { assert s[k] == s[k..e][0]; }
    }
    FracEnds(s, j, k);
    ExpEnds(s, k, e);
  }

  lemma IntNotSigned(t: string, i: nat, j: nat)
    requires i <= j <= |t| && IsInt(t[i..j])
    ensures i < j && t[i] != '-'
  {
    assert t[i] == t[i..j][0];
  }

  lemma ScanIntIs(s: string, i: nat)
    requires i <= |s| && ScanInt(s, i).Some?
    ensures IsInt(s[i..ScanInt(s, i).value])
  {
    var j := ScanInt(s, i).value;
    assert s[i..j][0] == s[i];
    if s[i] == '0' { assert s[i..j] == "0"; }
  }

  lemma ScanExpIs(s: string, k: nat)
    requires k <= |s| && ScanExp(s, k).Some?
    ensures IsExp(s[k..ScanExp(s, k).value])
  {
    var e := ScanExp(s, k).value;
    var t := s[k..e];
    if k < e {
      assert t[0] == s[k];
      if At(s, k + 1) == '+' || At(s, k + 1) == '-' { assert t[2..] == s[k + 2..e]; } else { assert t[1..] == s[k + 1..e]; }
    }
  }

  /** What the scan accepts whole is a number. */
  lemma ScannedIsNumber(s: string)
    requires NumberEnd(s) == Some(|s|)
    ensures IsNumber(s)
  {
    var i := Sign(s);
    var j := ScanInt(s, i).value;
    var k := ScanFrac(s, j).value;
    ScanIntIs(s, i);
    if j < k { assert s[j..k][0] == '.' && s[j..k][1..] == s[j + 1..k]; }
    ScanExpIs(s, k);
    assert s[k..|s|] == s[k..];
    assert Parts(s, i, j, k);
  }

  /** The scan reaches the end exactly on the grammar's numbers. */
  lemma ScanIsGrammar(s: string)
    ensures NumberEnd(s) == Some(|s|) <==> IsNumber(s)
  {
    if IsNumber(s) {
      NumberScans(s, "");
      assert s + "" == s;
    } else if NumberEnd(s) == Some(|s|) {
      ScannedIsNumber(s);
    }
  }

  // ------------------------------------------------------------------ json_is_number

  /** Steps over digits, one at a time. */
  method SkipDigits(text: Text, p: nat) returns (q: nat)
    requires p <= |text|
    ensures q == Digits(text, p)
  {
    q := p;
    while IsDigit(At(text, q))
      invariant p <= q <= |text| && Digits(text, q) == Digits(text, p)
      decreases |text| - q
    {
      q := q + 1;
    }
  }

  /** The optional fraction and exponent. */
  method PassTail(text: Text, start: nat) returns (ok: bool, p: nat)
    requires start <= |text|
    ensures ok ==> p <= |text|
    ensures match ScanFrac(text, start)
            case None => !ok
            case Some(k) => if ok then ScanExp(text, k) == Some(p) else ScanExp(text, k) == None
  {
    p := start;
    if At(text, p) == '.' {
      p := p + 1;
      if !IsDigit(At(text, p)) { return false, p; }
      p := SkipDigits(text, p);
    }
    if At(text, p) == 'e' || At(text, p) == 'E' {
      p := p + 1;
      if At(text, p) == '+' || At(text, p) == '-' { p := p + 1; }
      if !IsDigit(At(text, p)) { return false, p; }
      p := SkipDigits(text, p);
    }
    ok := true;
  }

  /** json_is_number accepts exactly the grammar. */
  method JsonIsNumber(text: Text) returns (ok: bool)
    ensures ok <==> IsNumber(text)
  {
    ScanIsGrammar(text);
    var p := 0;
    if At(text, p) == '-' { p := p + 1; }
    if At(text, p) == '0' {
      p := p + 1;
    } else if IsDigit(At(text, p)) {
      p := SkipDigits(text, p);
    } else {
      return false;
    }
    ok, p := PassTail(text, p);
    if ok { ok := At(text, p) == '\0'; }
  }

  // ------------------------------------------------------------------ decimals

  function Decimal(n: nat): (s: string)
    ensures s != ""
    decreases n
  {
    if n < 10 then [('0' as int + n) as char] else Decimal(n / 10) + [('0' as int + n % 10) as char]
  }

  lemma {:induction false} DecimalIsInt(n: nat)
    ensures IsInt(Decimal(n)) && (n > 0 ==> Decimal(n)[0] != '0')
    decreases n
  {
    if n >= 10 { DecimalIsInt(n / 10); }
  }

  /** %lld and %llu. */
  function ShowInt(v: int): string { if v < 0 then "-" + Decimal(-v) else Decimal(v) }

  /** Every integer is printed as a number of the grammar. */
  lemma ShowIntIsNumber(v: int)
    ensures IsNumber(ShowInt(v))
  {
    var s, i := ShowInt(v), if v < 0 then 1 else 0;
    DecimalIsInt(if v < 0 then -v else v);
    assert s[i..|s|] == if v < 0 then Decimal(-v) else Decimal(v);
    assert s[|s|..|s|] == "" && s[|s|..] == "";
    assert Parts(s, i, |s|, |s|);
  }
}
