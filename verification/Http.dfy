/** statusd's request parser: what it accepts, that its verdict is final, and so independent of how
    the bytes arrive. */
module Http {
  import opened Framing
  import opened Strings

  const MAX_REQUEST := 4096
  const PATH_MAX := 128
  const QUERY_MAX := 256

  datatype Verdict = Incomplete | Accepted(path: string, query: string) | Bad | BadMethod | TooLarge

  // ------------------------------------------------------------------ percent-encoding

  function HexVal(c: char): Option<nat> {
    if '0' <= c <= '9' then Some(c as int - '0' as int)
    else if 'a' <= c <= 'f' then Some(c as int - 'a' as int + 10)
    else if 'A' <= c <= 'F' then Some(c as int - 'A' as int + 10)
    else None
  }

  /** One decoded character at the front of s, and how long its spelling is. */
  function DecodeOne(s: string): Option<(char, nat)> {
    if s == "" then None else if s[0] != '%' then Some((s[0], 1)) else if |s| < 3 then None else
    match HexVal(s[1])
    case None => None
    case Some(h) =>
      match HexVal(s[2])
      case None => None
      case Some(l) => if 16 * h + l == 0 || 16 * h + l > 255 then None else Some(((16 * h + l) as char, 3))
  }

  /** The same where '+' is a space. */
  function DecodeOnePlus(s: string): Option<(char, nat)> {
    if s != "" && s[0] == '+' then Some((' ', 1)) else DecodeOne(s)
  }

  /** The whole of s, decoded one character at a time, if it fits cap bytes with its NUL. */
  function DecodeWith(one: string -> Option<(char, nat)>, s: string, cap: nat): Option<string>
    decreases |s|
  {
    if cap == 0 then None else if s == "" then Some("") else
    match one(s)
    case None => None
    case Some((c, n)) =>
      if cap < 2 || !(0 < n <= |s|) then None else Prepend([c], DecodeWith(one, s[n..], cap - 1))
  }

  /** decode. */
  function Decode(s: string, cap: nat, plus: bool): Option<string> {
    DecodeWith(if plus then DecodeOnePlus else DecodeOne, s, cap)
  }

  function Prepend(a: string, r: Option<string>): Option<string> {
    match r case None => None case Some(s) => Some(a + s)
  }

  lemma PrependNothing(r: Option<string>)
    ensures Prepend("", r) == r
  {
    if r.Some? { assert "" + r.value == r.value; }
  }

  lemma PrependTwice(a: string, b: string, r: Option<string>)
    ensures Prepend(a, Prepend(b, r)) == Prepend(a + b, r)
  {
    if r.Some? { assert a + (b + r.value) == a + b + r.value; }
  }

  /** decode's loop. */
  method DecodeInto(s: string, cap: nat, plus: bool) returns (r: Option<string>)
    ensures r == Decode(s, cap, plus)
  {
    r := DecodeLoop(if plus then DecodeOnePlus else DecodeOne, s, cap);
  }

  method DecodeLoop(one: string -> Option<(char, nat)>, s: string, cap: nat) returns (r: Option<string>)
    ensures r == DecodeWith(one, s, cap)
  {
    if cap == 0 { return None; }
    var i, out := 0, "";
    assert s[0..] == s;
    PrependNothing(DecodeWith(one, s, cap));
    while i < |s|
      invariant i <= |s| && |out| < cap
      invariant DecodeWith(one, s, cap) == Prepend(out, DecodeWith(one, s[i..], cap - |out|))
    {
      var next := one(s[i..]);
      if next.None? || |out| + 1 >= cap { return None; }
      var (c, n) := next.value;
      if !(0 < n <= |s| - i) { return None; }
      assert s[i..][n..] == s[i + n..];
      PrependTwice(out, [c], DecodeWith(one, s[i + n..], cap - |out| - 1));
      i, out := i + n, out + [c];
    }
    assert out + "" == out;
    r := Some(out);
  }

  // ------------------------------------------------------------------ paths

  /** dec has a ".." segment at [i, i + 2). */
  predicate DotDotAt(dec: string, i: nat) {
    i + 2 <= |dec| && dec[i] == '.' && dec[i + 1] == '.' && (i == 0 || dec[i - 1] == '/') && (i + 2 == |dec| || dec[i + 2] == '/')
  }

  predicate PathChar(c: char) { c >= ' ' && c != 0x7F as char && c != '\\' }

  /** No ".." segment and no byte that no path should carry, after decoding. */
  ghost predicate SafePath(path: string) {
    match Decode(path, PATH_MAX, false)
    case None => false
    case Some(dec) => (forall i :: 0 <= i < |dec| ==> PathChar(dec[i])) && forall i :: 0 <= i < |dec| ==> !DotDotAt(dec, i)
  }

  /** path_is_unsafe: one pass over the decoded path, remembering where the segment began. */
  method PathIsUnsafe(path: string) returns (unsafe: bool)
    ensures unsafe <==> !SafePath(path)
  {
    var d := DecodeInto(path, PATH_MAX, false);
    if d.None? { return true; }
    var dec, seg, i := d.value, 0, 0;
    while i <= |dec|
      invariant 0 <= seg <= i <= |dec| + 1 && (seg == 0 || seg == |dec| + 1 || dec[seg - 1] == '/')
      invariant i <= |dec| || seg == |dec| + 1
      invariant forall j :: seg <= j < i && j < |dec| ==> dec[j] != '/'
      invariant forall j :: 0 <= j < i && j < |dec| ==> PathChar(dec[j])
      invariant forall j :: 0 <= j < seg ==> !DotDotAt(dec, j)
    {
      if i < |dec| && !PathChar(dec[i]) { return true; }
      if i == |dec| || dec[i] == '/' {
        if i - seg == 2 && dec[seg] == '.' && dec[seg + 1] == '.' {
          assert DotDotAt(dec, seg);
          return true;
        }
        assert forall j :: seg <= j <= i ==> !DotDotAt(dec, j);
        seg := i + 1;
      }
      i := i + 1;
    }
    unsafe := false;
  }

  // ------------------------------------------------------------------ the request

  const CRLF := ['\r', '\n']
  const BLANK_LINE := ['\r', '\n', '\r', '\n']

  predicate Occurs(s: string, p: string, i: nat) { i + |p| <= |s| && s[i..i + |p|] == p }

  /** memmem: where p first occurs. */
  function Search(s: string, p: string, from: nat): (r: Option<nat>)
    requires from <= |s|
    ensures match r
            case None => forall i :: from <= i <= |s| ==> !Occurs(s, p, i)
            case Some(n) => from <= n && Occurs(s, p, n) && forall i :: from <= i < n ==> !Occurs(s, p, i)
    decreases |s| - from
  {
    if Occurs(s, p, from) then Some(from) else if from == |s| then None else Search(s, p, from + 1)
  }

  predicate HeadChar(c: char) { (c >= ' ' || c == '\r' || c == '\n' || c == '\t') && c != 0x7F as char }

  predicate TargetChar(c: char) { ' ' < c < 0x7F as char && c != '\\' }

  /** What follows the request line's first space: the target and the version. */
  ghost function ParseTarget(t: string): Verdict {
    var sp := Find(t, ' ');
    if sp == |t| then Bad else
    var target, ver := t[..sp], t[sp + 1..];
    if ver != "HTTP/1.1" && ver != "HTTP/1.0" then Bad else
    if target == "" || target[0] != '/' || !(forall i :: 0 <= i < |target| ==> TargetChar(target[i])) then Bad else
    var q := Find(target, '?');
    var path, query := target[..q], if q < |target| then target[q + 1..] else "";
    if |path| >= PATH_MAX || |query| >= QUERY_MAX || !SafePath(path) then Bad else Accepted(path, query)
  }

  ghost function ParseRequestLine(line: string): Verdict {
    if Has(line, '\n') || Has(line, '\r') then Bad else
    var sp := Find(line, ' ');
    if sp == |line| then Bad else if line[..sp] != "GET" then BadMethod else ParseTarget(line[sp + 1..])
  }

  /** The verdict on a whole head, which ends in a blank line. */
  ghost function ParseHead(head: string): Verdict {
    if !(forall i :: 0 <= i < |head| ==> HeadChar(head[i])) then Bad else
    match Search(head, CRLF, 0)
    case None => Bad
    case Some(eol) => ParseRequestLine(head[..eol])
  }

  /** http_parse_request. */
  ghost function Parse(buf: string): Verdict {
    match Search(buf, BLANK_LINE, 0)
    case None => if |buf| >= MAX_REQUEST then TooLarge else Incomplete
    case Some(end) => if end + 4 > MAX_REQUEST then TooLarge else ParseHead(buf[..end + 4])
  }

  method HeadIsClean(head: string) returns (ok: bool)
    ensures ok <==> forall i :: 0 <= i < |head| ==> HeadChar(head[i])
  {
    var i := 0;
    while i < |head|
      invariant 0 <= i <= |head| && forall j :: 0 <= j < i ==> HeadChar(head[j])
    {
      if !HeadChar(head[i]) { return false; }
      i := i + 1;
    }
    ok := true;
  }

  /** http_parse_request, as it runs. */
  method HttpParseRequest(buf: string) returns (v: Verdict)
    ensures v == Parse(buf)
  {
    var end := Search(buf, BLANK_LINE, 0);
    if end.None? { return if |buf| >= MAX_REQUEST then TooLarge else Incomplete; }
    if end.value + 4 > MAX_REQUEST { return TooLarge; }
    var head := buf[..end.value + 4];
    var clean := HeadIsClean(head);
    if !clean { return Bad; }
    var eol := Search(head, CRLF, 0);
    if eol.None? { return Bad; }
    v := RequestLine(head[..eol.value]);
  }

  method RequestLine(line: string) returns (v: Verdict)
    ensures v == ParseRequestLine(line)
  {
    if Has(line, '\n') || Has(line, '\r') { return Bad; }
    var sp := Find(line, ' ');
    if sp == |line| { return Bad; }
    if line[..sp] != "GET" { return BadMethod; }
    v := RequestTarget(line[sp + 1..]);
  }

  method RequestTarget(t: string) returns (v: Verdict)
    ensures v == ParseTarget(t)
  {
    var sp := Find(t, ' ');
    if sp == |t| { return Bad; }
    var target, ver := t[..sp], t[sp + 1..];
    if ver != "HTTP/1.1" && ver != "HTTP/1.0" { return Bad; }
    if target == "" || target[0] != '/' { return Bad; }
    var i := 0;
    while i < |target|
      invariant 0 <= i <= |target| && forall j :: 0 <= j < i ==> TargetChar(target[j])
    {
      if !TargetChar(target[i]) { return Bad; }
      i := i + 1;
    }
    var q := Find(target, '?');
    var path, query := target[..q], if q < |target| then target[q + 1..] else "";
    if |path| >= PATH_MAX || |query| >= QUERY_MAX { return Bad; }
    var unsafe := PathIsUnsafe(path);
    v := if unsafe then Bad else Accepted(path, query);
  }

  // ------------------------------------------------------------------ verdicts are final

  lemma OccursInPrefix(a: string, b: string, p: string, i: nat)
    requires i + |p| <= |a|
    ensures Occurs(a + b, p, i) <==> Occurs(a, p, i)
  {
    assert (a + b)[i..i + |p|] == a[i..i + |p|];
  }

  lemma SearchUnique(s: string, p: string, n: nat)
    requires Occurs(s, p, n) && forall i :: 0 <= i < n ==> !Occurs(s, p, i)
    ensures Search(s, p, 0) == Some(n)
  {}

  /** More bytes do not move the first occurrence. */
  lemma SearchExtends(a: string, b: string, p: string)
    requires Search(a, p, 0).Some?
    ensures Search(a + b, p, 0) == Search(a, p, 0)
  {
    var n := Search(a, p, 0).value;
    OccursInPrefix(a, b, p, n);
    forall i | 0 <= i < n ensures !Occurs(a + b, p, i) { OccursInPrefix(a, b, p, i); }
    SearchUnique(a + b, p, n);
  }

  /** What first occurs only with more bytes ends in them. */
  lemma SearchEndsInMore(a: string, b: string, p: string)
    requires Search(a, p, 0).None? && Search(a + b, p, 0).Some?
    ensures Search(a + b, p, 0).value + |p| > |a|
  {
    forall i: nat | i + |p| <= |a| ensures !Occurs(a + b, p, i) { OccursInPrefix(a, b, p, i); }
  }

  /** Once the answer is anything but incomplete, no further bytes change it, nor the path and query
      it carries. */
  lemma VerdictIsFinal(buf: string, more: string)
    requires !Parse(buf).Incomplete?
    ensures Parse(buf + more) == Parse(buf)
  {
    match Search(buf, BLANK_LINE, 0)
    case None => if Search(buf + more, BLANK_LINE, 0).Some? { SearchEndsInMore(buf, more, BLANK_LINE); }
    case Some(end) =>
      SearchExtends(buf, more, BLANK_LINE);
      assert end + 4 <= |buf| && (buf + more)[..end + 4] == buf[..end + 4];
  }

  // ------------------------------------------------------------------ what is accepted

  /** "?query", or nothing. */
  function QueryPart(query: string, mark: bool): string { if mark then ['?'] + query else "" }

  /** An origin-form target and a version that are served. */
  ghost predicate TargetOk(path: string, query: string, mark: bool, version: string) {
    && (mark || query == "") && (version == "HTTP/1.1" || version == "HTTP/1.0")
    && path != "" && path[0] == '/' && !Has(path, '?')
    && (forall i :: 0 <= i < |path| ==> TargetChar(path[i])) && (forall i :: 0 <= i < |query| ==> TargetChar(query[i]))
    && |path| < PATH_MAX && |query| < QUERY_MAX && SafePath(path)
  }

  function TargetText(path: string, query: string, mark: bool, version: string): string {
    path + QueryPart(query, mark) + ([' '] + version)
  }

  /** A request line of section 3 of RFC 9112 that is served: GET, one space, the target, one space,
      the version. */
  ghost predicate IsRequestLine(line: string, path: string, query: string, mark: bool, version: string) {
    line == "GET " + TargetText(path, query, mark, version) && TargetOk(path, query, mark, version)
  }

  /** The parser's own cuts of a target and a version. */
  lemma TargetCut(t: string, target: string, path: string, query: string, mark: bool, version: string)
    requires target == path + QueryPart(query, mark) && t == target + ([' '] + version) && (mark || query == "")
    requires (forall i :: 0 <= i < |target| ==> TargetChar(target[i])) && !Has(path, '?')
    ensures Find(t, ' ') == |target| && t[..|target|] == target && t[|target| + 1..] == version
    ensures Find(target, '?') == |path| && target[..|path|] == path
    ensures query == if |path| < |target| then target[|path| + 1..] else ""
  {
    FindIs(target, ' ', [' '] + version);
    FindIs(path, '?', QueryPart(query, mark));
  }

  lemma TargetChars(path: string, query: string, mark: bool, target: string)
    requires target == path + QueryPart(query, mark)
    requires (forall i :: 0 <= i < |path| ==> TargetChar(path[i])) && (forall i :: 0 <= i < |query| ==> TargetChar(query[i]))
    ensures forall i :: 0 <= i < |target| ==> TargetChar(target[i])
  {
    forall i | 0 <= i < |target| ensures TargetChar(target[i]) {
      if i >= |path| { assert target[i] == QueryPart(query, mark)[i - |path|]; }
    }
  }

  /** The parser on a target it accepts, once its cuts are known. */
  lemma ParsedTarget(t: string, target: string, path: string, query: string, version: string)
    requires Find(t, ' ') == |target| < |t| && t[..|target|] == target && t[|target| + 1..] == version
    requires version == "HTTP/1.1" || version == "HTTP/1.0"
    requires target != "" && target[0] == '/' && forall i :: 0 <= i < |target| ==> TargetChar(target[i])
    requires Find(target, '?') == |path| <= |target| && target[..|path|] == path
    requires query == if |path| < |target| then target[|path| + 1..] else ""
    requires |path| < PATH_MAX && |query| < QUERY_MAX && SafePath(path)
    ensures ParseTarget(t) == Accepted(path, query)
  {}

  lemma TargetParses(t: string, path: string, query: string, mark: bool, version: string)
    requires t == TargetText(path, query, mark, version) && TargetOk(path, query, mark, version)
    ensures ParseTarget(t) == Accepted(path, query)
  {
    var target := path + QueryPart(query, mark);
    TargetChars(path, query, mark, target);
    TargetCut(t, target, path, query, mark, version);
    FrontStays(path, QueryPart(query, mark));
    ParsedTarget(t, target, path, query, version);
  }

  lemma FrontStays(a: string, b: string)
    requires a != ""
    ensures a + b != "" && (a + b)[0] == a[0]
  {}

  lemma SplitAt(s: string, k: nat)
    requires k < |s|
    ensures s == s[..k] + ([s[k]] + s[k + 1..])
  {}

  lemma TargetParsed(t: string)
    requires ParseTarget(t).Accepted?
    ensures exists mark, version :: t == TargetText(ParseTarget(t).path, ParseTarget(t).query, mark, version)
                                    && TargetOk(ParseTarget(t).path, ParseTarget(t).query, mark, version)
  {
    var v := ParseTarget(t);
    var mark, version := TargetTaken(t, v.path, v.query);
  }

  lemma TargetTaken(t: string, path: string, query: string) returns (mark: bool, version: string)
    requires ParseTarget(t) == Accepted(path, query)
    ensures t == TargetText(path, query, mark, version) && TargetOk(path, query, mark, version)
  {
    var sp := Find(t, ' ');
    var target := t[..sp];
    version := t[sp + 1..];
    SplitAt(t, sp);
    var q := Find(target, '?');
    mark := q < |target|;
    TargetPieces(target, q, path, query, mark);
    TargetIs(t, target, path, query, mark, version);
  }

  lemma TargetIs(t: string, target: string, path: string, query: string, mark: bool, version: string)
    requires t == target + ([' '] + version) && target == path + QueryPart(query, mark)
    requires version == "HTTP/1.1" || version == "HTTP/1.0"
    requires (mark || query == "") && path != "" && path[0] == '/' && !Has(path, '?')
    requires (forall i :: 0 <= i < |path| ==> TargetChar(path[i])) && forall i :: 0 <= i < |query| ==> TargetChar(query[i])
    requires |path| < PATH_MAX && |query| < QUERY_MAX && SafePath(path)
    ensures t == TargetText(path, query, mark, version) && TargetOk(path, query, mark, version)
  {}

  lemma TargetPieces(target: string, q: nat, path: string, query: string, mark: bool)
    requires q == Find(target, '?') && path == target[..q] && mark == (q < |target|)
    requires query == (if mark then target[q + 1..] else "") && target != "" && target[0] == '/'
    requires forall i :: 0 <= i < |target| ==> TargetChar(target[i])
    ensures target == path + QueryPart(query, mark) && path != "" && path[0] == '/' && !Has(path, '?')
    ensures (forall i :: 0 <= i < |path| ==> TargetChar(path[i])) && forall i :: 0 <= i < |query| ==> TargetChar(query[i])
  {
    if mark { SplitAt(target, q); }
    assert forall i :: 0 <= i < |query| ==> query[i] == target[q + 1 + i];
  }

  lemma GetLine(line: string, t: string)
    requires line == "GET " + t
    ensures Find(line, ' ') == 3 && line[..3] == "GET" && line[4..] == t
    ensures Has(line, '\r') <==> Has(t, '\r')
    ensures Has(line, '\n') <==> Has(t, '\n')
  {
    assert line[0] == 'G' && line[1] == 'E' && line[2] == 'T' && line[3] == ' ';
    FindUnique(line, ' ', 3);
    if Has(t, '\r') { var i :| 0 <= i < |t| && t[i] == '\r'; assert line[4 + i] == '\r'; }
    if Has(t, '\n') { var i :| 0 <= i < |t| && t[i] == '\n'; assert line[4 + i] == '\n'; }
    if Has(line, '\r') { var i :| 0 <= i < |line| && line[i] == '\r'; assert t[i - 4] == '\r'; }
    if Has(line, '\n') { var i :| 0 <= i < |line| && line[i] == '\n'; assert t[i - 4] == '\n'; }
  }

  lemma LineHasNoBreak(path: string, query: string, mark: bool, version: string, t: string)
    requires t == TargetText(path, query, mark, version) && TargetOk(path, query, mark, version)
    ensures forall i :: 0 <= i < |t| ==> t[i] >= ' '
  {
    var target := path + QueryPart(query, mark);
    TargetChars(path, query, mark, target);
    forall i | 0 <= i < |t| ensures t[i] >= ' ' {
      if i < |target| { assert TargetChar(target[i]); } else { assert t[i] == ([' '] + version)[i - |target|]; }
    }
  }

  /** A request line is accepted, with this path and query, exactly when it has that form. */
  lemma RequestLineGrammar(line: string, path: string, query: string)
    ensures ParseRequestLine(line) == Accepted(path, query)
            <==> exists mark, version :: IsRequestLine(line, path, query, mark, version)
  {
    if ParseRequestLine(line) == Accepted(path, query) {
      var t := line[4..];
      assert line == line[..3] + [line[3]] + t;
      assert line == "GET " + t;
      TargetParsed(t);
      var mark, version :| t == TargetText(path, query, mark, version) && TargetOk(path, query, mark, version);
      assert IsRequestLine(line, path, query, mark, version);
    }
    forall mark, version | IsRequestLine(line, path, query, mark, version)
      ensures ParseRequestLine(line) == Accepted(path, query)
    {
      var t := TargetText(path, query, mark, version);
      GetLine(line, t);
      TargetParses(t, path, query, mark, version);
      LineHasNoBreak(path, query, mark, version, t);
    }
  }

  // ------------------------------------------------------------------ chunks

  function Least(a: nat, b: nat, c: nat): nat { if a <= b && a <= c then a else if b <= c then b else c }

  /** conn_read, call after call, on a client that sends stream: each recv gives at most what it is
      asked for, what has arrived, and what the buffer has room for. got bytes have been read. */
  ghost function Reads(stream: string, got: nat, sizes: seq<nat>): Verdict
    requires got <= |stream| && got <= MAX_REQUEST
    decreases |sizes|
  {
    if sizes == [] then Incomplete else
    var next := got + Least(sizes[0], MAX_REQUEST - got, |stream| - got);
    if got == MAX_REQUEST then TooLarge else
    var v := Parse(stream[..next]);
    if v.Incomplete? then Reads(stream, next, sizes[1..]) else v
  }

  /** How many bytes have been read when the chunks run out, if nothing stops the reading. */
  function Taken(stream: string, got: nat, sizes: seq<nat>): (n: nat)
    requires got <= |stream| && got <= MAX_REQUEST
    ensures got <= n <= |stream| && n <= MAX_REQUEST
    decreases |sizes|
  {
    if sizes == [] then got else Taken(stream, got + Least(sizes[0], MAX_REQUEST - got, |stream| - got), sizes[1..])
  }

  /** A full buffer without a verdict does not happen: the full-buffer branch of conn_read is dead. */
  lemma FullBufferIsDecided(buf: string)
    requires |buf| >= MAX_REQUEST
    ensures !Parse(buf).Incomplete?
  {
    HeadIsDecided(buf);
  }

  lemma HeadIsDecided(buf: string)
    ensures Parse(buf).Incomplete? <==> Search(buf, BLANK_LINE, 0).None? && |buf| < MAX_REQUEST
  {}

  /** Chunking does not matter: however the stream is split, the outcome is the verdict on the whole
      stream, or still open because too little has been read. */
  lemma {:induction false} ChunksDoNotMatter(stream: string, got: nat, sizes: seq<nat>)
    requires got <= |stream| && got < MAX_REQUEST && Parse(stream[..got]).Incomplete?
    ensures Reads(stream, got, sizes) == Parse(stream[..Taken(stream, got, sizes)])
    ensures !Reads(stream, got, sizes).Incomplete? ==> Reads(stream, got, sizes) == Parse(stream)
    decreases |sizes|
  {
    if sizes != [] {
      var next := got + Least(sizes[0], MAX_REQUEST - got, |stream| - got);
      var v := Parse(stream[..next]);
      if v.Incomplete? {
        if next == MAX_REQUEST { FullBufferIsDecided(stream[..next]); }
        ChunksDoNotMatter(stream, next, sizes[1..]);
      } else {
        var all := Taken(stream, got, sizes);
        assert stream[..next] + stream[next..all] == stream[..all] && stream[..next] + stream[next..] == stream;
        VerdictIsFinal(stream[..next], stream[next..all]);
        VerdictIsFinal(stream[..next], stream[next..]);
      }
    }
  }

  /** Two ways to split a stream that both deliver it, up to the cap, reach the same outcome. */
  lemma ConnReadIsChunkingIndependent(stream: string, a: seq<nat>, b: seq<nat>)
    requires Taken(stream, 0, a) == Taken(stream, 0, b)
    ensures Reads(stream, 0, a) == Reads(stream, 0, b)
  {
    NothingYet(stream);
    ChunksDoNotMatter(stream, 0, a);
    ChunksDoNotMatter(stream, 0, b);
  }

  lemma NothingYet(stream: string)
    ensures Parse(stream[..0]).Incomplete?
  {
    HeadIsDecided(stream[..0]);
  }

  // ------------------------------------------------------------------ queries

  /** strcspn. */
  function Span(s: string, stop: string): (n: nat)
    ensures n <= |s| && (n < |s| ==> s[n] in stop) && forall i :: 0 <= i < n ==> s[i] !in stop
  {
    if s == "" || s[0] in stop then 0 else
    var n := Span(s[1..], stop);
    assert forall i :: 0 < i < n + 1 ==> s[i] == s[1..][i - 1];
    n + 1
  }

  /** http_query_get: the first pair with this key, its value decoded into n bytes. */
  function QueryGet(query: string, key: string, n: nat): Option<string>
    decreases |query|
  {
    if query == "" then None else
    var pair, name := Span(query, "&"), Span(query, "=&");
    if query[..name] == key then Decode(ValueIn(query, pair, name), n, true)
    else QueryGet(if pair < |query| then query[pair + 1..] else "", key, n)
  }

  function ValueIn(query: string, pair: nat, name: nat): string {
    if name + 1 <= pair <= |query| then query[name + 1..pair] else ""
  }

  /** http_query_get's loop. */
  method HttpQueryGet(query: string, key: string, n: nat) returns (r: Option<string>)
    ensures r == QueryGet(query, key, n)
  {
    var p := 0;
    assert query[0..] == query;
    while p < |query|
      invariant p <= |query| && QueryGet(query[p..], key, n) == QueryGet(query, key, n)
    {
      var here := query[p..];
      var pair, name := Span(here, "&"), Span(here, "=&");
      if here[..name] == key {
        r := DecodeInto(ValueIn(here, pair, name), n, true);
        return;
      }
      if pair < |here| { assert here[pair + 1..] == query[p + pair + 1..]; }
      p := if pair < |here| then p + pair + 1 else |query|;
    }
    r := None;
  }
}
