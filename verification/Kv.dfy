/** The control socket's reply lines: their grammar, their one spelling, and where a reply ends. */
module Kv {
  import opened Framing
  import opened Number
  import opened Strings

  const MAX_LINE := 512
  const MAX_FIELDS := 16
  const MAX_TAG := 24
  const MAX_KEY := 24
  const MAX_VALUE := 96
  const MAX_CODE := 24
  const MAX_REASON := 96

  datatype Kind = KvStr | KvNum | KvNull

  datatype KvField = KvField(key: string, val: string, kind: Kind)

  datatype Line = Line(tag: string, fields: seq<KvField>)

  /** What a line is. */
  datatype Parsed = Record(line: Line) | Ok | Err(code: string, reason: string) | Bad

  // ------------------------------------------------------------------ characters and names

  predicate IsIdent(c: char) { 'a' <= c <= 'z' || '0' <= c <= '9' || c == '_' }

  predicate Printable(s: string) { forall i :: 0 <= i < |s| ==> ' ' <= s[i] < 0x7F as char }

  predicate AllIdent(s: string) { forall i :: 0 <= i < |s| ==> IsIdent(s[i]) }

  predicate IsName(s: string, max: nat) { 0 < |s| < max && AllIdent(s) }

  // ------------------------------------------------------------------ one field

  /** Index of the first space with an even number of quotes before it (one more if `quoted`), or |t|. */
  function TokenEnd(t: string, quoted: bool): (n: nat)
    ensures n <= |t| && (n < |t| ==> t[n] == ' ')
  {
    if t == "" || (!quoted && t[0] == ' ') then 0 else 1 + TokenEnd(t[1..], if t[0] == '"' then !quoted else quoted)
  }

  predicate KeyTaken(fields: seq<KvField>, key: string) { exists i :: 0 <= i < |fields| && fields[i].key == key }

  /** add_field on one token. */
  function AddField(t: string, fields: seq<KvField>): Option<KvField> {
    var k := Find(t, '=');
    if k == |t| || |fields| >= MAX_FIELDS then None else
    var key, val := t[..k], t[k + 1..];
    if !IsName(key, MAX_KEY) || KeyTaken(fields, key) then None else
    ParseValue(key, val)
  }

  function PrintValue(f: KvField): string {
    if f.kind.KvStr? then ['"'] + f.val + ['"'] else f.val
  }

  function PrintField(f: KvField): string { f.key + ['='] + PrintValue(f) }

  /** A field within the limits: strings printable without quote or backslash, a bare value null or
      a number of section 6 of RFC 8259. */
  ghost predicate FieldOk(f: KvField) {
    && IsName(f.key, MAX_KEY) && |f.val| < MAX_VALUE
    && match f.kind
       case KvStr => Printable(f.val) && !Has(f.val, '"') && !Has(f.val, '\\')
       case KvNum => IsNumber(f.val)
       case KvNull => f.val == "null"
  }

  // ------------------------------------------------------------------ a line

  /** The fields of s, which starts at a separating space, after those already taken. */
  function ParseFields(s: string, fields: seq<KvField>): Option<seq<KvField>>
    decreases |s|
  {
    if s == "" then Some(fields) else
    var t := s[1..];
    var n := TokenEnd(t, false);
    if n == 0 then None else
    match AddField(t[..n], fields)
    case None => None
    case Some(f) => ParseFields(t[n..], fields + [f])
  }

  /** parse_err: s starts with "err ". */
  function ParseErr(s: string): Parsed
    requires |s| >= 4
  {
    var rest := s[4..];
    var k := Find(rest, ' ');
    if !IsName(rest[..k], MAX_CODE) then Bad else
    if k == |rest| then Err(rest, "") else
    var reason := rest[k + 1..];
    if reason == "" || |reason| >= MAX_REASON || reason[0] == ' ' || reason[|reason| - 1] == ' ' then Bad
    else Err(rest[..k], reason)
  }

  /** kv_parse_line. */
  function ParseLine(s: string): Parsed {
    if s == "" || |s| > MAX_LINE || !Printable(s) then Bad else
    if s == "ok" then Ok else
    var head := Find(s, ' ');
    if s[..head] == "err" then (if head < |s| then ParseErr(s) else Bad) else
    if !IsName(s[..head], MAX_TAG) || s[..head] == "ok" then Bad else
    match ParseFields(s[head..], [])
    case None => Bad
    case Some(fields) => Record(Line(s[..head], fields))
  }

  function PrintFields(fields: seq<KvField>): string {
    if fields == [] then "" else [' '] + PrintField(fields[0]) + PrintFields(fields[1..])
  }

  function PrintLine(l: Line): string { l.tag + PrintFields(l.fields) }

  function PrintErr(code: string, reason: string): string {
    "err " + code + ErrTail(reason)
  }

  ghost predicate FieldsOk(fields: seq<KvField>) {
    && |fields| <= MAX_FIELDS && (forall i :: 0 <= i < |fields| ==> FieldOk(fields[i]))
    && forall i, j :: 0 <= i < j < |fields| ==> fields[i].key != fields[j].key
  }

  ghost predicate LineOk(l: Line) {
    IsName(l.tag, MAX_TAG) && l.tag != "ok" && l.tag != "err" && FieldsOk(l.fields) && |PrintLine(l)| <= MAX_LINE
  }

  ghost predicate ErrOk(code: string, reason: string) {
    && IsName(code, MAX_CODE) && |reason| < MAX_REASON && Printable(reason)
    && (reason != "" ==> reason[0] != ' ' && reason[|reason| - 1] != ' ')
  }

  // ------------------------------------------------------------------ one field, there and back

  lemma {:induction false} TokenPlain(a: string, rest: string, quoted: bool)
    requires !Has(a, '"') && (quoted || !Has(a, ' '))
    ensures TokenEnd(a + rest, quoted) == |a| + TokenEnd(rest, quoted)
  {
    if a == "" {
      assert a + rest == rest;
    } else {
      assert (a + rest)[0] == a[0] && (a + rest)[1..] == a[1..] + rest;
      assert !Has(a[1..], '"') && (quoted || !Has(a[1..], ' ')) by {
        assert forall i :: 0 <= i < |a[1..]| ==> a[1..][i] == a[i + 1];
      }
      TokenPlain(a[1..], rest, quoted);
    }
  }

  lemma TokenQuote(rest: string, quoted: bool)
    ensures TokenEnd(['"'] + rest, quoted) == 1 + TokenEnd(rest, !quoted)
  {
    assert (['"'] + rest)[1..] == rest;
  }

  lemma NameIsPlain(s: string, max: nat)
    requires IsName(s, max)
    ensures !Has(s, '"') && !Has(s, ' ') && !Has(s, '=') && Printable(s) && !Has(s, '\n')
  {}

  predicate NumberChar(c: char) { IsDigit(c) || c == '-' || c == '+' || c == '.' || c == 'e' || c == 'E' }

  lemma ExpChars(s: string, i: nat)
    requires IsExp(s) && i < |s|
    ensures NumberChar(s[i])
  {
    if i > 0 {
      if AllDigits(s[1..]) { assert s[i] == s[1..][i - 1]; } else if i > 1 { assert s[i] == s[2..][i - 2]; }
    }
  }

  lemma FracChars(s: string, i: nat)
    requires IsFrac(s) && i < |s|
    ensures NumberChar(s[i])
  {
    if i > 0 { assert s[i] == s[1..][i - 1]; }
  }

  lemma IntChars(s: string, i: nat)
    requires IsInt(s) && i < |s|
    ensures NumberChar(s[i])
  {}

  lemma NumberChars(s: string, i: nat)
    requires IsNumber(s) && i < |s|
    ensures NumberChar(s[i])
  {
    var a: nat, b: nat, c: nat :| Parts(s, a, b, c);
    if a <= i < b { IntChars(s[a..b], i - a); } else if b <= i < c { FracChars(s[b..c], i - b); } else if c <= i {
      ExpChars(s[c..], i - c);
    }
  }

  lemma NumberIsPlain(s: string)
    requires IsNumber(s)
    ensures s != "" && s[0] != '"' && s != "null" && !Has(s, '"') && !Has(s, ' ') && Printable(s)
  {
    forall i | 0 <= i < |s| ensures NumberChar(s[i]) { NumberChars(s, i); }
    var a: nat, b: nat, c: nat :| Parts(s, a, b, c);
    IntNotSigned(s, a, b);
    assert NumberChar(s[0]) && "null"[0] == 'n';
  }

  lemma QuotedText(val: string, rest: string, tail: string)
    requires tail == ['"'] + rest
    ensures ['"'] + val + ['"'] + rest == ['"'] + (val + tail)
  {}

  lemma QuotedIsToken(val: string, rest: string)
    requires !Has(val, '"') && (rest == "" || rest[0] == ' ')
    ensures TokenEnd(['"'] + val + ['"'] + rest, false) == |val| + 2
  {
    var tail := ['"'] + rest;
    QuotedText(val, rest, tail);
    TokenQuote(val + tail, false);
    TokenPlain(val, tail, true);
    TokenQuote(rest, true);
  }

  lemma ValueIsToken(f: KvField, rest: string)
    requires FieldOk(f) && (rest == "" || rest[0] == ' ')
    ensures TokenEnd(PrintValue(f) + rest, false) == |PrintValue(f)|
  {
    match f.kind
    case KvStr => QuotedIsToken(f.val, rest);
    case KvNum =>
      NumberIsPlain(f.val);
      TokenPlain(f.val, rest, false);
    case KvNull => TokenPlain(f.val, rest, false);
  }

  /** A printed field is one token, whatever follows its space. */
  lemma FieldIsToken(f: KvField, rest: string)
    requires FieldOk(f) && (rest == "" || rest[0] == ' ')
    ensures TokenEnd(PrintField(f) + rest, false) == |PrintField(f)|
  {
    NameIsPlain(f.key, MAX_KEY);
    var lead, val := f.key + ['='], PrintValue(f);
    ValueIsToken(f, rest);
    TokenPlain(lead, val + rest, false);
    assert lead + val + rest == lead + (val + rest);
  }

  /** The value part of add_field. */
  function ParseValue(key: string, val: string): Option<KvField> {
    if val != "" && val[0] == '"' then
      if |val| < 2 || val[|val| - 1] != '"' then None else
      var inner := val[1..|val| - 1];
      if |inner| >= MAX_VALUE || Has(inner, '"') || Has(inner, '\\') then None else Some(KvField(key, inner, KvStr))
    else if |val| >= MAX_VALUE then None
    else if val == "null" then Some(KvField(key, val, KvNull))
    else if NumberEnd(val) == Some(|val|) then Some(KvField(key, val, KvNum))
    else None
  }

  lemma ValueReads(f: KvField)
    requires FieldOk(f)
    ensures ParseValue(f.key, PrintValue(f)) == Some(f)
  {
    var val := PrintValue(f);
    match f.kind
    case KvStr => assert val[1..|val| - 1] == f.val;
    case KvNum =>
      NumberIsPlain(f.val);
      ScanIsGrammar(f.val);
    case KvNull => assert "null"[0] == 'n';
  }

  lemma FieldReads(f: KvField, fields: seq<KvField>)
    requires FieldOk(f) && |fields| < MAX_FIELDS && !KeyTaken(fields, f.key)
    ensures AddField(PrintField(f), fields) == Some(f)
  {
    NameIsPlain(f.key, MAX_KEY);
    var val := PrintValue(f);
    assert PrintField(f) == f.key + (['='] + val);
    FindIs(f.key, '=', ['='] + val);
    assert PrintField(f)[|f.key| + 1..] == val;
    ValueReads(f);
  }

  /** A token that is taken as a field is that field, printed. */
  lemma FieldShows(t: string, fields: seq<KvField>)
    requires AddField(t, fields).Some? && Printable(t)
    ensures var f := AddField(t, fields).value;
            PrintField(f) == t && FieldOk(f) && !KeyTaken(fields, f.key) && |fields| < MAX_FIELDS
  {
    var f, k := AddField(t, fields).value, Find(t, '=');
    var val := t[k + 1..];
    assert t == t[..k] + ['='] + val;
    if f.kind.KvStr? {
      assert val == ['"'] + f.val + ['"'];
      assert forall i :: 0 <= i < |f.val| ==> f.val[i] == t[k + 2 + i];
    } else {
      ScanIsGrammar(val);
    }
  }

  // ------------------------------------------------------------------ lists of fields, there and back

  lemma FieldsText(fields: seq<KvField>)
    requires fields != []
    ensures PrintFields(fields) == [' '] + (PrintField(fields[0]) + PrintFields(fields[1..]))
  {}

  /** One more field of a printed list is read off. */
  lemma ReadsField(f: KvField, more: string, fields: seq<KvField>)
    requires FieldOk(f) && |fields| < MAX_FIELDS && !KeyTaken(fields, f.key) && (more == "" || more[0] == ' ')
    ensures ParseFields([' '] + (PrintField(f) + more), fields) == ParseFields(more, fields + [f])
  {
    var t := PrintField(f) + more;
    FieldIsToken(f, more);
    FieldReads(f, fields);
    assert ([' '] + t)[1..] == t && t[..|PrintField(f)|] == PrintField(f) && t[|PrintField(f)|..] == more;
  }

  lemma TakeOneMore<T>(all: seq<T>, done: nat, todo: seq<T>)
    requires done < |all| && todo == all[done..]
    ensures all[..done] + [all[done]] == all[..done + 1] && todo != [] && todo[0] == all[done] && todo[1..] == all[done + 1..]
  {}

  lemma {:induction false} ReadFieldsBack(all: seq<KvField>, done: nat, todo: seq<KvField>)
    requires done <= |all| && FieldsOk(all) && todo == all[done..]
    ensures ParseFields(PrintFields(todo), all[..done]) == Some(all)
    decreases |all| - done
  {
    if done == |all| {
      assert todo == [] && all[..done] == all;
    } else {
      TakeOneMore(all, done, todo);
      FieldsText(todo);
      assert FieldsStart(PrintFields(todo[1..])) && !KeyTaken(all[..done], all[done].key);
      ReadsField(all[done], PrintFields(todo[1..]), all[..done]);
      ReadFieldsBack(all, done + 1, todo[1..]);
    }
  }

  ghost predicate FieldsStart(s: string) { s == "" || s[0] == ' ' }

  lemma PrintableParts(s: string, n: nat)
    requires s != "" && Printable(s) && n + 1 <= |s|
    ensures Printable(s[1..][..n]) && Printable(s[1..][n..])
  {
    assert forall i :: 0 <= i < |s[1..]| ==> s[1..][i] == s[i + 1];
  }

  lemma SplitText(s: string, n: nat)
    requires s != "" && s[0] == ' ' && n + 1 <= |s|
    ensures s == [' '] + (s[1..][..n] + s[1..][n..])
  {}

  /** What one turn of the loop takes off the line. */
  lemma TakenField(s: string, done: seq<KvField>, f: KvField, n: nat, rest: string)
    requires s != "" && s[0] == ' ' && Printable(s) && n == TokenEnd(s[1..], false) && n > 0
    requires AddField(s[1..][..n], done) == Some(f) && rest == s[1..][n..]
    ensures FieldOk(f) && !KeyTaken(done, f.key) && |done| < MAX_FIELDS
    ensures s == [' '] + (PrintField(f) + rest) && Printable(rest) && FieldsStart(rest) && |rest| < |s|
  {
    PrintableParts(s, n);
    FieldShows(s[1..][..n], done);
    SplitText(s, n);
  }

  lemma FieldsMore(done: seq<KvField>, f: KvField)
    requires FieldsOk(done) && FieldOk(f) && !KeyTaken(done, f.key) && |done| < MAX_FIELDS
    ensures FieldsOk(done + [f])
  {}

  lemma {:induction false} ShowFieldsBack(s: string, done: seq<KvField>, all: seq<KvField>)
    requires FieldsStart(s) && Printable(s) && FieldsOk(done) && ParseFields(s, done) == Some(all)
    ensures FieldsOk(all) && |done| <= |all| && all[..|done|] == done && PrintFields(all[|done|..]) == s
    decreases |s|
  {
    if s == "" {
      assert done[|done|..] == [];
    } else {
      var n := TokenEnd(s[1..], false);
      var f, rest := AddField(s[1..][..n], done).value, s[1..][n..];
      TakenField(s, done, f, n, rest);
      FieldsMore(done, f);
      ShowFieldsBack(rest, done + [f], all);
      LongerList(all, done, f);
      FieldsText(all[|done|..]);
    }
  }

  lemma LongerList(all: seq<KvField>, done: seq<KvField>, f: KvField)
    requires |done| < |all| && all[..|done| + 1] == done + [f]
    ensures all[..|done|] == done && all[|done|..] != [] && all[|done|..][0] == f && all[|done|..][1..] == all[|done| + 1..]
  {
    assert all[..|done|] == all[..|done| + 1][..|done|];
    assert all[|done|] == all[..|done| + 1][|done|];
  }

  // ------------------------------------------------------------------ lines, there and back

  lemma FieldPrintable(f: KvField)
    requires FieldOk(f)
    ensures Printable(PrintField(f))
  {
    NameIsPlain(f.key, MAX_KEY);
    if f.kind.KvNum? { NumberIsPlain(f.val); }
  }

  lemma {:induction false} FieldsPrintable(fields: seq<KvField>)
    requires forall i :: 0 <= i < |fields| ==> FieldOk(fields[i])
    ensures Printable(PrintFields(fields)) && FieldsStart(PrintFields(fields))
  {
    if fields != [] {
      FieldsText(fields);
      FieldPrintable(fields[0]);
      FieldsPrintable(fields[1..]);
    }
  }

  lemma ParsesRecord(s: string, tag: string, rest: string, fields: seq<KvField>)
    requires 0 < |s| <= MAX_LINE && Printable(s) && s != "ok" && Find(s, ' ') == |tag| && s[..|tag|] == tag && s[|tag|..] == rest
    requires IsName(tag, MAX_TAG) && tag != "ok" && tag != "err" && ParseFields(rest, []) == Some(fields)
    ensures ParseLine(s) == Record(Line(tag, fields))
  {}

  lemma RecordText(l: Line, s: string, rest: string)
    requires LineOk(l) && s == PrintLine(l) && rest == PrintFields(l.fields)
    ensures 0 < |s| <= MAX_LINE && Printable(s) && s != "ok" && Find(s, ' ') == |l.tag| && s[..|l.tag|] == l.tag
    ensures s[|l.tag|..] == rest
  {
    FieldsPrintable(l.fields);
    NameIsPlain(l.tag, MAX_TAG);
    FindIs(l.tag, ' ', rest);
    if s == "ok" { NotOk(l.tag, rest); }
  }

  /** Printing a record within the limits and parsing it gives it back. */
  lemma RecordReadsBack(l: Line)
    requires LineOk(l)
    ensures ParseLine(PrintLine(l)) == Record(l)
  {
    var rest := PrintFields(l.fields);
    RecordText(l, PrintLine(l), rest);
    assert l.fields[0..] == l.fields && l.fields[..0] == [];
    ReadFieldsBack(l.fields, 0, l.fields);
    ParsesRecord(PrintLine(l), l.tag, rest, l.fields);
  }

  lemma NotOk(tag: string, rest: string)
    requires tag + rest == "ok" && FieldsStart(rest)
    ensures tag == "ok"
  {
    assert rest != "" ==> (tag + rest)[|tag|] == ' ';
    assert forall i :: 0 <= i < 2 ==> "ok"[i] != ' ';
    assert rest == "" && tag + "" == tag;
  }

  /** What parses as a record is that record printed: every record has one spelling. */
  lemma RecordShowsBack(s: string)
    requires ParseLine(s).Record?
    ensures LineOk(ParseLine(s).line) && PrintLine(ParseLine(s).line) == s
  {
    var head := Find(s, ' ');
    assert s == s[..head] + s[head..];
    var fields := ParseLine(s).line.fields;
    ShowFieldsBack(s[head..], [], fields);
    assert fields[0..] == fields;
  }

  /** A line is a record exactly when it is some record within the limits, printed. */
  lemma RecordsAreThePrinted(s: string, l: Line)
    ensures ParseLine(s) == Record(l) <==> LineOk(l) && PrintLine(l) == s
  {
    if ParseLine(s) == Record(l) { RecordShowsBack(s); }
    if LineOk(l) && PrintLine(l) == s { RecordReadsBack(l); }
  }

  lemma ErrPrefix(s: string)
    requires |s| >= 4
    ensures Find(s, ' ') == 3 && s[..3] == "err" <==> s[..4] == "err "
  {
    if Find(s, ' ') == 3 && s[..3] == "err" { assert s[..4] == s[..3] + [s[3]]; }
    if s[..4] == "err " {
      assert s[..3] == s[..4][..3] && s[3] == s[..4][3];
      assert forall i :: 0 <= i < 3 ==> s[i] == "err "[i];
      FindUnique(s, ' ', 3);
    }
  }

  /** The part of a refusal after its code. */
  function ErrTail(reason: string): string { if reason == "" then "" else [' '] + reason }

  lemma ErrParsesBare(s: string, code: string)
    requires |s| >= 4 && s[4..] == code && ErrOk(code, "")
    ensures ParseErr(s) == Err(code, "")
  {
    NameIsPlain(code, MAX_CODE);
    FindUnique(code, ' ', |code|);
    assert code[..|code|] == code;
  }

  lemma ErrParsesReason(s: string, rest: string, code: string, reason: string)
    requires |s| >= 4 && rest == s[4..] && rest == code + ([' '] + reason) && ErrOk(code, reason) && reason != ""
    ensures ParseErr(s) == Err(code, reason)
  {
    NameIsPlain(code, MAX_CODE);
    FindIs(code, ' ', [' '] + reason);
    assert rest[|code| + 1..] == reason;
  }

  lemma ErrParses(s: string, rest: string, code: string, reason: string)
    requires |s| >= 4 && rest == s[4..] && rest == code + ErrTail(reason) && ErrOk(code, reason)
    ensures ParseErr(s) == Err(code, reason)
  {
    if reason == "" {
      assert rest == code;
      ErrParsesBare(s, code);
    } else {
      ErrParsesReason(s, rest, code, reason);
    }
  }

  lemma ErrText(code: string, reason: string, rest: string)
    requires rest == code + ErrTail(reason)
    ensures PrintErr(code, reason) == "err " + rest
    ensures PrintErr(code, reason)[..4] == "err " && PrintErr(code, reason)[4..] == rest
  {}

  lemma ErrPrintable(code: string, reason: string)
    requires ErrOk(code, reason)
    ensures Printable(PrintErr(code, reason)) && 4 < |PrintErr(code, reason)| <= MAX_LINE
  {
    NameIsPlain(code, MAX_CODE);
  }

  /** The same for refusals: printing one within the limits and parsing it gives it back. */
  lemma ErrReadsBack(code: string, reason: string)
    requires ErrOk(code, reason)
    ensures ParseLine(PrintErr(code, reason)) == Err(code, reason)
  {
    var s := PrintErr(code, reason);
    ErrPrintable(code, reason);
    ErrText(code, reason, code + ErrTail(reason));
    ErrPrefix(s);
    ErrParses(s, s[4..], code, reason);
  }

  lemma ErrParsed(s: string, code: string, reason: string)
    requires |s| >= 4 && ParseErr(s) == Err(code, reason) && Printable(s)
    ensures ErrOk(code, reason) && s[4..] == code + ErrTail(reason)
  {
    var rest := s[4..];
    var k := Find(rest, ' ');
    if k < |rest| {
      assert rest == rest[..k] + ([' '] + rest[k + 1..]);
      assert forall i :: 0 <= i < |reason| ==> reason[i] == s[4 + k + 1 + i];
    } else {
      assert rest[..k] == rest && rest + "" == rest;
    }
  }

  lemma ErrStarts(s: string)
    requires ParseLine(s).Err?
    ensures |s| >= 4 && s[..4] == "err " && ParseErr(s) == ParseLine(s) && Printable(s)
  {
    var head := Find(s, ' ');
    assert |s[..head]| == 3;
    ErrPrefix(s);
  }

  /** What parses as a refusal is that refusal printed. */
  lemma ErrShowsBack(s: string)
    requires ParseLine(s).Err?
    ensures ErrOk(ParseLine(s).code, ParseLine(s).reason) && PrintErr(ParseLine(s).code, ParseLine(s).reason) == s
  {
    var e := ParseLine(s);
    ErrStarts(s);
    ErrParsed(s, e.code, e.reason);
    ErrText(e.code, e.reason, s[4..]);
    assert s == s[..4] + s[4..];
  }

  // ------------------------------------------------------------------ the loops

  /** token_len. */
  method TokenLength(t: string) returns (n: nat)
    ensures n == TokenEnd(t, false)
  {
    n := 0;
    var quoted := false;
    while n < |t| && (quoted || t[n] != ' ')
      invariant n <= |t| && n + TokenEnd(t[n..], quoted) == TokenEnd(t, false)
      decreases |t| - n
    {
      assert t[n..][1..] == t[n + 1..];
      if t[n] == '"' { quoted := !quoted; }
      n := n + 1;
    }
  }

  // The fields' parse as a function value, so that the loop's proof never looks inside.

  type FieldsParse = (string, seq<KvField>) -> Option<seq<KvField>>

  ghost predicate ParsesLike(parse: FieldsParse, s: string, fields: seq<KvField>) { parse(s, fields) == ParseFields(s, fields) }

  ghost predicate IsParse(parse: FieldsParse) { forall s, fields :: ParsesLike(parse, s, fields) }

  /** One turn of the loop, with t what follows the space at pos: the field that is there, if one is. */
  method KvNextField(s: string, pos: nat, done: seq<KvField>, ghost parse: FieldsParse) returns (f: Option<KvField>, n: nat)
    requires pos < |s| && IsParse(parse)
    ensures n <= |s| - pos - 1
    ensures f.None? ==> parse(s[pos..], done).None?
    ensures f.Some? ==> parse(s[pos..], done) == parse(s[pos + 1 + n..], done + [f.value])
  {
    var t := s[pos + 1..];
    n := TokenLength(t);
    f := if n == 0 then None else AddField(t[..n], done);
    assert s[pos..][1..] == t && t[n..] == s[pos + 1 + n..];
    assert ParsesLike(parse, s[pos..], done);
    if f.Some? { assert ParsesLike(parse, s[pos + 1 + n..], done + [f.value]); }
  }

  /** kv_parse_line's loop, from the end of the tag: token after token. */
  method KvParseFields(s: string, head: nat, ghost parse: FieldsParse) returns (fields: Option<seq<KvField>>)
    requires head <= |s| && IsParse(parse)
    ensures fields == parse(s[head..], [])
  {
    var done, pos := [], head;
    while pos < |s|
      invariant head <= pos <= |s| && parse(s[pos..], done) == parse(s[head..], [])
      decreases |s| - pos
    {
      var f, n := KvNextField(s, pos, done, parse);
      if f.None? { return None; }
      done, pos := done + [f.value], pos + 1 + n;
    }
    assert ParsesLike(parse, s[pos..], done);
    fields := Some(done);
  }

  /** kv_parse_line: the tag, then the fields. */
  method KvParseLine(s: string) returns (p: Parsed)
    ensures p == ParseLine(s)
  {
    if s == "" || |s| > MAX_LINE || !Printable(s) { return Bad; }
    if s == "ok" { return Ok; }
    var head := Find(s, ' ');
    if s[..head] == "err" { return if head < |s| then ParseErr(s) else Bad; }
    if !IsName(s[..head], MAX_TAG) || s[..head] == "ok" { return Bad; }
    ghost var parse := (t, fields) => ParseFields(t, fields);
    assert ParsesLike(parse, s[head..], []);
    var fields := KvParseFields(s, head, parse);
    p := if fields.None? then Bad else Record(Line(s[..head], fields.value));
  }

  // ------------------------------------------------------------------ a whole reply

  datatype Verdict = Done | Refused(code: string, reason: string) | Malformed | Incomplete

  /** A line's text from its newline-terminated bytes: a final CR is dropped. */
  function Trim(s: string): string { if s != "" && s[|s| - 1] == '\r' then s[..|s| - 1] else s }

  /** A reply, line by line, for any way of parsing a line. */
  function CheckWith(parse: string -> Parsed, buf: string): Verdict
    decreases |buf|
  {
    var nl := Find(buf, '\n');
    if nl == |buf| then Incomplete else
    var rest := buf[nl + 1..];
    match parse(Trim(buf[..nl]))
    case Record(_) => CheckWith(parse, rest)
    case Ok => if rest == "" then Done else Malformed
    case Err(code, reason) => if rest == "" then Refused(code, reason) else Malformed
    case Bad => Malformed
  }

  /** The records a reply passes before its terminator. */
  function RecordsWith(parse: string -> Parsed, buf: string): seq<Line>
    decreases |buf|
  {
    var nl := Find(buf, '\n');
    if nl == |buf| then [] else
    match parse(Trim(buf[..nl]))
    case Record(l) => [l] + RecordsWith(parse, buf[nl + 1..])
    case _ => []
  }

  /** kv_reply_check. */
  function CheckReply(buf: string): Verdict { CheckWith(ParseLine, buf) }

  function RecordsOf(buf: string): seq<Line> { RecordsWith(ParseLine, buf) }

  predicate Complete(v: Verdict) { v.Done? || v.Refused? }

  /** kv_reply_next: the line at cur and where the next one starts, or nothing without a newline. */
  method KvReplyNext(buf: string, cur: nat) returns (line: Option<Parsed>, next: nat)
    requires cur <= |buf|
    ensures var nl := Find(buf[cur..], '\n');
            if nl == |buf| - cur then line.None? && next == cur
            else line == Some(ParseLine(Trim(buf[cur..][..nl]))) && next == cur + nl + 1 <= |buf|
  {
    var here := buf[cur..];
    var nl := Find(here, '\n');
    if nl == |here| { return None, cur; }
    var p := KvParseLine(Trim(here[..nl]));
    return Some(p), cur + nl + 1;
  }

  ghost predicate ParsesAt(parse: string -> Parsed, s: string) { parse(s) == ParseLine(s) }

  /** parse is kv_parse_line, as a value that a proof need not look inside. */
  ghost predicate Parses(parse: string -> Parsed) { forall s :: ParsesAt(parse, s) }

  /** What the next line does to a walk that stands at cur. */
  ghost predicate Walked(parse: string -> Parsed, buf: string, cur: nat, line: Option<Parsed>, next: nat)
    requires cur <= |buf| && next <= |buf|
  {
    match line
    case None => CheckWith(parse, buf[cur..]) == Incomplete && RecordsWith(parse, buf[cur..]) == []
    case Some(Record(l)) => CheckWith(parse, buf[cur..]) == CheckWith(parse, buf[next..])
                            && RecordsWith(parse, buf[cur..]) == [l] + RecordsWith(parse, buf[next..])
    case Some(Ok) => CheckWith(parse, buf[cur..]) == (if next == |buf| then Done else Malformed)
                     && RecordsWith(parse, buf[cur..]) == []
    case Some(Err(code, reason)) => CheckWith(parse, buf[cur..]) == (if next == |buf| then Refused(code, reason) else Malformed)
                                    && RecordsWith(parse, buf[cur..]) == []
    case Some(Bad) => CheckWith(parse, buf[cur..]) == Malformed && RecordsWith(parse, buf[cur..]) == []
  }

  lemma WalkStep(parse: string -> Parsed, buf: string, cur: nat, line: Option<Parsed>, next: nat)
    requires cur <= |buf|
    requires var nl := Find(buf[cur..], '\n');
             if nl == |buf| - cur then line.None? && next == cur
             else line == Some(parse(Trim(buf[cur..][..nl]))) && next == cur + nl + 1 <= |buf|
    ensures next <= |buf| && Walked(parse, buf, cur, line, next)
  {
    if line.Some? { assert buf[next..] == buf[cur..][next - cur..]; }
  }

  /** The next line, and what it does to the walk. */
  method WalkOn(buf: string, cur: nat, ghost parse: string -> Parsed) returns (line: Option<Parsed>, next: nat)
    requires cur <= |buf| && Parses(parse)
    ensures cur <= next <= |buf| && Walked(parse, buf, cur, line, next) && (line.Some? ==> cur < next)
  {
    line, next := KvReplyNext(buf, cur);
    assert ParsesAt(parse, Trim(buf[cur..][..Find(buf[cur..], '\n')]));
    WalkStep(parse, buf, cur, line, next);
  }

  /** kv_reply_check's walk over the lines. */
  method WalkReply(buf: string, ghost parse: string -> Parsed) returns (v: Verdict)
    requires Parses(parse)
    ensures v == CheckWith(parse, buf)
  {
    var cur := 0;
    assert buf[0..] == buf;
    while true
      invariant cur <= |buf| && CheckWith(parse, buf[cur..]) == CheckWith(parse, buf)
      decreases |buf| - cur
    {
      var line, next := WalkOn(buf, cur, parse);
      if line.None? { return Incomplete; }
      cur := next;
      match line.value
      case Record(_) =>
      case Ok => return if cur == |buf| then Done else Malformed;
      case Err(code, reason) => return if cur == |buf| then Refused(code, reason) else Malformed;
      case Bad => return Malformed;
    }
  }

  lemma ParseLineParses()
    ensures Parses(ParseLine)
  {
    forall s ensures ParsesAt(ParseLine, s) {}
  }

  /** kv_reply_check. */
  method KvReplyCheck(buf: string) returns (v: Verdict)
    ensures v == CheckReply(buf)
  {
    ParseLineParses();
    v := WalkReply(buf, ParseLine);
  }

  lemma FindInPrefix(buf: string, k: nat, c: char)
    requires k <= |buf|
    ensures Find(buf[..k], c) == if Find(buf, c) < k then Find(buf, c) else k
  {
    var n, m := Find(buf, c), Find(buf[..k], c);
    if n < k { assert buf[..k][n] == c; }
    if m < k { assert buf[m] == c; }
  }

  lemma CutLine(buf: string, k: nat, nl: nat)
    requires nl == Find(buf, '\n') < k <= |buf|
    ensures Find(buf[..k], '\n') == nl && buf[..k][..nl] == buf[..nl] && buf[..k][nl + 1..] == buf[nl + 1..][..k - nl - 1]
  {
    FindInPrefix(buf, k, '\n');
  }

  lemma {:induction false} PrefixIsIncomplete(parse: string -> Parsed, buf: string, k: nat)
    requires Complete(CheckWith(parse, buf)) && k < |buf|
    ensures CheckWith(parse, buf[..k]).Incomplete?
    decreases |buf|
  {
    var nl := Find(buf, '\n');
    if nl < k {
      CutLine(buf, k, nl);
      assert buf[nl + 1..] != "";
      PrefixIsIncomplete(parse, buf[nl + 1..], k - nl - 1);
    } else {
      FindInPrefix(buf, k, '\n');
    }
  }

  lemma LongerLine(buf: string, more: string, nl: nat)
    requires nl == Find(buf, '\n') < |buf|
    ensures Find(buf + more, '\n') == nl && (buf + more)[..nl] == buf[..nl] && (buf + more)[nl + 1..] == buf[nl + 1..] + more
  {
    FindUnique(buf + more, '\n', nl);
  }

  lemma {:induction false} ExtensionIsBad(parse: string -> Parsed, buf: string, more: string)
    requires Complete(CheckWith(parse, buf)) && more != ""
    ensures CheckWith(parse, buf + more).Malformed?
    decreases |buf|
  {
    var nl := Find(buf, '\n');
    LongerLine(buf, more, nl);
    if parse(Trim(buf[..nl])).Record? { ExtensionIsBad(parse, buf[nl + 1..], more); }
  }

  /** Complete replies are prefix-free: before the last byte nothing is decided, and after it nothing
      more may come. */
  lemma CompleteRepliesArePrefixFree(buf: string, k: nat, more: string)
    requires Complete(CheckReply(buf)) && k < |buf| && more != ""
    ensures CheckReply(buf[..k]).Incomplete? && CheckReply(buf + more).Malformed?
  {
    PrefixIsIncomplete(ParseLine, buf, k);
    ExtensionIsBad(ParseLine, buf, more);
  }

  ghost predicate ParsesTo(parse: string -> Parsed, ok: Line -> bool,
                           s: string) { parse(s).Record? ==> ok(parse(s).line) }

  lemma {:induction false} AllRecords(parse: string -> Parsed, ok: Line -> bool, buf: string)
    requires forall s :: ParsesTo(parse, ok, s)
    ensures forall i :: 0 <= i < |RecordsWith(parse, buf)| ==> ok(RecordsWith(parse, buf)[i])
    decreases |buf|
  {
    var nl := Find(buf, '\n');
    if nl < |buf| && parse(Trim(buf[..nl])).Record? {
      assert ParsesTo(parse, ok, Trim(buf[..nl]));
      AllRecords(parse, ok, buf[nl + 1..]);
    }
  }

  /** Every record of a reply is within the limits. */
  lemma RecordsAreOk(buf: string)
    ensures forall i :: 0 <= i < |RecordsOf(buf)| ==> LineOk(RecordsOf(buf)[i])
  {
    ghost var ok: Line -> bool := l => LineOk(l);
    forall s ensures ParsesTo(ParseLine, ok, s) {
      if ParseLine(s).Record? { RecordShowsBack(s); }
    }
    AllRecords(ParseLine, ok, buf);
    forall i | 0 <= i < |RecordsOf(buf)| ensures LineOk(RecordsOf(buf)[i]) { assert ok(RecordsOf(buf)[i]); }
  }
}
