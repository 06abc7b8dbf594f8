/** statusd's translation: a source's reply as JSON that means the same, and a URL as a request line. */
module Route {
  import opened Framing
  import opened Json
  import opened JsonBuffer
  import opened JsonWriter
  import opened Kv
  import opened Number
  import opened Strings

  const OK_KEY: Text := "ok"
  const RECORDS_KEY: Text := "records"
  const TAG_KEY: Text := "tag"
  const CODE_KEY: Text := "code"
  const REASON_KEY: Text := "reason"

  // ------------------------------------------------------------------ a reply as a JSON value

  function AsText(s: string): Text { if forall i :: 0 <= i < |s| ==> s[i] != '\0' then s else "" }

  function ScalarOf(f: KvField): Value {
    match f.kind
    case KvStr => Str(AsText(f.val))
    case KvNum => Num(AsText(f.val))
    case KvNull => Null
  }

  function FieldsOf(fields: seq<KvField>): (r: seq<Field>)
    ensures |r| == |fields| && forall i :: 0 <= i < |r| ==> r[i] == Field(AsText(fields[i].key), ScalarOf(fields[i]))
  {
    seq(|fields|, i requires 0 <= i < |fields| => Field(AsText(fields[i].key), ScalarOf(fields[i])))
  }

  /** {"tag":...,<fields>} */
  function RecordValue(l: Line): Value { Obj([Field(TAG_KEY, Str(AsText(l.tag)))] + FieldsOf(l.fields)) }

  function RecordValues(rs: seq<Line>): (r: seq<Value>)
    ensures |r| == |rs| && forall i :: 0 <= i < |r| ==> r[i] == RecordValue(rs[i])
  {
    seq(|rs|, i requires 0 <= i < |rs| => RecordValue(rs[i]))
  }

  /** {"ok":true,"records":[...]} */
  function ReplyValue(rs: seq<Line>): Value {
    Obj([Field(OK_KEY, Bool(true)), Field(RECORDS_KEY, Arr(RecordValues(rs)))])
  }

  /** {"ok":false,"code":"...","reason":"..."} */
  function ErrorValue(code: string, reason: string): Value {
    Obj([Field(OK_KEY, Bool(false)), Field(CODE_KEY, Str(AsText(code))), Field(REASON_KEY, Str(AsText(reason)))])
  }

  // ------------------------------------------------------------------ the calls records_to_json makes

  function FieldCalls(f: KvField): seq<Call> {
    [Call.Key(AsText(f.key)),
     match f.kind case KvStr => String(AsText(f.val)) case KvNum => Numeral(AsText(f.val)) case KvNull => JsonNull]
  }

  function FieldsCalls(fields: seq<KvField>): seq<Call> {
    if fields == [] then [] else FieldsCalls(fields[..|fields| - 1]) + FieldCalls(fields[|fields| - 1])
  }

  function TagCalls(l: Line): seq<Call> { [Call.Begin(true), Call.Key(TAG_KEY), String(AsText(l.tag))] }

  function RecordCalls(l: Line): seq<Call> { TagCalls(l) + FieldsCalls(l.fields) + [Call.End(true)] }

  function RecordsCalls(rs: seq<Line>): seq<Call> {
    if rs == [] then [] else RecordsCalls(rs[..|rs| - 1]) + RecordCalls(rs[|rs| - 1])
  }

  const LEAD_IN := [Call.Begin(true), Call.Key(OK_KEY), Boolean(true), Call.Key(RECORDS_KEY), Call.Begin(false)]
  const LEAD_OUT := [Call.End(false), Call.End(true)]

  function ReplyCalls(rs: seq<Line>): seq<Call> { LEAD_IN + RecordsCalls(rs) + LEAD_OUT }

  predicate NamedTag(l: Line) { KeyTaken(l.fields, TAG_KEY) }

  predicate AnyNamedTag(rs: seq<Line>) { exists i :: 0 <= i < |rs| && NamedTag(rs[i]) }

  /** records_to_json into cap bytes. */
  function RecordsToJson(reply: string, cap: nat): Option<string> {
    var rs := RecordsOf(reply);
    var w := DoAll(Init(cap), cap, ReplyCalls(rs));
    if AnyNamedTag(rs) || Finish(w) < 0 then None else Some(w.out)
  }

  // ------------------------------------------------------------------ they describe the reply's value

  lemma FieldEmits(f: KvField)
    ensures EmitField(Field(AsText(f.key), ScalarOf(f))) == FieldCalls(f)
  {}

  lemma {:induction false} FieldsEmit(fields: seq<KvField>)
    ensures EmitFields(FieldsOf(fields)) == FieldsCalls(fields)
  {
    if fields != [] {
      var init := fields[..|fields| - 1];
      FieldsEmit(init);
      FieldEmits(fields[|fields| - 1]);
      assert FieldsOf(fields)[..|fields| - 1] == FieldsOf(init);
    }
  }

  lemma {:induction false} EmitFieldsAppend(a: seq<Field>, b: seq<Field>)
    ensures EmitFields(a + b) == EmitFields(a) + EmitFields(b)
    decreases |b|
  {
    if b == [] {
      assert a + b == a;
    } else {
      var init := b[..|b| - 1];
      EmitFieldsAppend(a, init);
      assert (a + b)[..|a + b| - 1] == a + init && (a + b)[|a + b| - 1] == b[|b| - 1];
    }
  }

  lemma EmitOneField(f: Field)
    ensures EmitFields([f]) == EmitField(f)
  {
    assert [f][..0] == [];
  }

  lemma RecordEmits(l: Line)
    ensures Emit(RecordValue(l)) == RecordCalls(l)
  {
    var tag := Field(TAG_KEY, Str(AsText(l.tag)));
    FieldsEmit(l.fields);
    EmitFieldsAppend([tag], FieldsOf(l.fields));
    EmitOneField(tag);
    assert EmitField(tag) == [Call.Key(TAG_KEY), String(AsText(l.tag))];
    assert [Call.Begin(true)] + ([Call.Key(TAG_KEY), String(AsText(l.tag))] + FieldsCalls(l.fields)) == TagCalls(l) + FieldsCalls(l.fields);
  }

  lemma {:induction false} RecordsEmit(rs: seq<Line>)
    ensures EmitItems(RecordValues(rs)) == RecordsCalls(rs)
  {
    if rs != [] {
      var init := rs[..|rs| - 1];
      RecordsEmit(init);
      RecordEmits(rs[|rs| - 1]);
      assert RecordValues(rs)[..|rs| - 1] == RecordValues(init);
    }
  }

  lemma EmitTwoFields(a: Field, b: Field)
    ensures EmitFields([a, b]) == EmitField(a) + EmitField(b)
  {
    EmitFieldsAppend([a], [b]);
    EmitOneField(a);
    EmitOneField(b);
    assert [a] + [b] == [a, b];
  }

  lemma ReplyText(mid: seq<Call>)
    ensures [Call.Begin(true)] + ([Call.Key(OK_KEY), Boolean(true)] + ([Call.Key(RECORDS_KEY)] + ([Call.Begin(false)] + mid + [Call.End(false)])))
            + [Call.End(true)] == LEAD_IN + mid + LEAD_OUT
  {}

  /** The calls describe exactly the reply's value. */
  lemma ReplyEmits(rs: seq<Line>)
    ensures Emit(ReplyValue(rs)) == ReplyCalls(rs)
  {
    var ok, records := Field(OK_KEY, Bool(true)), Field(RECORDS_KEY, Arr(RecordValues(rs)));
    RecordsEmit(rs);
    EmitTwoFields(ok, records);
    assert EmitField(ok) == [Call.Key(OK_KEY), Boolean(true)];
    assert EmitField(records) == [Call.Key(RECORDS_KEY)] + ([Call.Begin(false)] + RecordsCalls(rs) + [Call.End(false)]);
    ReplyText(RecordsCalls(rs));
  }

  // ------------------------------------------------------------------ and it can always be written, if it fits

  lemma PrintableText(s: string)
    requires Printable(s)
    ensures AsText(s) == s && Ascii(s)
  {}

  lemma FieldWritable(f: KvField)
    requires FieldOk(f)
    ensures AsText(f.key) == f.key && Ascii(f.key) && Writable(ScalarOf(f)) && Depth(ScalarOf(f)) == 0
    ensures f.kind != KvNull ==> AsText(f.val) == f.val
  {
    NameIsPlain(f.key, MAX_KEY);
    PrintableText(f.key);
    if f.kind.KvNum? { NumberIsPlain(f.val); }
    if f.kind != KvNull { PrintableText(f.val); }
  }

  lemma {:induction false} ScalarsAreFlat(fields: seq<Field>)
    requires forall i :: 0 <= i < |fields| ==> Depth(fields[i].value) == 0
    ensures DepthFields(fields) == 0
  {
    if fields != [] { ScalarsAreFlat(fields[..|fields| - 1]); }
  }

  lemma RecordWritable(l: Line)
    requires LineOk(l)
    ensures Writable(RecordValue(l)) && Depth(RecordValue(l)) == 1 && AsText(l.tag) == l.tag
  {
    NameIsPlain(l.tag, MAX_TAG);
    PrintableText(l.tag);
    var fields := [Field(TAG_KEY, Str(AsText(l.tag)))] + FieldsOf(l.fields);
    ObjShape(fields);
    RecordFieldsWritable(l, fields);
    ScalarsAreFlat(fields);
  }

  lemma RecordFieldsWritable(l: Line, fields: seq<Field>)
    requires LineOk(l) && Ascii(l.tag) && AsText(l.tag) == l.tag
    requires fields == [Field(TAG_KEY, Str(AsText(l.tag)))] + FieldsOf(l.fields)
    ensures forall i :: 0 <= i < |fields| ==> Ascii(fields[i].key) && Writable(fields[i].value) && Depth(fields[i].value) == 0
  {
    forall i | 0 <= i < |fields| ensures Ascii(fields[i].key) && Writable(fields[i].value) && Depth(fields[i].value) == 0 {
      if i > 0 { FieldWritable(l.fields[i - 1]); }
    }
  }

  lemma {:induction false} ItemsDepth(items: seq<Value>, n: nat)
    requires forall i :: 0 <= i < |items| ==> Depth(items[i]) <= n
    ensures DepthItems(items) <= n
  {
    if items != [] { ItemsDepth(items[..|items| - 1], n); }
  }

  ghost predicate LinesOk(rs: seq<Line>) { forall i :: 0 <= i < |rs| ==> LineOk(rs[i]) }

  lemma DepthOfTwo(a: Field, b: Field)
    ensures DepthFields([a, b]) == Max(Depth(a.value), Depth(b.value))
  {
    assert [a][..0] == [] && DepthFields([a]) == Max(0, Depth(a.value));
    assert [a, b][..1] == [a];
  }

  lemma RecordsWritable(rs: seq<Line>)
    requires LinesOk(rs)
    ensures AllWritable(RecordValues(rs)) && DepthItems(RecordValues(rs)) <= 1
  {
    var items := RecordValues(rs);
    forall i | 0 <= i < |items| ensures Writable(items[i]) && Depth(items[i]) <= 1 { RecordWritable(rs[i]); }
    ItemsDepth(items, 1);
  }

  lemma TwoFieldsWritable(a: Field, b: Field)
    requires Ascii(a.key) && Ascii(b.key) && Writable(a.value) && Writable(b.value)
    ensures Writable(Obj([a, b])) && Depth(Obj([a, b])) == 1 + Max(Depth(a.value), Depth(b.value))
  {
    ObjShape([a, b]);
    DepthOfTwo(a, b);
  }

  lemma FlagAndListWritable(flag: Text, list: Text, items: seq<Value>)
    requires Ascii(flag) && Ascii(list) && AllWritable(items) && DepthItems(items) <= 1
    ensures Writable(Obj([Field(flag, Bool(true)), Field(list, Arr(items))]))
    ensures Depth(Obj([Field(flag, Bool(true)), Field(list, Arr(items))])) <= MAX_DEPTH
  {
    ArrShape(items);
    TwoFieldsWritable(Field(flag, Bool(true)), Field(list, Arr(items)));
  }

  lemma ReplyWritable(rs: seq<Line>)
    requires LinesOk(rs)
    ensures Writable(ReplyValue(rs)) && Depth(ReplyValue(rs)) <= MAX_DEPTH
  {
    RecordsWritable(rs);
    FlagAndListWritable(OK_KEY, RECORDS_KEY, RecordValues(rs));
  }

  /** A good reply becomes its value's text, except exactly when a record has a field named tag or the
      text does not fit. */
  lemma ReplyBecomesItsValue(reply: string, cap: nat)
    ensures var rs := RecordsOf(reply);
            RecordsToJson(reply, cap)
            == if AnyNamedTag(rs) || |Show(ReplyValue(rs))| >= cap then None else Some(Show(ReplyValue(rs)))
  {
    var rs := RecordsOf(reply);
    RecordsAreOk(reply);
    ReplyEmits(rs);
    ReplyWritable(rs);
    ValueIsWritten(cap, ReplyValue(rs));
  }

  // ------------------------------------------------------------------ reading the JSON gives the reply back

  function KvOf(f: Field): Option<KvField> {
    match f.value
    case Str(s) => Some(KvField(f.key, s, KvStr))
    case Num(text) => Some(KvField(f.key, text, KvNum))
    case Null => Some(KvField(f.key, "null", KvNull))
    case _ => None
  }

  function KvsOf(fields: seq<Field>): Option<seq<KvField>> {
    if fields == [] then Some([]) else
    match (KvsOf(fields[..|fields| - 1]), KvOf(fields[|fields| - 1]))
    case (Some(init), Some(last)) => Some(init + [last])
    case _ => None
  }

  function LineOf(v: Value): Option<Line> {
    if v.Obj? && v.fields != [] && v.fields[0].key == TAG_KEY && v.fields[0].value.Str? then
      match KvsOf(v.fields[1..])
      case Some(fields) => Some(Line(v.fields[0].value.s, fields))
      case None => None
    else None
  }

  function LinesOf(items: seq<Value>): Option<seq<Line>> {
    if items == [] then Some([]) else
    match (LinesOf(items[..|items| - 1]), LineOf(items[|items| - 1]))
    case (Some(init), Some(last)) => Some(init + [last])
    case _ => None
  }

  /** The records a JSON body holds. */
  function RecordsIn(v: Value): Option<seq<Line>> {
    if v.Obj? && |v.fields| == 2 && v.fields[0] == Field(OK_KEY, Bool(true)) && v.fields[1].key == RECORDS_KEY && v.fields[1].value.Arr?
    then LinesOf(v.fields[1].value.items) else None
  }

  lemma FieldComesBack(f: KvField)
    requires FieldOk(f)
    ensures KvOf(Field(AsText(f.key), ScalarOf(f))) == Some(f)
  {
    FieldWritable(f);
  }

  lemma {:induction false} FieldsComeBack(fields: seq<KvField>)
    requires forall i :: 0 <= i < |fields| ==> FieldOk(fields[i])
    ensures KvsOf(FieldsOf(fields)) == Some(fields)
  {
    if fields != [] {
      var init, last := fields[..|fields| - 1], fields[|fields| - 1];
      FieldsComeBack(init);
      FieldComesBack(last);
      assert FieldsOf(fields)[..|fields| - 1] == FieldsOf(init) && init + [last] == fields;
    }
  }

  lemma RecordComesBack(l: Line)
    requires LineOk(l)
    ensures LineOf(RecordValue(l)) == Some(l)
  {
    RecordWritable(l);
    FieldsComeBack(l.fields);
    var fields := [Field(TAG_KEY, Str(AsText(l.tag)))] + FieldsOf(l.fields);
    assert fields[1..] == FieldsOf(l.fields);
  }

  lemma LinesSnoc(items: seq<Value>, init: seq<Value>, v: Value, rs: seq<Line>, l: Line)
    requires items == init + [v] && LinesOf(init) == Some(rs) && LineOf(v) == Some(l)
    ensures LinesOf(items) == Some(rs + [l])
  {
    assert items[..|items| - 1] == init;
  }

  lemma {:induction false} RecordsComeBack(rs: seq<Line>)
    requires LinesOk(rs)
    ensures LinesOf(RecordValues(rs)) == Some(rs)
  {
    if rs != [] {
      var init, last := rs[..|rs| - 1], rs[|rs| - 1];
      RecordsComeBack(init);
      RecordComesBack(last);
      InitAndLast(rs);
      assert RecordValues(rs) == RecordValues(init) + [RecordValue(last)];
      LinesSnoc(RecordValues(rs), RecordValues(init), RecordValue(last), init, last);
    }
  }

  /** No two fields of a record's object share a key. */
  ghost predicate UniqueKeys(v: Value) {
    v.Obj? && forall i, j :: 0 <= i < j < |v.fields| ==> v.fields[i].key != v.fields[j].key
  }

  lemma RecordHasUniqueKeys(l: Line)
    requires LineOk(l) && !NamedTag(l)
    ensures UniqueKeys(RecordValue(l))
  {
    var fields := RecordValue(l).fields;
    forall i | 1 <= i < |fields| ensures fields[i].key == l.fields[i - 1].key { FieldWritable(l.fields[i - 1]); }
  }

  lemma ReplyKeys(rs: seq<Line>)
    ensures UniqueKeys(ReplyValue(rs))
  {
    assert |OK_KEY| != |RECORDS_KEY|;
  }

  /** The body means what the reply said: reading it gives the value, and that holds the same records,
      in order, with the same tags, field order, types and values. */
  lemma BodyMeansTheReply(reply: string, cap: nat, text: string)
    requires RecordsToJson(reply, cap) == Some(text)
    ensures Read(text) == Some(ReplyValue(RecordsOf(reply))) && RecordsIn(ReplyValue(RecordsOf(reply))) == Some(RecordsOf(reply))
  {
    var rs := RecordsOf(reply);
    ReplyBecomesItsValue(reply, cap);
    RecordsAreOk(reply);
    ReplyWritable(rs);
    ReadOfShow(ReplyValue(rs));
    RecordsComeBack(rs);
  }

  /** No object of the body has a duplicate key. */
  lemma BodyHasUniqueKeys(reply: string, cap: nat)
    requires RecordsToJson(reply, cap).Some?
    ensures UniqueKeys(ReplyValue(RecordsOf(reply)))
    ensures forall i :: 0 <= i < |RecordsOf(reply)| ==> UniqueKeys(RecordValue(RecordsOf(reply)[i]))
  {
    var rs := RecordsOf(reply);
    RecordsAreOk(reply);
    ReplyKeys(rs);
    forall i | 0 <= i < |rs| ensures UniqueKeys(RecordValue(rs[i])) { RecordHasUniqueKeys(rs[i]); }
  }

  // ------------------------------------------------------------------ records_to_json, in place

  /** A run of calls on the writer. */
  method PerformAll(j: JsonText, calls: seq<Call>)
    requires j.Valid()
    modifies j, j.buf
    ensures j.Valid() && j.Model() == DoAll(old(j.Model()), j.cap, calls)
  {
    var i := 0;
    while i < |calls|
      invariant 0 <= i <= |calls| && j.Valid()
      invariant DoAll(j.Model(), j.cap, calls[i..]) == DoAll(old(j.Model()), j.cap, calls)
    {
      assert calls[i..][1..] == calls[i + 1..];
      j.Perform(calls[i]);
      i := i + 1;
    }
  }

  lemma RecordsCallsSnoc(w: Writer, cap: nat, done: seq<Line>, l: Line)
    ensures DoAll(w, cap, RecordsCalls(done + [l])) == DoAll(DoAll(w, cap, RecordsCalls(done)), cap, RecordCalls(l))
  {
    assert (done + [l])[..|done|] == done;
    DoAllAppend(w, cap, RecordsCalls(done), RecordCalls(l));
  }

  lemma ReplyCallsAre(cap: nat, rs: seq<Line>)
    ensures DoAll(Init(cap), cap, ReplyCalls(rs))
            == DoAll(DoAll(DoAll(Init(cap), cap, LEAD_IN), cap, RecordsCalls(rs)), cap, LEAD_OUT)
  {
    DoAllAppend(Init(cap), cap, LEAD_IN + RecordsCalls(rs), LEAD_OUT);
    DoAllAppend(Init(cap), cap, LEAD_IN, RecordsCalls(rs));
  }

  /** One record's object. */
  method WriteRecord(j: JsonText, l: Line, ghost w: Writer, ghost done: seq<Line>)
    requires j.Valid() && j.Model() == DoAll(w, j.cap, RecordsCalls(done))
    modifies j, j.buf
    ensures j.Valid() && j.Model() == DoAll(w, j.cap, RecordsCalls(done + [l]))
  {
    RecordsCallsSnoc(w, j.cap, done, l);
    PerformAll(j, RecordCalls(l));
  }

  /** How the records done so far and those to come make up the reply's. */
  ghost predicate Between(done: seq<Line>, todo: seq<Line>, all: seq<Line>) { done + todo == all && !AnyNamedTag(done) }

  lemma BetweenNext(done: seq<Line>, l: Line, more: seq<Line>, all: seq<Line>)
    requires Between(done, [l] + more, all)
    ensures if NamedTag(l) then AnyNamedTag(all) else Between(done + [l], more, all)
  {
    assert done + [l] + more == all && all[|done|] == l;
  }

  lemma BetweenDone(done: seq<Line>, all: seq<Line>)
    requires Between(done, [], all)
    ensures done == all && !AnyNamedTag(all)
  {}

  /** The loop over the records, up to the first line that is not one. */
  method WriteRecords(j: JsonText, reply: string, ghost parse: string -> Parsed) returns (ok: bool)
    requires j.Valid() && Parses(parse)
    modifies j, j.buf
    ensures j.Valid() && ok == !AnyNamedTag(RecordsWith(parse, reply))
    ensures ok ==> j.Model() == DoAll(old(j.Model()), j.cap, RecordsCalls(RecordsWith(parse, reply)))
  {
    ghost var w, done: seq<Line>, all := j.Model(), [], RecordsWith(parse, reply);
    var cur := 0;
    assert reply[0..] == reply;
    while true
      invariant cur <= |reply| && j.Valid() && j.Model() == DoAll(w, j.cap, RecordsCalls(done))
      invariant Between(done, RecordsWith(parse, reply[cur..]), all)
      decreases |reply| - cur
    {
      var line, next := WalkOn(reply, cur, parse);
      if line.None? || !line.value.Record? {
        BetweenDone(done, all);
        return true;
      }
      var l := line.value.line;
      BetweenNext(done, l, RecordsWith(parse, reply[next..]), all);
      if NamedTag(l) { return false; }
      WriteRecord(j, l, w, done);
      done, cur := done + [l], next;
    }
  }

  /** records_to_json: the body, or a refusal. */
  method WriteReply(j: JsonText, reply: string) returns (ok: bool, n: nat)
    requires j.Valid() && j.Model() == Init(j.cap)
    modifies j, j.buf
    ensures j.Valid()
    ensures match RecordsToJson(reply, j.cap)
            case None => !ok
            case Some(text) => ok && n == |text| && n <= j.buf.Length && j.buf[..n] == text
  {
    ReplyCallsAre(j.cap, RecordsOf(reply));
    PerformAll(j, LEAD_IN);
    ParseLineParses();
    ok := WriteRecords(j, reply, ParseLine);
    if !ok { return false, 0; }
    PerformAll(j, LEAD_OUT);
    var size := j.Length();
    if size < 0 { return false, 0; }
    return true, size;
  }

  // ------------------------------------------------------------------ refusals

  /** set_error's body. */
  function ErrorBody(code: string, reason: string, cap: nat): Option<string> {
    var w := DoAll(Init(cap), cap, Emit(ErrorValue(code, reason)));
    if Finish(w) < 0 then None else Some(w.out)
  }

  lemma {:induction false} EscapedSize(s: string)
    requires Printable(s)
    ensures |Escaped(s)| <= 2 * |s|
  {
    if s != "" { EscapedSize(s[..|s| - 1]); }
  }

  lemma ThreeFields(a: Field, b: Field, c: Field)
    ensures ShowFields([a, b, c]) == ShowField(a) + "," + ShowField(b) + "," + ShowField(c)
    ensures DepthFields([a, b, c]) == Max(Max(Depth(a.value), Depth(b.value)), Depth(c.value))
  {
    assert [a, b, c][..2] == [a, b] && [a, b][..1] == [a] && [a][..0] == [];
    assert ShowFields([a]) == "" + "" + ShowField(a) == ShowField(a);
    assert ShowFields([a, b]) == ShowField(a) + "," + ShowField(b);
    DepthOfTwo(a, b);
  }

  lemma ThreeFieldsWritable(a: Field, b: Field, c: Field)
    requires Ascii(a.key) && Ascii(b.key) && Ascii(c.key) && Writable(a.value) && Writable(b.value) && Writable(c.value)
    requires Depth(a.value) == Depth(b.value) == Depth(c.value) == 0
    ensures Writable(Obj([a, b, c])) && Depth(Obj([a, b, c])) == 1
  {
    ThreeFields(a, b, c);
    ObjShape([a, b, c]);
  }

  lemma ErrorWritable(code: Text, reason: Text)
    requires Ascii(code) && Ascii(reason)
    ensures Writable(ErrorValue(code, reason)) && Depth(ErrorValue(code, reason)) <= MAX_DEPTH
  {
    ThreeFieldsWritable(Field(OK_KEY, Bool(false)), Field(CODE_KEY, Str(code)), Field(REASON_KEY, Str(reason)));
  }

  lemma FieldSize(f: Field, n: nat)
    requires Printable(f.key) && |Show(f.value)| <= n
    ensures |ShowField(f)| <= 2 * |f.key| + 3 + n
  {
    EscapedSize(f.key);
  }

  lemma ErrorFits(code: Text, reason: Text)
    requires ErrOk(code, reason)
    ensures |Show(ErrorValue(code, reason))| < 512
  {
    var a, b, c := Field(OK_KEY, Bool(false)), Field(CODE_KEY, Str(code)), Field(REASON_KEY, Str(reason));
    NameIsPlain(code, MAX_CODE);
    EscapedSize(code);
    EscapedSize(reason);
    FieldSize(a, 5);
    FieldSize(b, 48);
    FieldSize(c, 192);
    ThreeFields(a, b, c);
  }

  /** A source's refusal always fits the response, and reading the body gives its code and reason. */
  lemma RefusalReadsBack(reply: string, code: string, reason: string, cap: nat)
    requires CheckReply(reply) == Refused(code, reason) && cap >= 512
    ensures ErrorBody(code, reason, cap).Some? && Read(ErrorBody(code, reason, cap).value) == Some(ErrorValue(code, reason))
    ensures AsText(code) == code && AsText(reason) == reason
  {
    RefusedIsOk(ParseLine, reply, code, reason);
    PrintableText(reason);
    NameIsPlain(code, MAX_CODE);
    PrintableText(code);
    ErrorWritable(code, reason);
    ErrorFits(code, reason);
    ValueIsWritten(cap, ErrorValue(code, reason));
    ReadOfShow(ErrorValue(code, reason));
  }

  ghost predicate ParsesErrOk(parse: string -> Parsed, s: string) {
    parse(s).Err? ==> ErrOk(parse(s).code, parse(s).reason)
  }

  lemma {:induction false} RefusalIsOk(parse: string -> Parsed, reply: string)
    requires CheckWith(parse, reply).Refused? && forall s :: ParsesErrOk(parse, s)
    ensures ErrOk(CheckWith(parse, reply).code, CheckWith(parse, reply).reason)
    decreases |reply|
  {
    var nl := Find(reply, '\n');
    assert ParsesErrOk(parse, Trim(reply[..nl]));
    if parse(Trim(reply[..nl])).Record? { RefusalIsOk(parse, reply[nl + 1..]); }
  }

  lemma RefusedIsOk(parse: string -> Parsed, reply: string, code: string, reason: string)
    requires parse == ParseLine && CheckReply(reply) == Refused(code, reason)
    ensures ErrOk(code, reason)
  {
    forall s ensures ParsesErrOk(ParseLine, s) { if ParseLine(s).Err? { ErrShowsBack(s); } }
    RefusalIsOk(ParseLine, reply);
  }
}
