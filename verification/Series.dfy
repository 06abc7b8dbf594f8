/** The series route: from a URL's query to one request line for the source. */
module Series {
  import opened Framing
  import opened Kv
  import opened Number
  import opened Strings
  import Http

  const VALUE_MAX := 24
  const LINE_MAX := 160

  /** Every key there is; a line's fields are sorted by place in this list. */
  const KEYS := ["pid", "from", "to"]

  datatype Answer<+T> = Value(value: T) | Refusal(reason: string)

  // ------------------------------------------------------------------ the keys

  function KeyIndex(name: string): (k: nat)
    ensures k <= 3 && (k < 3 ==> KEYS[k] == name) && (k == 3 ==> name != KEYS[0] && name != KEYS[1] && name != KEYS[2])
  {
    if name == KEYS[0] then 0 else if name == KEYS[1] then 1 else if name == KEYS[2] then 2 else 3
  }

  function NameIn(query: string): string { query[..Http.Span(query, "=&")] }

  /** The rest of a query after its first pair and the ampersand. */
  function AfterPair(query: string): (rest: string)
    ensures query != "" ==> |rest| < |query|
  {
    var pair := Http.Span(query, "&");
    if pair < |query| then query[pair + 1..] else ""
  }

  /** check_keys: which keys the query has, if each is known and comes once and no pair is empty. */
  function CheckKeys(query: string, seen: set<nat>): Answer<set<nat>>
    decreases |query|
  {
    if query == "" then Value(seen) else
    var k := KeyIndex(NameIn(query));
    if k == 3 then Refusal("unknown query key")
    else if k in seen then Refusal("repeated query key")
    else if Http.Span(query, "&") < |query| && AfterPair(query) == "" then Refusal("empty query pair")
    else CheckKeys(AfterPair(query), seen + {k})
  }

  /** check_keys' loop. */
  method CheckSeriesKeys(query: string) returns (r: Answer<set<nat>>)
    ensures r == CheckKeys(query, {})
  {
    var rest, seen := query, {};
    while rest != ""
      invariant CheckKeys(rest, seen) == CheckKeys(query, {})
      decreases |rest|
    {
      var k := KeyIndex(NameIn(rest));
      if k == 3 { return Refusal("unknown query key"); }
      if k in seen { return Refusal("repeated query key"); }
      var more := Http.Span(rest, "&") < |rest|;
      rest, seen := AfterPair(rest), seen + {k};
      if more && rest == "" { return Refusal("empty query pair"); }
    }
    r := Value(seen);
  }

  // ------------------------------------------------------------------ the values

  predicate SafeChar(c: char) { 'a' <= c <= 'z' || 'A' <= c <= 'Z' || '0' <= c <= '9' || c in ":+.,_/-" }

  /** safe_value. */
  predicate SafeValue(v: string) { 0 < |v| <= VALUE_MAX && forall i :: 0 <= i < |v| ==> SafeChar(v[i]) }

  predicate OnlyDigits(v: string) { forall i :: 0 <= i < |v| ==> IsDigit(v[i]) }

  /** Key k's field for the value v: quoted, unless k is not the first key and v is made of digits alone. */
  function FieldFor(k: nat, v: string): KvField
    requires k < 3
  {
    KvField(KEYS[k], v, if k != 0 && OnlyDigits(v) then KvNum else KvStr)
  }

  /** The fields for the keys from k on. */
  function FieldsFrom(query: string, seen: set<nat>, k: nat): Answer<seq<KvField>>
    requires k <= 3
    decreases 3 - k
  {
    if k == 3 then Value([]) else
    if k !in seen then FieldsFrom(query, seen, k + 1) else
    match Http.QueryGet(query, KEYS[k], Http.QUERY_MAX)
    case None => Refusal("bad query value")
    case Some(v) =>
      if !SafeValue(v) then Refusal("unsafe query value") else
      match FieldsFrom(query, seen, k + 1)
      case Refusal(why) => Refusal(why)
      case Value(fields) => Value([FieldFor(k, v)] + fields)
  }

  /** build_series: the request line, or why the URL is refused. */
  function BuildSeries(query: string): Answer<string> {
    match CheckKeys(query, {})
    case Refusal(why) => Refusal(why)
    case Value(seen) =>
      match FieldsFrom(query, seen, 0)
      case Refusal(why) => Refusal(why)
      case Value(fields) => Value(PrintLine(Line("series", fields)))
  }

  /** One key's turn: its field's text, if it is there and safe. */
  method SeriesField(query: string, k: nat, ghost seen: set<nat>) returns (r: Answer<KvField>)
    requires k < 3 && k in seen
    ensures match r
            case Refusal(why) => FieldsFrom(query, seen, k) == Refusal(why)
            case Value(f) => |PrintField(f)| <= 31 && FieldsFrom(query, seen, k) == Joined([f], FieldsFrom(query, seen, k + 1))
  {
    var v := Http.HttpQueryGet(query, KEYS[k], Http.QUERY_MAX);
    if v.None? { return Refusal("bad query value"); }
    if !SafeValue(v.value) { return Refusal("unsafe query value"); }
    ShortField(k, v.value);
    r := Value(FieldFor(k, v.value));
  }

  /** build_series' loop: it prints field after field into a line of LINE_MAX bytes. */
  method BuildSeriesLine(query: string) returns (r: Answer<string>)
    ensures r == BuildSeries(query)
    ensures r.Value? ==> |r.value| < LINE_MAX
  {
    var keys := CheckSeriesKeys(query);
    if keys.Refusal? { return Refusal(keys.reason); }
    var seen, line, k := keys.value, "series", 0;
    ghost var done: seq<KvField> := [];
    NothingDone(FieldsFrom(query, seen, 0));
    while k < 3
      invariant 0 <= k <= 3 && LineSoFar(line, done) && |line| <= 6 + 33 * k
      invariant Joined(done, FieldsFrom(query, seen, k)) == FieldsFrom(query, seen, 0)
    {
      if k in seen {
        var f := SeriesField(query, k, seen);
        if f.Refusal? { return Refusal(f.reason); }
        assert |PrintField(f.value)| + 1 < LINE_MAX - |line|;   // so the line is never too long
        MoreOfLine(line, done, f.value);
        JoinedMore(done, f.value, FieldsFrom(query, seen, k + 1));
        line, done := line + ([' '] + PrintField(f.value)), done + [f.value];
      }
      k := k + 1;
    }
    assert done + [] == done;
    r := Value(line);
  }

  lemma NothingDone(rest: Answer<seq<KvField>>)
    ensures LineSoFar("series", []) && Joined([], rest) == rest
  {
    assert "series" + "" == "series";
    if rest.Value? { assert [] + rest.value == rest.value; }
  }

  ghost predicate LineSoFar(line: string, done: seq<KvField>) { line == PrintLine(Line("series", done)) }

  function Joined(done: seq<KvField>, rest: Answer<seq<KvField>>): Answer<seq<KvField>> {
    match rest case Refusal(why) => Refusal(why) case Value(fields) => Value(done + fields)
  }

  lemma JoinedMore(done: seq<KvField>, f: KvField, rest: Answer<seq<KvField>>)
    ensures Joined(done + [f], rest) == Joined(done, Joined([f], rest))
  {
    if rest.Value? { assert done + [f] + rest.value == done + ([f] + rest.value); }
  }

  lemma {:induction false} PrintFieldsSnoc(done: seq<KvField>, f: KvField)
    ensures PrintFields(done + [f]) == PrintFields(done) + ([' '] + PrintField(f))
  {
    if done == [] {
      assert [f][1..] == [] && [] + [f] == [f];
      assert PrintFields([f]) == [' '] + PrintField(f) + "" == [' '] + PrintField(f);
      assert "" + ([' '] + PrintField(f)) == [' '] + PrintField(f);
    } else {
      assert (done + [f])[0] == done[0] && (done + [f])[1..] == done[1..] + [f];
      PrintFieldsSnoc(done[1..], f);
      Assoc3([' '] + PrintField(done[0]), PrintFields(done[1..]), [' '] + PrintField(f));
    }
  }

  lemma Assoc3(a: string, b: string, c: string)
    ensures a + (b + c) == a + b + c
  {}

  lemma MoreOfLine(line: string, done: seq<KvField>, f: KvField)
    requires LineSoFar(line, done)
    ensures LineSoFar(line + ([' '] + PrintField(f)), done + [f])
  {
    PrintFieldsSnoc(done, f);
    Assoc3("series", PrintFields(done), [' '] + PrintField(f));
  }

  /** No field of a series line is long: the line always fits its buffer. */
  lemma ShortField(k: nat, v: string)
    requires k < 3 && SafeValue(v)
    ensures |PrintField(FieldFor(k, v))| <= 31
  {
    assert |KEYS[k]| <= 4;
  }

  // ------------------------------------------------------------------ what the line says

  lemma SafeIsPlain(v: string)
    requires SafeValue(v)
    ensures Printable(v) && !Has(v, '"') && !Has(v, '\\')
  {
    forall i | 0 <= i < |v| ensures ' ' < v[i] < 0x7F as char && v[i] != '"' && v[i] != '\\' { assert SafeChar(v[i]); }
  }

  /** The keys that are there, in order. */
  function Present(seen: set<nat>, k: nat): (ks: seq<nat>)
    requires k <= 3
    ensures |ks| <= 3 - k && forall i :: 0 <= i < |ks| ==> k <= ks[i] < 3 && ks[i] in seen
    ensures forall i, j :: 0 <= i < j < |ks| ==> ks[i] < ks[j]
    ensures forall j :: k <= j < 3 && j in seen ==> j in ks
    decreases 3 - k
  {
    if k == 3 then [] else if k in seen then [k] + Present(seen, k + 1) else Present(seen, k + 1)
  }

  /** f carries key j's value, percent-decoded. */
  ghost predicate Carries(query: string, j: nat, f: KvField) {
    j < 3 && Http.QueryGet(query, KEYS[j], Http.QUERY_MAX) == Some(f.val) && SafeValue(f.val) && f == FieldFor(j, f.val)
  }

  ghost predicate CarriesAll(query: string, ks: seq<nat>, fields: seq<KvField>) {
    |fields| == |ks| && forall i :: 0 <= i < |ks| ==> Carries(query, ks[i], fields[i])
  }

  /** The fields are those of the keys that are there, each with its decoded value. */
  lemma {:induction false} FieldsCarry(query: string, seen: set<nat>, k: nat, fields: seq<KvField>)
    requires k <= 3 && FieldsFrom(query, seen, k) == Value(fields)
    ensures CarriesAll(query, Present(seen, k), fields)
    decreases 3 - k
  {
    if k < 3 {
      if k in seen {
        FieldsCarry(query, seen, k + 1, fields[1..]);
        CarriesMore(query, k, Present(seen, k + 1), fields);
      } else {
        FieldsCarry(query, seen, k + 1, fields);
      }
    }
  }

  lemma CarriesMore(query: string, k: nat, ks: seq<nat>, fields: seq<KvField>)
    requires fields != [] && Carries(query, k, fields[0]) && CarriesAll(query, ks, fields[1..])
    ensures CarriesAll(query, [k] + ks, fields)
  {
    forall i | 0 < i < |fields| ensures Carries(query, ([k] + ks)[i], fields[i]) {
      assert Carries(query, ks[i - 1], fields[1..][i - 1]);
      assert ([k] + ks)[i] == ks[i - 1] && fields[i] == fields[1..][i - 1];
    }
  }

  ghost predicate DistinctKeys(fields: seq<KvField>) {
    forall a, b :: 0 <= a < b < |fields| ==> fields[a].key != fields[b].key
  }

  lemma CarriedKeysDiffer(query: string, seen: set<nat>, fields: seq<KvField>)
    requires CarriesAll(query, Present(seen, 0), fields)
    ensures DistinctKeys(fields)
  {
    var ks := Present(seen, 0);
    forall a, b | 0 <= a < b < |fields| ensures fields[a].key != fields[b].key {
      assert Carries(query, ks[a], fields[a]) && Carries(query, ks[b], fields[b]);
      KeysDiffer(ks[a], ks[b]);
    }
  }

  lemma KeysDiffer(j: nat, k: nat)
    requires j < k < 3
    ensures KEYS[j] != KEYS[k]
  {
    assert KEYS[0][0] == 'p' && KEYS[1][0] == 'f' && KEYS[2][0] == 't';
  }

  /** A value that is all digits but no number: it has a leading zero and more than one digit. */
  predicate LeadingZero(f: KvField) { f.kind.KvNum? && |f.val| > 1 && f.val[0] == '0' }

  lemma PartStarts(s: string, j: nat, k: nat)
    requires j <= k <= |s| && (IsFrac(s[j..k]) || IsExp(s[j..k]))
    ensures j < k ==> !IsDigit(s[j])
  {
    if j < k { assert s[j] == s[j..k][0]; }
  }

  lemma DigitsAreNumber(v: string)
    requires v != "" && OnlyDigits(v)
    ensures IsNumber(v) <==> |v| == 1 || v[0] != '0'
  {
    assert v[0..|v|] == v && v[|v|..|v|] == "" && v[|v|..] == "";
    if |v| == 1 || v[0] != '0' {
      if v[0] == '0' { assert v == "0"; }
      assert Parts(v, 0, |v|, |v|);
    }
    if IsNumber(v) {
      var i: nat, j: nat, k: nat :| Parts(v, i, j, k);
      PartStarts(v, j, k);
      assert v[k..|v|] == v[k..];
      PartStarts(v, k, |v|);
      assert i == 0 && j == |v|;
    }
  }

  lemma SeriesFieldOk(query: string, j: nat, f: KvField)
    requires Carries(query, j, f)
    ensures FieldOk(f) <==> !LeadingZero(f)
  {
    KeyIsName(j);
    SafeIsPlain(f.val);
    if f.kind.KvNum? { DigitsAreNumber(f.val); }
  }

  lemma KeyIsName(j: nat)
    requires j < 3
    ensures IsName(KEYS[j], MAX_KEY)
  {
    assert KEYS[0] == "pid" && KEYS[1] == "from" && KEYS[2] == "to";
  }

  lemma SeriesLineOk(fields: seq<KvField>, line: string)
    requires |fields| <= 3 && DistinctKeys(fields) && line == PrintLine(Line("series", fields)) && |line| < LINE_MAX
    ensures LineOk(Line("series", fields)) <==> forall i :: 0 <= i < |fields| ==> FieldOk(fields[i])
  {
    assert "series"[0] == 's' && "ok"[0] == 'o' && "err"[0] == 'e';
  }

  lemma {:induction false} ShortFields(query: string, ks: seq<nat>, fields: seq<KvField>)
    requires CarriesAll(query, ks, fields)
    ensures |PrintFields(fields)| <= 32 * |fields|
    decreases |fields|
  {
    if fields != [] {
      assert Carries(query, ks[0], fields[0]);
      ShortField(ks[0], fields[0].val);
      CarriesRest(query, ks, fields);
      ShortFields(query, ks[1..], fields[1..]);
    }
  }

  lemma CarriesRest(query: string, ks: seq<nat>, fields: seq<KvField>)
    requires CarriesAll(query, ks, fields) && fields != []
    ensures CarriesAll(query, ks[1..], fields[1..])
  {
    forall i | 0 <= i < |ks[1..]| ensures Carries(query, ks[1..][i], fields[1..][i]) {
      assert Carries(query, ks[i + 1], fields[i + 1]);
    }
  }

  /** Every line a query becomes fits its buffer with the final NUL. */
  lemma BuiltLineFits(query: string, line: string)
    requires BuildSeries(query) == Value(line)
    ensures |line| <= 102 < LINE_MAX
  {
    var seen := CheckKeys(query, {}).value;
    var fields := FieldsFrom(query, seen, 0).value;
    FieldsCarry(query, seen, 0, fields);
    ShortFields(query, Present(seen, 0), fields);
  }

  /** The line an accepted query becomes is read by the source as a series record with exactly the
      decoded values, except precisely when an all-digit from or to has a leading zero and more than
      one digit. */
  lemma SeriesReadsBack(query: string, line: string, seen: set<nat>, fields: seq<KvField>)
    requires BuildSeries(query) == Value(line)
    requires CheckKeys(query, {}) == Value(seen) && FieldsFrom(query, seen, 0) == Value(fields)
    ensures CarriesAll(query, Present(seen, 0), fields)
    ensures ParseLine(line) == Record(Line("series", fields)) <==> forall i :: 0 <= i < |fields| ==> !LeadingZero(fields[i])
  {
    FieldsCarry(query, seen, 0, fields);
    CarriedKeysDiffer(query, seen, fields);
    forall i | 0 <= i < |fields| ensures FieldOk(fields[i]) <==> !LeadingZero(fields[i]) {
      SeriesFieldOk(query, Present(seen, 0)[i], fields[i]);
    }
    BuiltLineFits(query, line);
    SeriesLineOk(fields, line);
    RecordsAreThePrinted(line, Line("series", fields));
  }

  // ------------------------------------------------------------------ the order of the keys

  /** A key and its value, still encoded; eq: an equals sign stands between them. */
  datatype Pair = Pair(key: string, eq: bool, val: string)

  predicate PairOk(p: Pair) {
    KeyIndex(p.key) < 3 && (!p.eq ==> p.val == "") && forall i :: 0 <= i < |p.val| ==> p.val[i] != '&'
  }

  /** What of a pair comes after its key. */
  function Tail(p: Pair): string { if p.eq then ['='] + p.val else "" }

  /** The query that these pairs make. */
  function QueryOf(pairs: seq<Pair>): string {
    if pairs == [] then "" else
    pairs[0].key + Tail(pairs[0]) + if |pairs| == 1 then "" else ['&'] + QueryOf(pairs[1..])
  }

  function Lookup(pairs: seq<Pair>, key: string): Option<string> {
    if pairs == [] then None else if pairs[0].key == key then Some(pairs[0].val) else Lookup(pairs[1..], key)
  }

  ghost predicate PairsOk(pairs: seq<Pair>) {
    && (forall i :: 0 <= i < |pairs| ==> PairOk(pairs[i]))
    && forall i, j :: 0 <= i < j < |pairs| ==> pairs[i].key != pairs[j].key
  }

  lemma SpanUnique(s: string, stop: string, n: nat)
    requires n <= |s| && (n < |s| ==> s[n] in stop) && forall i :: 0 <= i < n ==> s[i] !in stop
    ensures Http.Span(s, stop) == n
  {}

  lemma KeyChars(key: string, i: nat)
    requires KeyIndex(key) < 3 && i < |key|
    ensures key[i] != '=' && key[i] != '&'
  {
    assert KEYS[0] == "pid" && KEYS[1] == "from" && KEYS[2] == "to";
  }

  lemma NameEnds(key: string, tail: string, rest: string, q: string)
    requires q == key + tail + rest && KeyIndex(key) < 3
    requires (tail == "" || tail[0] == '=') && (rest == "" || rest[0] == '&')
    ensures Http.Span(q, "=&") == |key| && q[..|key|] == key
  {
    forall i | 0 <= i < |key| ensures q[i] !in "=&" { KeyChars(key, i); assert q[i] == key[i]; }
    assert |key| < |q| ==> q[|key|] == if tail == "" then '&' else '=';
    SpanUnique(q, "=&", |key|);
  }

  lemma PairEnds(p: Pair, tail: string, rest: string, q: string, n: nat)
    requires PairOk(p) && tail == Tail(p) && q == p.key + tail + rest && (rest == "" || rest[0] == '&') && n == |p.key| + |tail|
    ensures Http.Span(q, "&") == n && Http.ValueIn(q, n, |p.key|) == p.val && q[n..] == rest
  {
    forall i | 0 <= i < n ensures q[i] !in "&" {
      if i < |p.key| { KeyChars(p.key, i); assert q[i] == p.key[i]; } else { assert q[i] == tail[i - |p.key|]; }
    }
    SpanUnique(q, "&", n);
    if p.eq { assert q[|p.key| + 1..n] == p.val; }
  }

  function RestOf(pairs: seq<Pair>): string
    requires pairs != []
  {
    if |pairs| == 1 then "" else ['&'] + QueryOf(pairs[1..])
  }

  lemma FirstSpans(pairs: seq<Pair>, q: string, n: nat)
    requires pairs != [] && PairOk(pairs[0]) && q == QueryOf(pairs) && n == |pairs[0].key| + |Tail(pairs[0])|
    ensures n <= |q| && Http.Span(q, "=&") == |pairs[0].key| && q[..|pairs[0].key|] == pairs[0].key
    ensures Http.Span(q, "&") == n && Http.ValueIn(q, n, |pairs[0].key|) == pairs[0].val && q[n..] == RestOf(pairs)
  {
    NameEnds(pairs[0].key, Tail(pairs[0]), RestOf(pairs), q);
    PairEnds(pairs[0], Tail(pairs[0]), RestOf(pairs), q, n);
  }

  lemma RestIsQuery(pairs: seq<Pair>, q: string, n: nat)
    requires pairs != [] && n <= |q| && q[n..] == RestOf(pairs)
    ensures n < |q| <==> |pairs| > 1
    ensures (if n < |q| then q[n + 1..] else "") == QueryOf(pairs[1..])
  {
    if |pairs| == 1 {
      assert pairs[1..] == [] && |q[n..]| == 0;
    } else {
      assert q[n + 1..] == q[n..][1..];
    }
  }

  /** The front of a query made of pairs is its first pair. */
  lemma FirstPair(pairs: seq<Pair>, q: string)
    requires pairs != [] && PairOk(pairs[0]) && q == QueryOf(pairs)
    ensures q != "" && NameIn(q) == pairs[0].key && AfterPair(q) == QueryOf(pairs[1..])
    ensures Http.ValueIn(q, Http.Span(q, "&"), Http.Span(q, "=&")) == pairs[0].val
    ensures Http.Span(q, "&") < |q| <==> |pairs| > 1
  {
    var n := |pairs[0].key| + |Tail(pairs[0])|;
    KeyIsSomething(pairs[0].key);
    FirstSpans(pairs, q, n);
    RestIsQuery(pairs, q, n);
    SpansCut(q, n, |pairs[0].key|, QueryOf(pairs[1..]));
  }

  lemma KeyIsSomething(key: string)
    requires KeyIndex(key) < 3
    ensures key != ""
  {
    assert KEYS[0][0] == 'p' && KEYS[1][0] == 'f' && KEYS[2][0] == 't';
  }

  lemma SpansCut(q: string, n: nat, k: nat, rest: string)
    requires n <= |q| && Http.Span(q, "&") == n && Http.Span(q, "=&") == k && rest == (if n < |q| then q[n + 1..] else "")
    ensures NameIn(q) == q[..k] && AfterPair(q) == rest
  {}

  lemma {:induction false} GetsLookup(pairs: seq<Pair>, key: string, n: nat)
    requires forall i :: 0 <= i < |pairs| ==> PairOk(pairs[i])
    ensures Http.QueryGet(QueryOf(pairs), key, n) == match Lookup(pairs, key) case None => None case Some(v) => Http.Decode(v, n, true)
  {
    if pairs != [] {
      FirstPair(pairs, QueryOf(pairs));
      GetsLookup(pairs[1..], key, n);
    }
  }

  function Keys(pairs: seq<Pair>): set<nat> {
    if pairs == [] then {} else {KeyIndex(pairs[0].key)} + Keys(pairs[1..])
  }

  lemma QueryIsSomething(pairs: seq<Pair>)
    requires PairsOk(pairs)
    ensures QueryOf(pairs) == "" <==> pairs == []
  {
    if pairs != [] { FirstPair(pairs, QueryOf(pairs)); }
  }

  lemma UnseenRest(pairs: seq<Pair>, seen: set<nat>, k: nat)
    requires pairs != [] && PairsOk(pairs) && k == KeyIndex(pairs[0].key)
    requires forall i :: 0 <= i < |pairs| ==> KeyIndex(pairs[i].key) !in seen
    ensures PairsOk(pairs[1..]) && forall i :: 0 <= i < |pairs[1..]| ==> KeyIndex(pairs[1..][i].key) !in seen + {k}
  {
    forall i | 0 <= i < |pairs[1..]| ensures KeyIndex(pairs[1..][i].key) !in seen + {k} {
      assert pairs[1..][i] == pairs[i + 1] && pairs[i + 1].key != pairs[0].key;
    }
  }

  lemma {:induction false} KeysAccepted(pairs: seq<Pair>, seen: set<nat>)
    requires PairsOk(pairs) && forall i :: 0 <= i < |pairs| ==> KeyIndex(pairs[i].key) !in seen
    ensures CheckKeys(QueryOf(pairs), seen) == Value(seen + Keys(pairs))
    decreases |pairs|
  {
    if pairs == [] {
      assert seen + {} == seen;
    } else {
      var q, k := QueryOf(pairs), KeyIndex(pairs[0].key);
      FirstPair(pairs, q);
      UnseenRest(pairs, seen, k);
      QueryIsSomething(pairs[1..]);
      KeysAccepted(pairs[1..], seen + {k});
      assert seen + {k} + Keys(pairs[1..]) == seen + Keys(pairs);
    }
  }

  lemma {:induction false} KeysAreLookups(pairs: seq<Pair>, k: nat)
    requires k < 3 && forall i :: 0 <= i < |pairs| ==> PairOk(pairs[i])
    ensures k in Keys(pairs) <==> Lookup(pairs, KEYS[k]).Some?
  {
    if pairs != [] {
      KeysAreLookups(pairs[1..], k);
      if KeyIndex(pairs[0].key) != k && pairs[0].key == KEYS[k] { SameKey(pairs[0].key, k); }
    }
  }

  lemma SameKey(key: string, k: nat)
    requires k < 3 && key == KEYS[k]
    ensures KeyIndex(key) == k
  {
    assert KEYS[0][0] == 'p' && KEYS[1][0] == 'f' && KEYS[2][0] == 't';
  }

  lemma {:induction false} SameFields(a: string, b: string, seen: set<nat>, k: nat)
    requires k <= 3 && forall j :: k <= j < 3 ==> Http.QueryGet(a, KEYS[j], Http.QUERY_MAX) == Http.QueryGet(b, KEYS[j], Http.QUERY_MAX)
    ensures FieldsFrom(a, seen, k) == FieldsFrom(b, seen, k)
    decreases 3 - k
  {
    if k < 3 { SameFields(a, b, seen, k + 1); }
  }

  /** The order of the pairs does not matter, nor whether an empty value has its equals sign: queries that
      give each key the same value become the same line, or are refused for the same reason. */
  lemma KeyOrderDoesNotMatter(a: seq<Pair>, b: seq<Pair>)
    requires PairsOk(a) && PairsOk(b) && forall key :: Lookup(a, key) == Lookup(b, key)
    ensures BuildSeries(QueryOf(a)) == BuildSeries(QueryOf(b))
  {
    KeysAccepted(a, {});
    KeysAccepted(b, {});
    forall k: nat | k < 3 ensures k in Keys(a) <==> k in Keys(b) { KeysAreLookups(a, k); KeysAreLookups(b, k); }
    KeysBelow(a);
    KeysBelow(b);
    assert Keys(a) == Keys(b) && {} + Keys(a) == Keys(a);
    forall j | 0 <= j < 3
      ensures Http.QueryGet(QueryOf(a), KEYS[j], Http.QUERY_MAX) == Http.QueryGet(QueryOf(b), KEYS[j], Http.QUERY_MAX)
    {
      GetsLookup(a, KEYS[j], Http.QUERY_MAX);
      GetsLookup(b, KEYS[j], Http.QUERY_MAX);
    }
    SameFields(QueryOf(a), QueryOf(b), Keys(a), 0);
  }

  lemma {:induction false} KeysBelow(pairs: seq<Pair>)
    requires forall i :: 0 <= i < |pairs| ==> PairOk(pairs[i])
    ensures forall k :: k in Keys(pairs) ==> k < 3
  {
    if pairs != [] { KeysBelow(pairs[1..]); }
  }

  // ------------------------------------------------------------------ a line the source does not read

  const FROM_01: Pair := Pair(KEYS[1], true, ['0', '1'])

  lemma PlainDecodes(a: char, b: char, n: nat)
    requires a != '%' && a != '+' && b != '%' && b != '+' && n > 2
    ensures Http.Decode([a, b], n, true) == Some([a, b])
  {
    assert [a, b][1..] == [b] && [b][1..] == [];
    assert Http.DecodeWith(Http.DecodeOnePlus, [], n - 2) == Some("");
    assert Http.DecodeWith(Http.DecodeOnePlus, [b], n - 1) == Some([b] + "");
    assert [b] + "" == [b] && [a] + [b] == [a, b];
  }

  lemma From01Fields(query: string)
    requires query == QueryOf([FROM_01])
    ensures CheckKeys(query, {}) == Value({1})
    ensures FieldsFrom(query, {1}, 0) == Value([KvField(KEYS[1], ['0', '1'], KvNum)])
  {
    var pairs := [FROM_01];
    SameKey(KEYS[1], 1);
    assert pairs[1..] == [] && Keys(pairs) == {1} && {} + Keys(pairs) == {1};
    KeysAccepted(pairs, {});
    GetsLookup(pairs, KEYS[1], Http.QUERY_MAX);
    PlainDecodes('0', '1', Http.QUERY_MAX);
    assert SafeValue(['0', '1']) && OnlyDigits(['0', '1']);
    assert FieldsFrom(query, {1}, 2) == Value([]);
    assert FieldsFrom(query, {1}, 1) == Value([FieldFor(1, ['0', '1'])] + []);
    assert [FieldFor(1, ['0', '1'])] + [] == [FieldFor(1, ['0', '1'])];
  }

  /** The query from=01 is accepted, and the source does not read the line it becomes as that field. */
  lemma LeadingZeroIsNotRead()
    ensures QueryOf([FROM_01]) == "from=01"
    ensures var r := BuildSeries("from=01");
            r.Value? && ParseLine(r.value) != Record(Line("series", [KvField("from", "01", KvNum)]))
  {
    var query, field := QueryOf([FROM_01]), KvField(KEYS[1], ['0', '1'], KvNum);
    assert KEYS[1] == "from" && Tail(FROM_01) == "=01";
    assert query == "from=01";
    From01Fields(query);
    var line := PrintLine(Line("series", [field]));
    assert BuildSeries(query) == Value(line);
    SeriesReadsBack(query, line, {1}, [field]);
    assert LeadingZero([field][0]);
  }
}
