/** JSON values, their one serialization, and a reader for it. */
module Json {
  import opened Framing
  import opened Number

  datatype Value =
    | Null
    | Bool(b: bool)
    | Num(text: Text)
    | Str(s: Text)
    | Arr(items: seq<Value>)
    | Obj(fields: seq<Field>)

  datatype Field = Field(key: Text, value: Value)

  // ------------------------------------------------------------------ strings

  predicate Ascii(s: string) { forall i :: 0 <= i < |s| ==> s[i] < 0x80 as char }

  function HexChar(n: nat): char
    requires n < 16
  {
    "0123456789abcdef"[n]
  }

  /** How put_quoted writes one ASCII character. */
  function Escape(c: char): (e: string)
    ensures e != "" && e[0] != '"'
  {
    if c == '"' then "\\\"" else if c == '\\' then "\\\\"
    else if c == 8 as char then "\\b" else if c == 12 as char then "\\f"
    else if c == '\n' then "\\n" else if c == '\r' then "\\r" else if c == '\t' then "\\t"
    else if c < ' ' || c == 0x7F as char then "\\u00" + [HexChar(c as int / 16), HexChar(c as int % 16)]
    else [c]
  }

  function Escaped(s: string): string {
    if s == "" then "" else Escaped(s[..|s| - 1]) + Escape(s[|s| - 1])
  }

  function Quoted(s: string): string { "\"" + Escaped(s) + "\"" }

  // ------------------------------------------------------------------ the serialization

  function Show(v: Value): string
    decreases v
  {
    match v
    case Null => "null"
    case Bool(b) => if b then "true" else "false"
    case Num(text) => text
    case Str(s) => Quoted(s)
    case Arr(items) => "[" + ShowItems(items) + "]"
    case Obj(fields) => "{" + ShowFields(fields) + "}"
  }

  function Comma<T>(before: seq<T>): string { if before == [] then "" else "," }

  function ShowItems(items: seq<Value>): string
    decreases items
  {
    if items == [] then "" else
    var init := items[..|items| - 1];
    ShowItems(init) + Comma(init) + Show(items[|items| - 1])
  }

  function ShowFields(fields: seq<Field>): string
    decreases fields
  {
    if fields == [] then "" else
    var init := fields[..|fields| - 1];
    ShowFields(init) + Comma(init) + ShowField(fields[|fields| - 1])
  }

  function ShowField(f: Field): string
    decreases f
  {
    Quoted(f.key) + ":" + Show(f.value)
  }

  /** ASCII strings and keys, and numbers of the grammar. */
  ghost predicate Writable(v: Value)
    decreases v
  {
    match v
    case Null => true
    case Bool(_) => true
    case Num(text) => IsNumber(text)
    case Str(s) => Ascii(s)
    case Arr(items) => forall i :: 0 <= i < |items| ==> Writable(items[i])
    case Obj(fields) => forall i :: 0 <= i < |fields| ==> Ascii(fields[i].key) && Writable(fields[i].value)
  }

  function Max(a: nat, b: nat): nat { if a < b then b else a }

  /** How deep its containers nest. */
  function Depth(v: Value): nat
    decreases v
  {
    match v
    case Arr(items) => 1 + DepthItems(items)
    case Obj(fields) => 1 + DepthFields(fields)
    case _ => 0
  }

  function DepthItems(items: seq<Value>): nat
    decreases items
  {
    if items == [] then 0 else Max(DepthItems(items[..|items| - 1]), Depth(items[|items| - 1]))
  }

  function DepthFields(fields: seq<Field>): nat
    decreases fields
  {
    if fields == [] then 0 else Max(DepthFields(fields[..|fields| - 1]), Depth(fields[|fields| - 1].value))
  }

  // ------------------------------------------------------------------ reading it back

  function HexDigit(c: char): Option<nat> {
    if '0' <= c <= '9' then Some(c as int - '0' as int)
    else if 'a' <= c <= 'f' then Some(c as int - 'a' as int + 10)
    else if 'A' <= c <= 'F' then Some(c as int - 'A' as int + 10)
    else None
  }

  /** The character an escape stands for, and how long the escape is. */
  function Unescape(t: string): (r: Option<(char, nat)>)
    ensures r.Some? ==> 0 < r.value.1 <= |t|
  {
    if t == "" || t[0] == '"' then None
    else if t[0] != '\\' then Some((t[0], 1))
    else if |t| < 2 then None
    else if t[1] == '"' || t[1] == '\\' || t[1] == '/' then Some((t[1], 2))
    else if t[1] == 'b' then Some((8 as char, 2)) else if t[1] == 'f' then Some((12 as char, 2))
    else if t[1] == 'n' then Some(('\n', 2)) else if t[1] == 'r' then Some(('\r', 2)) else if t[1] == 't' then Some(('\t', 2))
    else if t[1] == 'u' && |t| >= 6 && t[2] == '0' && t[3] == '0' then
      match (HexDigit(t[4]), HexDigit(t[5]))
      case (Some(h), Some(l)) => if h < 8 && h + l > 0 then Some(((16 * h + l) as char, 6)) else None
      case _ => None
    else None
  }

  /** A string's contents up to its closing quote, and what follows the quote. */
  function ReadChars(t: string): Option<(string, string)>
    decreases |t|
  {
    if t != "" && t[0] == '"' then Some(("", t[1..])) else
    match Unescape(t)
    case None => None
    case Some((c, n)) =>
      match ReadChars(t[n..])
      case None => None
      case Some((s, rest)) => if c == '\0' then None else Some(([c] + s, rest))
  }

  function ReadString(t: string): (r: Option<(Text, string)>)
    ensures r.Some? ==> |r.value.1| < |t|
  {
    if At(t, 0) != '"' then None else
    match ReadChars(t[1..])
    case None => None
    case Some((s, rest)) =>
      if |rest| < |t| && (forall i :: 0 <= i < |s| ==> s[i] != '\0') then Some((s, rest)) else None
  }

  predicate StartsWith(t: string, p: string) { p <= t }

  /** One value at the front of t, and what follows it. */
  function ReadValue(t: string): (r: Option<(Value, string)>)
    ensures r.Some? ==> |r.value.1| < |t|
    decreases |t|, 1
  {
    if StartsWith(t, "null") then Some((Null, t[4..]))
    else if StartsWith(t, "true") then Some((Bool(true), t[4..]))
    else if StartsWith(t, "false") then Some((Bool(false), t[5..]))
    else if At(t, 0) == '"' then
      match ReadString(t)
      case None => None
      case Some((s, rest)) => Some((Str(s), rest))
    else if At(t, 0) == '[' then
      if At(t, 1) == ']' then Some((Arr([]), t[2..])) else
      match ReadItems(t[1..])
      case None => None
      case Some((items, rest)) => Some((Arr(items), rest))
    else if At(t, 0) == '{' then
      if At(t, 1) == '}' then Some((Obj([]), t[2..])) else
      match ReadFields(t[1..])
      case None => None
      case Some((fields, rest)) => Some((Obj(fields), rest))
    else
      match NumberEnd(t)
      case None => None
      case Some(n) => if forall i :: 0 <= i < n ==> t[i] != '\0' then Some((Num(t[..n]), t[n..])) else None
  }

  /** One or more values, separated by commas, up to the bracket. */
  function ReadItems(t: string): (r: Option<(seq<Value>, string)>)
    ensures r.Some? ==> |r.value.1| < |t|
    decreases |t|, 2
  {
    match ReadValue(t)
    case None => None
    case Some((v, rest)) =>
      if At(rest, 0) == ']' then Some(([v], rest[1..]))
      else if At(rest, 0) != ',' then None
      else match ReadItems(rest[1..])
           case None => None
           case Some((items, after)) => Some(([v] + items, after))
  }

  function ReadField(t: string): (r: Option<(Field, string)>)
    ensures r.Some? ==> |r.value.1| < |t|
    decreases |t|, 2
  {
    match ReadString(t)
    case None => None
    case Some((key, rest)) =>
      if At(rest, 0) != ':' then None else
      match ReadValue(rest[1..])
      case None => None
      case Some((v, after)) => Some((Field(key, v), after))
  }

  function ReadFields(t: string): (r: Option<(seq<Field>, string)>)
    ensures r.Some? ==> |r.value.1| < |t|
    decreases |t|, 3
  {
    match ReadField(t)
    case None => None
    case Some((f, rest)) =>
      if At(rest, 0) == '}' then Some(([f], rest[1..]))
      else if At(rest, 0) != ',' then None
      else match ReadFields(rest[1..])
           case None => None
           case Some((fields, after)) => Some(([f] + fields, after))
  }

  function Read(t: string): Option<Value> {
    match ReadValue(t)
    case None => None
    case Some((v, rest)) => if rest == "" then Some(v) else None
  }

  // ------------------------------------------------------------------ the reader inverts the serialization

  lemma UnescapeEscape(c: char, rest: string)
    requires c < 0x80 as char && c != '\0'
    ensures Unescape(Escape(c) + rest) == Some((c, |Escape(c)|))
  {}

  lemma {:induction false} EscapedFront(s: string)
    requires s != ""
    ensures Escaped(s) == Escape(s[0]) + Escaped(s[1..])
  {
    if |s| > 1 {
      EscapedFront(s[..|s| - 1]);
      assert s[..|s| - 1][1..] == s[1..][..|s| - 2];
    } else {
      assert s[..0] == "" && s[1..] == "";
    }
  }

  lemma ReadsChar(e: string, c: char, tail: string, s: string, rest: string)
    requires e != "" && e[0] != '"' && Unescape(e + tail) == Some((c, |e|)) && c != '\0' && ReadChars(tail) == Some((s, rest))
    ensures ReadChars(e + tail) == Some(([c] + s, rest))
  {
    assert (e + tail)[|e|..] == tail && (e + tail)[0] == e[0];
  }

  lemma {:induction false} ReadCharsOf(s: Text, rest: string)
    requires Ascii(s)
    ensures ReadChars(Escaped(s) + (['"'] + rest)) == Some((s, rest))
  {
    var close := ['"'] + rest;
    if s == "" {
      assert Escaped(s) + close == close && close[1..] == rest;
    } else {
      EscapedFront(s);
      var tail := Escaped(s[1..]) + close;
      assert (Escape(s[0]) + Escaped(s[1..])) + close == Escape(s[0]) + tail;
      UnescapeEscape(s[0], tail);
      ReadCharsOf(s[1..], rest);
      ReadsChar(Escape(s[0]), s[0], tail, s[1..], rest);
      assert [s[0]] + s[1..] == s;
    }
  }

  lemma ReadStringOf(s: Text, rest: string)
    requires Ascii(s)
    ensures ReadString(Quoted(s) + rest) == Some((s, rest))
  {
    var t := Quoted(s) + rest;
    assert t[1..] == Escaped(s) + (['"'] + rest);
    ReadCharsOf(s, rest);
  }

  /** Two ways to build a list of shown items: x first, or l last. */
  lemma CommasAgree(x: string, m: string, l: string, one: bool)
    requires one ==> m == ""
    ensures var c := if one then "" else ",";
            (x + c + m) + "," + l == x + "," + (m + c + l)
  {}

  lemma {:induction false} ShowItemsFront(items: seq<Value>)
    requires items != []
    ensures ShowItems(items) == Show(items[0]) + Comma(items[1..]) + ShowItems(items[1..])
  {
    if |items| == 1 {
      assert items[..0] == [] && items[1..] == [];
    } else {
      var init, last, rest := items[..|items| - 1], items[|items| - 1], items[1..];
      var mid := init[1..];
      ShowItemsFront(init);
      assert rest[..|rest| - 1] == mid && rest[|rest| - 1] == last && init[0] == items[0];
      CommasAgree(Show(items[0]), ShowItems(mid), Show(last), mid == []);
    }
  }

  lemma {:induction false} ShowFieldsFront(fields: seq<Field>)
    requires fields != []
    ensures ShowFields(fields) == ShowField(fields[0]) + Comma(fields[1..]) + ShowFields(fields[1..])
  {
    if |fields| == 1 {
      assert fields[..0] == [] && fields[1..] == [];
    } else {
      var init, last, rest := fields[..|fields| - 1], fields[|fields| - 1], fields[1..];
      var mid := init[1..];
      ShowFieldsFront(init);
      assert rest[..|rest| - 1] == mid && rest[|rest| - 1] == last && init[0] == fields[0];
      CommasAgree(ShowField(fields[0]), ShowFields(mid), ShowField(last), mid == []);
    }
  }

  lemma FrontAndRest<T>(s: seq<T>)
    requires s != []
    ensures [s[0]] + s[1..] == s
  {}

  /** What follows a list's first element: its end, or a comma and the rest. */
  function TailOf(last: bool, close: char, others: string, rest: string): string {
    if last then [close] + rest else [','] + others
  }

  lemma TailFacts(last: bool, close: char, others: string, rest: string, tail: string)
    requires tail == TailOf(last, close, others, rest)
    ensures At(tail, 0) == if last then close else ','
    ensures tail[1..] == if last then rest else others
  {}

  lemma TailText(one: string, c: string, m: string, close: char, rest: string, last: bool, all: string)
    requires c == (if last then "" else [',']) && (last ==> m == "") && all == one + c + m
    ensures all + [close] + rest == one + TailOf(last, close, m + [close] + rest, rest)
  {}

  /** Numbers begin with a minus sign or a digit. */
  lemma NumberStarts(t: string)
    requires IsNumber(t)
    ensures t != "" && (t[0] == '-' || IsDigit(t[0]))
  {
    var i: nat, j: nat, k: nat :| Parts(t, i, j, k);
    IntNotSigned(t, i, j);
    if i == 0 { assert t[0] == t[0..j][0]; }
  }

  /** How a shown value begins: never with what ends a container. */
  lemma ShowStarts(v: Value)
    requires Writable(v)
    ensures Show(v) != "" && Show(v)[0] != ']' && Show(v)[0] != '}'
  {
    if v.Num? { NumberStarts(v.text); }
  }

  lemma ReadNumber(t: Text, rest: string)
    requires IsNumber(t) && Stops(At(rest, 0))
    ensures ReadValue(t + rest) == Some((Num(t), rest))
  {
    var s := t + rest;
    NumberStarts(t);
    NumberScans(t, rest);
    assert s[0] == t[0] && s[..|t|] == t && s[|t|..] == rest;
    assert forall i :: 0 <= i < |t| ==> s[i] == t[i] && s[i] != '\0';
    assert At(s, 0) == t[0] && NumberEnd(s) == Some(|t|);
    assert "null"[0] == 'n' && "true"[0] == 't' && "false"[0] == 'f';
  }

  lemma ReadWords(rest: string)
    ensures ReadValue("null" + rest) == Some((Null, rest)) && ReadValue("true" + rest) == Some((Bool(true), rest))
    ensures ReadValue("false" + rest) == Some((Bool(false), rest))
  {
    var n, t, f := "null" + rest, "true" + rest, "false" + rest;
    assert n[..4] == "null" && t[..4] == "true" && f[..5] == "false";
    assert n[4..] == rest && t[4..] == rest && f[5..] == rest;
    assert "null"[0] == 'n' && "true"[0] == 't' && t[0] == 't' && f[0] == 'f';
  }

  lemma ReadsArr(t: string, items: seq<Value>, rest: string)
    requires At(t, 0) == '[' && At(t, 1) != ']' && ReadItems(t[1..]) == Some((items, rest))
    ensures ReadValue(t) == Some((Arr(items), rest))
  {
    assert "null"[0] == 'n' && "true"[0] == 't' && "false"[0] == 'f';
  }

  lemma ReadsObj(t: string, fields: seq<Field>, rest: string)
    requires At(t, 0) == '{' && At(t, 1) != '}' && ReadFields(t[1..]) == Some((fields, rest))
    ensures ReadValue(t) == Some((Obj(fields), rest))
  {
    assert "null"[0] == 'n' && "true"[0] == 't' && "false"[0] == 'f';
  }

  lemma ReadsEmpty(rest: string)
    ensures ReadValue("[]" + rest) == Some((Arr([]), rest)) && ReadValue("{}" + rest) == Some((Obj([]), rest))
  {
    assert "null"[0] == 'n' && "true"[0] == 't' && "false"[0] == 'f';
    assert ("[]" + rest)[2..] == rest && ("{}" + rest)[2..] == rest;
  }

  /** Reading back what was shown gives the value, whatever follows that cannot continue a number. */
  lemma {:induction false} ReadShow(v: Value, rest: string)
    requires Writable(v) && Stops(At(rest, 0))
    ensures ReadValue(Show(v) + rest) == Some((v, rest))
    decreases v, 1
  {
    var t := Show(v) + rest;
    match v
    case Null => ReadWords(rest);
    case Bool(b) => ReadWords(rest);
    case Num(text) => ReadNumber(text, rest);
    case Str(s) => ReadStringOf(s, rest);
    case Arr(items) => ReadShowArr(items, rest);
    case Obj(fields) => ReadShowObj(fields, rest);
  }

  lemma ArrText(items: seq<Value>, rest: string, t: string)
    requires items != [] && Writable(items[0]) && t == Show(Arr(items)) + rest
    ensures t[1..] == ShowItems(items) + "]" + rest && At(t, 0) == '[' && At(t, 1) != ']'
  {
    ShowItemsFront(items);
    ShowStarts(items[0]);
    assert t[1] == Show(items[0])[0];
  }

  lemma {:induction false} ReadShowArr(items: seq<Value>, rest: string)
    requires Writable(Arr(items)) && Stops(At(rest, 0))
    ensures ReadValue(Show(Arr(items)) + rest) == Some((Arr(items), rest))
    decreases items, 2
  {
    var t := Show(Arr(items)) + rest;
    if items == [] {
      ReadsEmpty(rest);
      assert t == "[]" + rest;
    } else {
      ArrText(items, rest, t);
      ReadShowItems(items, rest);
      ReadsArr(t, items, rest);
    }
  }

  lemma ItemsText(items: seq<Value>, rest: string, more: seq<Value>, tail: string)
    requires items != [] && more == items[1..]
    requires tail == TailOf(more == [], ']', ShowItems(more) + "]" + rest, rest)
    ensures ShowItems(items) + "]" + rest == Show(items[0]) + tail
  {
    ShowItemsFront(items);
    TailText(Show(items[0]), Comma(more), ShowItems(more), ']', rest, more == [], ShowItems(items));
  }

  lemma ReadsItems(t: string, v: Value, tail: string, more: seq<Value>, rest: string)
    requires ReadValue(t) == Some((v, tail))
    requires if more == [] then At(tail, 0) == ']' && tail[1..] == rest
             else At(tail, 0) == ',' && ReadItems(tail[1..]) == Some((more, rest))
    ensures ReadItems(t) == Some(([v] + more, rest))
  {
    assert more == [] ==> [v] + more == [v];
  }

  lemma {:induction false} ReadShowItems(items: seq<Value>, rest: string)
    requires items != [] && (forall i :: 0 <= i < |items| ==> Writable(items[i])) && Stops(At(rest, 0))
    ensures ReadItems(ShowItems(items) + "]" + rest) == Some((items, rest))
    decreases items, 1
  {
    var v, more := items[0], items[1..];
    var others := ShowItems(more) + "]" + rest;
    var tail := TailOf(more == [], ']', others, rest);
    ItemsText(items, rest, more, tail);
    TailFacts(more == [], ']', others, rest, tail);
    ReadShow(v, tail);
    if more != [] { ReadShowItems(more, rest); }
    ReadsItems(Show(v) + tail, v, tail, more, rest);
    FrontAndRest(items);
  }

  lemma InBrackets(o: string, inner: string, c: string, rest: string, t: string)
    requires |o| == 1 && inner != "" && t == o + inner + c + rest
    ensures t[1..] == inner + c + rest && At(t, 0) == o[0] && At(t, 1) == inner[0]
  {}

  lemma FieldStarts(f: Field)
    ensures ShowField(f) != "" && ShowField(f)[0] == '"'
  {
    FrontChar("\"", Escaped(f.key) + "\"" + ":" + Show(f.value), ShowField(f));
  }

  lemma FrontChar(a: string, b: string, s: string)
    requires a != "" && s == a + b
    ensures s != "" && s[0] == a[0]
  {}

  lemma FieldsStart(fields: seq<Field>)
    requires fields != []
    ensures ShowFields(fields) != "" && ShowFields(fields)[0] == '"'
  {
    ShowFieldsFront(fields);
    FieldStarts(fields[0]);
    var more := fields[1..];
    assert ShowField(fields[0]) + Comma(more) + ShowFields(more) == ShowField(fields[0]) + (Comma(more) + ShowFields(more));
    FrontChar(ShowField(fields[0]), Comma(more) + ShowFields(more), ShowFields(fields));
  }

  lemma ObjText(fields: seq<Field>, rest: string, t: string)
    requires fields != [] && t == Show(Obj(fields)) + rest
    ensures t[1..] == ShowFields(fields) + "}" + rest && At(t, 0) == '{' && At(t, 1) != '}'
  {
    FieldsStart(fields);
    InBrackets("{", ShowFields(fields), "}", rest, t);
  }

  lemma {:induction false} ReadShowObj(fields: seq<Field>, rest: string)
    requires Writable(Obj(fields)) && Stops(At(rest, 0))
    ensures ReadValue(Show(Obj(fields)) + rest) == Some((Obj(fields), rest))
    decreases fields, 2
  {
    var t := Show(Obj(fields)) + rest;
    if fields == [] {
      ReadsEmpty(rest);
      assert t == "{}" + rest;
    } else {
      ObjText(fields, rest, t);
      ReadShowFields(fields, rest);
      ReadsObj(t, fields, rest);
    }
  }

  lemma {:induction false} ReadShowField(f: Field, rest: string)
    requires Ascii(f.key) && Writable(f.value) && Stops(At(rest, 0))
    ensures ReadField(ShowField(f) + rest) == Some((f, rest))
    decreases f, 0
  {
    var key, shown := Quoted(f.key), Show(f.value);
    var after := ":" + shown + rest;
    assert after[1..] == shown + rest;
    assert (key + ":" + shown) + rest == key + after;
    ReadStringOf(f.key, after);
    ReadShow(f.value, rest);
  }

  lemma FieldsText(fields: seq<Field>, rest: string, more: seq<Field>, tail: string)
    requires fields != [] && more == fields[1..]
    requires tail == TailOf(more == [], '}', ShowFields(more) + "}" + rest, rest)
    ensures ShowFields(fields) + "}" + rest == ShowField(fields[0]) + tail
  {
    ShowFieldsFront(fields);
    TailText(ShowField(fields[0]), Comma(more), ShowFields(more), '}', rest, more == [], ShowFields(fields));
  }

  lemma ReadsFields(t: string, f: Field, tail: string, more: seq<Field>, rest: string)
    requires ReadField(t) == Some((f, tail))
    requires if more == [] then At(tail, 0) == '}' && tail[1..] == rest
             else At(tail, 0) == ',' && ReadFields(tail[1..]) == Some((more, rest))
    ensures ReadFields(t) == Some(([f] + more, rest))
  {
    assert more == [] ==> [f] + more == [f];
  }

  lemma {:induction false} ReadShowFields(fields: seq<Field>, rest: string)
    requires fields != [] && Stops(At(rest, 0))
    requires forall i :: 0 <= i < |fields| ==> Ascii(fields[i].key) && Writable(fields[i].value)
    ensures ReadFields(ShowFields(fields) + "}" + rest) == Some((fields, rest))
    decreases fields, 1
  {
    var f, more := fields[0], fields[1..];
    var others := ShowFields(more) + "}" + rest;
    var tail := TailOf(more == [], '}', others, rest);
    FieldsText(fields, rest, more, tail);
    TailFacts(more == [], '}', others, rest, tail);
    ReadShowField(f, tail);
    if more != [] { ReadShowFields(more, rest); }
    ReadsFields(ShowField(f) + tail, f, tail, more, rest);
    FrontAndRest(fields);
  }

  /** Different values have different texts, and the reader tells which. */
  lemma ReadOfShow(v: Value)
    requires Writable(v)
    ensures Read(Show(v)) == Some(v)
  {
    ReadShow(v, "");
    assert Show(v) + "" == Show(v);
  }
}
