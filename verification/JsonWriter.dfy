/** statusd's streaming JSON writer: what its calls describe, what it writes, and exactly when it
    succeeds. */
module JsonWriter {
  import opened Framing
  import opened Number
  import opened Json

  const MAX_DEPTH := 8

  datatype Call =
    | Begin(obj: bool)
    | End(obj: bool)
    | Key(key: Text)
    | String(s: Text)
    | Integer(v: int)          // json_int, json_uint
    | Boolean(b: bool)
    | JsonNull
    | Numeral(text: Text)      // json_number

  // ------------------------------------------------------------------ what calls describe

  /** A container that is open: its items so far, and an object's key that awaits its value. */
  datatype Frame = InArr(items: seq<Value>) | InObj(fields: seq<Field>, key: Option<Text>)

  /** A document under construction: the open containers, outermost first, or the finished value. */
  datatype Doc = Doc(frames: seq<Frame>, result: Option<Value>)

  const EMPTY := Doc([], None)

  predicate CanPlace(d: Doc) {
    if d.frames == [] then d.result.None? else
    var top := d.frames[|d.frames| - 1];
    top.InArr? || top.key.Some?
  }

  function PlaceIn(top: Frame, v: Value): Frame
    requires top.InObj? ==> top.key.Some?
  {
    match top
    case InArr(items) => InArr(items + [v])
    case InObj(fields, key) => InObj(fields + [Field(key.value, v)], None)
  }

  function Place(d: Doc, v: Value): Doc
    requires CanPlace(d)
  {
    if d.frames == [] then Doc([], Some(v)) else
    var n := |d.frames| - 1;
    d.(frames := d.frames[..n] + [PlaceIn(d.frames[n], v)])
  }

  function Closed(top: Frame): Value {
    match top
    case InArr(items) => Arr(items)
    case InObj(fields, _) => Obj(fields)
  }

  predicate CanEnd(d: Doc, obj: bool) {
    d.frames != [] &&
    var top := d.frames[|d.frames| - 1];
    top.InObj? == obj && (top.InObj? ==> top.key.None?) && CanPlace(d.(frames := d.frames[..|d.frames| - 1]))
  }

  /** The value a scalar call stands for. */
  function Scalar(c: Call): Option<Value> {
    match c
    case String(s) => Some(Str(s))
    case Integer(v) => Some(Num(IntText(v)))
    case Boolean(b) => Some(Bool(b))
    case JsonNull => Some(Null)
    case Numeral(text) => Some(Num(text))
    case _ => None
  }

  function IntText(v: int): Text {
    var s := ShowInt(v);
    if forall i :: 0 <= i < |s| ==> s[i] != '\0' then s else ""
  }

  /** What one more call makes of the document; nothing if it is out of order. */
  function Build(d: Doc, c: Call): Option<Doc> {
    match c
    case Begin(obj) =>
      if CanPlace(d) then Some(d.(frames := d.frames + [if obj then InObj([], None) else InArr([])])) else None
    case End(obj) =>
      if CanEnd(d, obj) then
        Some(Place(d.(frames := d.frames[..|d.frames| - 1]), Closed(d.frames[|d.frames| - 1])))
      else None
    case Key(k) =>
      if d.frames != [] && d.frames[|d.frames| - 1].InObj? && d.frames[|d.frames| - 1].key.None? then
        var n := |d.frames| - 1;
        Some(d.(frames := d.frames[..n] + [d.frames[n].(key := Some(k))]))
      else None
    case _ => if CanPlace(d) && Scalar(c).Some? then Some(Place(d, Scalar(c).value)) else None
  }

  function BuildAll(d: Doc, calls: seq<Call>): Option<Doc>
    decreases |calls|
  {
    if calls == [] then Some(d) else
    match Build(d, calls[0])
    case None => None
    case Some(next) => BuildAll(next, calls[1..])
  }

  // ------------------------------------------------------------------ the text of a document under construction

  /** An open container's text so far. */
  function Body(top: Frame): string {
    match top
    case InArr(items) => "[" + ShowItems(items)
    case InObj(fields, None) => "{" + ShowFields(fields)
    case InObj(fields, Some(k)) => "{" + ShowFields(fields) + Comma(fields) + Quoted(k) + ":"
  }

  /** Its text once the next value has begun. */
  function Lead(top: Frame): string {
    match top
    case InArr(items) => Body(top) + Comma(items)
    case InObj(_, _) => Body(top)
  }

  function Leads(frames: seq<Frame>): string {
    if frames == [] then "" else Leads(frames[..|frames| - 1]) + Lead(frames[|frames| - 1])
  }

  function TextOf(d: Doc): string {
    if d.frames != [] then Leads(d.frames[..|d.frames| - 1]) + Body(d.frames[|d.frames| - 1])
    else match d.result case None => "" case Some(v) => Show(v)
  }

  lemma Assoc(a: string, b: string, c: string, d: string, e: string, f: string)
    ensures a + (b + c + (d + e + f)) == (a + b + c + d + e) + f
    ensures a + (b + c + f) == (a + b) + c + f
  {}

  lemma ItemsSnoc(items: seq<Value>, v: Value)
    ensures ShowItems(items + [v]) == ShowItems(items) + Comma(items) + Show(v)
  {
    assert (items + [v])[..|items|] == items;
  }

  lemma FieldsSnoc(fields: seq<Field>, f: Field)
    ensures ShowFields(fields + [f]) == ShowFields(fields) + Comma(fields) + ShowField(f)
  {
    assert (fields + [f])[..|fields|] == fields;
  }

  lemma BodyOfPlaced(top: Frame, v: Value)
    requires top.InObj? ==> top.key.Some?
    ensures Body(PlaceIn(top, v)) == Lead(top) + Show(v)
  {
    match top
    case InArr(items) =>
      ItemsSnoc(items, v);
      Assoc("[", ShowItems(items), Comma(items), "", "", Show(v));
    case InObj(fields, key) =>
      FieldsSnoc(fields, Field(key.value, v));
      Assoc("{", ShowFields(fields), Comma(fields), Quoted(key.value), ":", Show(v));
  }

  lemma SnocEnds<T>(all: seq<T>, init: seq<T>, last: T)
    requires all == init + [last]
    ensures all != [] && all[..|all| - 1] == init && all[|all| - 1] == last
  {}

  lemma SplitsLast<T>(all: seq<T>, init: seq<T>, last: T)
    requires all != [] && init == all[..|all| - 1] && last == all[|all| - 1]
    ensures all == init + [last]
  {}

  lemma TextOfSnoc(d: Doc, outer: seq<Frame>, top: Frame)
    requires d.frames == outer + [top]
    ensures TextOf(d) == Leads(outer) + Body(top) && Leads(d.frames) == Leads(outer) + Lead(top)
  {
    SnocEnds(d.frames, outer, top);
  }

  lemma Assoc2(a: string, b: string, c: string)
    ensures a + (b + c) == a + b + c
  {}

  /** Placing a value appends the separator and the value's text. */
  lemma TextOfPlaced(d: Doc, v: Value)
    requires CanPlace(d)
    ensures TextOf(Place(d, v)) == Leads(d.frames) + Show(v)
  {
    if d.frames != [] {
      var outer, top := d.frames[..|d.frames| - 1], d.frames[|d.frames| - 1];
      SplitsLast(d.frames, outer, top);
      TextOfSnoc(d, outer, top);
      TextOfSnoc(Place(d, v), outer, PlaceIn(top, v));
      BodyOfPlaced(top, v);
      Assoc2(Leads(outer), Lead(top), Show(v));
    }
  }

  lemma LeadsExtendText(d: Doc)
    requires CanPlace(d)
    ensures TextOf(d) <= Leads(d.frames)
  {}

  // ------------------------------------------------------------------ the writer

  /** One entry of the writer's stack. */
  datatype Open = Open(obj: bool, hasItem: bool)

  /** json_t, by what it has written. Failed is for ever. */
  datatype Writer = Failed | Writing(out: string, stack: seq<Open>, afterKey: bool, done: bool)

  function Init(cap: nat): Writer { if cap == 0 then Failed else Writing("", [], false, false) }

  /** put: room must remain for the NUL. */
  function Put(w: Writer, cap: nat, s: string): Writer {
    match w
    case Failed => Failed
    case Writing(out, stack, afterKey, done) =>
      if |out| + |s| < cap then Writing(out + s, stack, afterKey, done) else Failed
  }

  /** begin_value. */
  function BeginValue(w: Writer, cap: nat): Writer {
    match w
    case Failed => Failed
    case Writing(out, stack, afterKey, done) =>
      if stack == [] then (if done then Failed else w) else
      var n := |stack| - 1;
      if stack[n].obj then (if afterKey then Writing(out, stack, false, done) else Failed) else
      Put(Writing(out, stack[n := Open(false, true)], afterKey, done), cap, if stack[n].hasItem then "," else "")
  }

  function EndValue(w: Writer): Writer {
    match w
    case Failed => Failed
    case Writing(out, stack, afterKey, done) => Writing(out, stack, afterKey, done || stack == [])
  }

  function PutQuoted(w: Writer, cap: nat, s: Text): Writer { if Ascii(s) then Put(w, cap, Quoted(s)) else Failed }

  function PutScalar(w: Writer, cap: nat, text: string): Writer { EndValue(Put(BeginValue(w, cap), cap, text)) }

  function BeginContainer(w: Writer, cap: nat, obj: bool): Writer {
    match BeginValue(w, cap)
    case Failed => Failed
    case Writing(out, stack, afterKey, done) =>
      if |stack| >= MAX_DEPTH then Failed else
      Put(Writing(out, stack + [Open(obj, false)], afterKey, done), cap, if obj then "{" else "[")
  }

  function EndContainer(w: Writer, cap: nat, obj: bool): Writer {
    match w
    case Failed => Failed
    case Writing(out, stack, afterKey, done) =>
      if stack == [] || stack[|stack| - 1].obj != obj || afterKey then Failed else
      EndValue(Put(Writing(out, stack[..|stack| - 1], afterKey, done), cap, if obj then "}" else "]"))
  }

  function WriteKey(w: Writer, cap: nat, key: Text): Writer {
    match w
    case Failed => Failed
    case Writing(out, stack, afterKey, done) =>
      if stack == [] || !stack[|stack| - 1].obj || afterKey then Failed else
      var n := |stack| - 1;
      var comma := Put(Writing(out, stack[n := Open(true, true)], false, done), cap, if stack[n].hasItem then "," else "");
      match Put(PutQuoted(comma, cap, key), cap, ":")
      case Failed => Failed
      case Writing(out', stack', _, done') => Writing(out', stack', true, done')
  }

  /** One call on the writer. */
  function Do(w: Writer, cap: nat, c: Call): Writer {
    match c
    case Begin(obj) => BeginContainer(w, cap, obj)
    case End(obj) => EndContainer(w, cap, obj)
    case Key(k) => WriteKey(w, cap, k)
    case String(s) => EndValue(PutQuoted(BeginValue(w, cap), cap, s))
    case Integer(v) => PutScalar(w, cap, IntText(v))
    case Boolean(b) => PutScalar(w, cap, if b then "true" else "false")
    case JsonNull => PutScalar(w, cap, "null")
    case Numeral(text) => if NumberEnd(text) == Some(|text|) then PutScalar(w, cap, text) else Failed
  }

  function DoAll(w: Writer, cap: nat, calls: seq<Call>): Writer
    decreases |calls|
  {
    if calls == [] then w else DoAll(Do(w, cap, calls[0]), cap, calls[1..])
  }

  /** json_finish: the document's length, or -1. */
  function Finish(w: Writer): int {
    match w
    case Failed => -1
    case Writing(out, stack, _, done) => if stack == [] && done then |out| else -1
  }

  // ------------------------------------------------------------------ what the writer holds is what its calls describe

  predicate HasItem(f: Frame, inner: bool) {
    match f
    case InArr(items) => inner || items != []
    case InObj(fields, key) => fields != [] || key.Some?
  }

  /** The stack mirrors the open containers; inner ones, and if begun the last, hold an item. */
  ghost predicate RepStack(stack: seq<Open>, frames: seq<Frame>, begun: bool) {
    |stack| == |frames| &&
    forall i :: 0 <= i < |stack| ==> stack[i] == Open(frames[i].InObj?, HasItem(frames[i], begun || i < |frames| - 1))
  }

  ghost predicate DocOk(d: Doc) {
    && (d.frames != [] ==> d.result.None?)
    && forall i :: 0 <= i < |d.frames| - 1 && d.frames[i].InObj? ==> d.frames[i].key.Some?
  }

  predicate AwaitsValue(d: Doc) {
    d.frames != [] && d.frames[|d.frames| - 1].InObj? && d.frames[|d.frames| - 1].key.Some?
  }

  ghost predicate Rep(w: Writer, cap: nat, d: Doc) {
    && w.Writing? && DocOk(d) && |w.out| < cap && |w.stack| <= MAX_DEPTH
    && w.out == TextOf(d) && RepStack(w.stack, d.frames, false) && w.afterKey == AwaitsValue(d) && w.done == d.result.Some?
  }

  /** begin_value has succeeded: the separator is out and the enclosing container holds an item. */
  ghost predicate Begun(w: Writer, cap: nat, d: Doc) {
    && w.Writing? && DocOk(d) && CanPlace(d) && |w.out| < cap && |w.stack| <= MAX_DEPTH
    && w.out == Leads(d.frames) && RepStack(w.stack, d.frames, true) && !w.afterKey && !w.done
  }

  lemma LeadsIs(d: Doc)
    requires d.frames != []
    ensures Leads(d.frames) == Leads(d.frames[..|d.frames| - 1]) + Lead(d.frames[|d.frames| - 1])
    ensures Leads(d.frames) == TextOf(d) + match d.frames[|d.frames| - 1] case InArr(items) => Comma(items) case InObj(_, _) => ""
  {}

  lemma BeganStack(stack: seq<Open>, frames: seq<Frame>, n: nat)
    requires RepStack(stack, frames, false) && n + 1 == |stack|
    ensures frames[n].InArr? ==> RepStack(stack[n := Open(false, true)], frames, true)
    ensures frames[n].InObj? && frames[n].key.Some? ==> RepStack(stack, frames, true)
  {}

  lemma BeginFromArr(w: Writer, cap: nat, comma: string)
    requires w.Writing? && w.stack != [] && !w.stack[|w.stack| - 1].obj
    requires comma == if w.stack[|w.stack| - 1].hasItem then "," else ""
    ensures BeginValue(w, cap) == if |w.out| + |comma| < cap
                                  then Writing(w.out + comma, w.stack[|w.stack| - 1 := Open(false, true)], w.afterKey, w.done)
                                  else Failed
  {}

  lemma BeginValueInArr(w: Writer, cap: nat, d: Doc)
    requires Rep(w, cap, d) && d.frames != [] && d.frames[|d.frames| - 1].InArr?
    ensures BeginValue(w, cap).Writing? <==> |Leads(d.frames)| < cap
    ensures BeginValue(w, cap).Writing? ==> Begun(BeginValue(w, cap), cap, d)
  {
    var comma := Comma(d.frames[|d.frames| - 1].items);
    LeadsIs(d);
    BeginFromArr(w, cap, comma);
    BeganStack(w.stack, d.frames, |d.frames| - 1);
  }

  lemma BeginFromObj(w: Writer, cap: nat)
    requires w.Writing? && w.stack != [] && w.stack[|w.stack| - 1].obj
    ensures BeginValue(w, cap) == if w.afterKey then Writing(w.out, w.stack, false, w.done) else Failed
  {}

  lemma KeyIsPlace(d: Doc)
    requires d.frames != [] && d.frames[|d.frames| - 1].InObj?
    ensures CanPlace(d) == AwaitsValue(d) == d.frames[|d.frames| - 1].key.Some?
  {}

  lemma BeginValueInObj(w: Writer, cap: nat, d: Doc)
    requires Rep(w, cap, d) && d.frames != [] && d.frames[|d.frames| - 1].InObj?
    ensures BeginValue(w, cap).Writing? <==> CanPlace(d) && |Leads(d.frames)| < cap
    ensures BeginValue(w, cap).Writing? ==> Begun(BeginValue(w, cap), cap, d)
  {
    LeadsIs(d);
    KeyIsPlace(d);
    BeginFromObj(w, cap);
    BeganStack(w.stack, d.frames, |d.frames| - 1);
  }

  lemma BeginValueIs(w: Writer, cap: nat, d: Doc)
    requires Rep(w, cap, d)
    ensures BeginValue(w, cap).Writing? <==> CanPlace(d) && |Leads(d.frames)| < cap
    ensures BeginValue(w, cap).Writing? ==> Begun(BeginValue(w, cap), cap, d)
  {
    if d.frames != [] {
      if d.frames[|d.frames| - 1].InArr? { BeginValueInArr(w, cap, d); } else { BeginValueInObj(w, cap, d); }
    }
  }

  /** A scalar's text, or a closed container's, completes the value that was begun. */
  lemma PlaceIs(w: Writer, cap: nat, d: Doc, v: Value)
    requires Begun(w, cap, d)
    ensures EndValue(Put(w, cap, Show(v))).Writing? <==> |TextOf(Place(d, v))| < cap
    ensures EndValue(Put(w, cap, Show(v))).Writing? ==> Rep(EndValue(Put(w, cap, Show(v))), cap, Place(d, v))
  {
    TextOfPlaced(d, v);
    PlacedStack(w.stack, d, v);
  }

  lemma PlacedStack(stack: seq<Open>, d: Doc, v: Value)
    requires DocOk(d) && CanPlace(d) && RepStack(stack, d.frames, true)
    ensures RepStack(stack, Place(d, v).frames, false) && DocOk(Place(d, v)) && !AwaitsValue(Place(d, v))
    ensures Place(d, v).result.Some? <==> d.frames == []
  {}

  // ------------------------------------------------------------------ one call

  /** What a call must bring besides coming in order. */
  ghost predicate CallOk(c: Call) {
    match c
    case Key(k) => Ascii(k)
    case String(s) => Ascii(s)
    case Numeral(text) => IsNumber(text)
    case _ => true
  }

  /** The writer takes a call exactly when it is in order, writable, not too deep and fits; then it
      again holds what its calls describe. */
  ghost predicate Exact(w: Writer, cap: nat, d: Doc, c: Call) {
    var r, w' := Build(d, c), Do(w, cap, c);
    && (w'.Writing? <==> r.Some? && CallOk(c) && |r.value.frames| <= MAX_DEPTH && |TextOf(r.value)| < cap)
    && (w'.Writing? ==> Rep(w', cap, r.value))
  }

  lemma LeadsFit(d: Doc, v: Value)
    requires CanPlace(d)
    ensures |Leads(d.frames)| <= |TextOf(Place(d, v))|
  {
    TextOfPlaced(d, v);
  }

  lemma ScalarIs(w: Writer, cap: nat, d: Doc, c: Call, v: Value)
    requires Rep(w, cap, d) && Scalar(c) == Some(v) && Do(w, cap, c) == EndValue(Put(BeginValue(w, cap), cap, Show(v)))
    requires CallOk(c)
    ensures Exact(w, cap, d, c)
  {
    BeginValueIs(w, cap, d);
    if CanPlace(d) {
      LeadsFit(d, v);
      if BeginValue(w, cap).Writing? { PlaceIs(BeginValue(w, cap), cap, d, v); }
    }
  }

  lemma OpenedText(d: Doc, top: Frame, next: Doc, mark: string)
    requires CanPlace(d) && next == d.(frames := d.frames + [top]) && mark == Body(top)
    ensures TextOf(next) == Leads(d.frames) + mark
  {
    assert next.frames[..|next.frames| - 1] == d.frames;
  }

  lemma EmptyBody(obj: bool)
    ensures Body(if obj then InObj([], None) else InArr([])) == if obj then "{" else "["
  {}

  lemma OpenedStack(stack: seq<Open>, frames: seq<Frame>, obj: bool, top: Frame)
    requires RepStack(stack, frames, true) && top == (if obj then InObj([], None) else InArr([]))
    ensures RepStack(stack + [Open(obj, false)], frames + [top], false)
  {
    var s, f := stack + [Open(obj, false)], frames + [top];
    forall i | 0 <= i < |s| ensures s[i] == Open(f[i].InObj?, HasItem(f[i], false || i < |f| - 1)) {}
  }

  lemma OpenedOk(d: Doc, obj: bool, top: Frame, next: Doc)
    requires DocOk(d) && CanPlace(d) && top == (if obj then InObj([], None) else InArr([])) && next == d.(frames := d.frames + [top])
    ensures DocOk(next) && !AwaitsValue(next) && next.result.None?
  {}

  lemma OpenedRep(w: Writer, cap: nat, d: Doc, obj: bool, top: Frame, next: Doc, w': Writer)
    requires Begun(w, cap, d) && top == (if obj then InObj([], None) else InArr([])) && next == d.(frames := d.frames + [top])
    requires w' == Writing(TextOf(next), w.stack + [Open(obj, false)], false, false)
    requires |TextOf(next)| < cap && |w.stack| < MAX_DEPTH
    ensures Rep(w', cap, next)
  {
    OpenedStack(w.stack, d.frames, obj, top);
    OpenedOk(d, obj, top, next);
  }

  lemma ExactFrom(w: Writer, cap: nat, d: Doc, c: Call, next: Doc, w': Writer)
    requires Build(d, c) == Some(next) && Do(w, cap, c) == w'
    requires w'.Writing? <==> CallOk(c) && |next.frames| <= MAX_DEPTH && |TextOf(next)| < cap
    requires w'.Writing? ==> Rep(w', cap, next)
    ensures Exact(w, cap, d, c)
  {}

  lemma ExactRefused(w: Writer, cap: nat, d: Doc, c: Call)
    requires Build(d, c).None? && Do(w, cap, c).Failed?
    ensures Exact(w, cap, d, c)
  {}

  lemma BeginFrom(w: Writer, cap: nat, obj: bool, begun: Writer, w': Writer)
    requires begun == BeginValue(w, cap) && w' == Do(w, cap, Call.Begin(obj))
    ensures begun.Failed? ==> w'.Failed?
    ensures begun.Writing? ==>
              w' == if |begun.stack| < MAX_DEPTH && |begun.out| + 1 < cap
                    then Writing(begun.out + (if obj then "{" else "["), begun.stack + [Open(obj, false)], begun.afterKey, begun.done)
                    else Failed
  {}

  lemma BeginIs(w: Writer, cap: nat, d: Doc, obj: bool)
    requires Rep(w, cap, d)
    ensures Exact(w, cap, d, Call.Begin(obj))
  {
    BeginValueIs(w, cap, d);
    var begun, w' := BeginValue(w, cap), Do(w, cap, Call.Begin(obj));
    BeginFrom(w, cap, obj, begun, w');
    if CanPlace(d) {
      var top := if obj then InObj([], None) else InArr([]);
      var mark := if obj then "{" else "[";
      var next := d.(frames := d.frames + [top]);
      EmptyBody(obj);
      OpenedText(d, top, next, mark);
      if begun.Writing? && w'.Writing? { OpenedRep(begun, cap, d, obj, top, next, w'); }
      ExactFrom(w, cap, d, Call.Begin(obj), next, w');
    } else {
      ExactRefused(w, cap, d, Call.Begin(obj));
    }
  }

  lemma ShowClosed(top: Frame)
    requires top.InObj? ==> top.key.None?
    ensures Show(Closed(top)) == Body(top) + if top.InObj? then "}" else "]"
  {
    match top
    case InArr(items) => assert "[" + ShowItems(items) + "]" == ("[" + ShowItems(items)) + "]";
    case InObj(fields, _) => assert "{" + ShowFields(fields) + "}" == ("{" + ShowFields(fields)) + "}";
  }

  lemma EndedText(d: Doc, top: Frame, outer: Doc, mark: string)
    requires d.frames != [] && top == d.frames[|d.frames| - 1] && outer == d.(frames := d.frames[..|d.frames| - 1])
    requires CanPlace(outer) && (top.InObj? ==> top.key.None?) && mark == if top.InObj? then "}" else "]"
    ensures TextOf(Place(outer, Closed(top))) == TextOf(d) + mark
  {
    ShowClosed(top);
    TextOfPlaced(outer, Closed(top));
    assert Leads(outer.frames) + (Body(top) + mark) == Leads(outer.frames) + Body(top) + mark;
  }

  lemma EndedRep(w: Writer, cap: nat, d: Doc, v: Value, w': Writer)
    requires DocOk(d) && CanPlace(d) && w.Writing? && RepStack(w.stack, d.frames, true) && |w.stack| <= MAX_DEPTH
    requires |TextOf(Place(d, v))| < cap && w' == Writing(TextOf(Place(d, v)), w.stack, false, w.stack == [])
    ensures Rep(w', cap, Place(d, v))
  {
    PlacedStack(w.stack, d, v);
  }

  lemma EndFrom(w: Writer, cap: nat, obj: bool, mark: string, w': Writer)
    requires w.Writing? && w.stack != [] && w.stack[|w.stack| - 1].obj == obj && !w.afterKey
    requires mark == (if obj then "}" else "]") && w' == Do(w, cap, Call.End(obj))
    ensures w' == if |w.out| + 1 < cap
                  then Writing(w.out + mark, w.stack[..|w.stack| - 1], false, w.done || |w.stack| == 1) else Failed
  {}

  lemma EndIs(w: Writer, cap: nat, d: Doc, obj: bool)
    requires Rep(w, cap, d)
    ensures Exact(w, cap, d, Call.End(obj))
  {
    if d.frames != [] && d.frames[|d.frames| - 1].InObj? == obj && !w.afterKey {
      var n := |d.frames| - 1;
      var top, outer := d.frames[n], d.(frames := d.frames[..n]);
      var mark, w' := if obj then "}" else "]", Do(w, cap, Call.End(obj));
      OuterCanPlace(d, outer);
      EndedText(d, top, outer, mark);
      OuterStack(w.stack, d);
      EndFrom(w, cap, obj, mark, w');
      if w'.Writing? {
        EndedRep(Writing(w.out, w.stack[..n], false, w.done), cap, outer, Closed(top), w');
      }
      ExactFrom(w, cap, d, Call.End(obj), Place(outer, Closed(top)), w');
    } else {
      ExactRefused(w, cap, d, Call.End(obj));
    }
  }

  lemma OuterCanPlace(d: Doc, outer: Doc)
    requires DocOk(d) && d.frames != [] && outer == d.(frames := d.frames[..|d.frames| - 1])
    ensures CanPlace(outer) && DocOk(outer)
  {}

  lemma OuterStack(stack: seq<Open>, d: Doc)
    requires d.frames != [] && RepStack(stack, d.frames, false)
    ensures RepStack(stack[..|stack| - 1], d.frames[..|d.frames| - 1], true)
  {}

  lemma KeyFrom(w: Writer, cap: nat, key: Text, comma: string, w': Writer)
    requires w.Writing? && |w.out| < cap && w.stack != [] && w.stack[|w.stack| - 1].obj && !w.afterKey
    requires comma == (if w.stack[|w.stack| - 1].hasItem then "," else "") && w' == Do(w, cap, Call.Key(key))
    ensures w' == if Ascii(key) && |w.out| + |comma + Quoted(key) + ":"| < cap
                  then Writing(w.out + (comma + Quoted(key) + ":"), w.stack[|w.stack| - 1 := Open(true, true)], true, w.done)
                  else Failed
  {
    PutsFit(w.out, comma, Quoted(key), ":");
  }

  lemma KeyStack(stack: seq<Open>, frames: seq<Frame>, next: seq<Frame>, n: nat)
    requires RepStack(stack, frames, false) && |frames| == n + 1 == |next| && frames[..n] == next[..n]
    requires next[n].InObj? && next[n].key.Some?
    ensures RepStack(stack[n := Open(true, true)], next, false)
  {
    forall i | 0 <= i < n ensures frames[i] == next[i] { assert frames[..n][i] == next[..n][i]; }
  }

  lemma KeyNext(d: Doc, key: Text, next: Doc, n: nat)
    requires DocOk(d) && Build(d, Call.Key(key)) == Some(next) && n == |d.frames| - 1
    ensures |next.frames| == n + 1 && d.frames[..n] == next.frames[..n] && next.result == d.result
    ensures next.frames[n].InObj? && next.frames[n].key.Some? && DocOk(next)
  {
    assert next.frames[..n] == d.frames[..n];
    forall i | 0 <= i < n ensures next.frames[i] == d.frames[i] { assert next.frames[..n][i] == d.frames[..n][i]; }
  }

  lemma KeyRep(w: Writer, cap: nat, d: Doc, key: Text, next: Doc, w': Writer)
    requires Rep(w, cap, d) && Build(d, Call.Key(key)) == Some(next) && |TextOf(next)| < cap
    requires w' == Writing(TextOf(next), w.stack[|w.stack| - 1 := Open(true, true)], true, w.done)
    ensures Rep(w', cap, next)
  {
    var n := |d.frames| - 1;
    KeyNext(d, key, next, n);
    KeyStack(w.stack, d.frames, next.frames, n);
  }

  lemma KeyedDoc(d: Doc, key: Text, next: Doc)
    requires d.frames != [] && Build(d, Call.Key(key)) == Some(next)
    ensures |next.frames| == |d.frames|
    ensures TextOf(next) == TextOf(d) + (Comma(d.frames[|d.frames| - 1].fields) + Quoted(key) + ":")
  {
    var outer, top := d.frames[..|d.frames| - 1], d.frames[|d.frames| - 1];
    SplitsLast(d.frames, outer, top);
    TextOfSnoc(d, outer, top);
    TextOfSnoc(next, outer, top.(key := Some(key)));
    KeyText(Leads(outer), top, key);
  }

  lemma KeyIs(w: Writer, cap: nat, d: Doc, key: Text)
    requires Rep(w, cap, d)
    ensures Exact(w, cap, d, Call.Key(key))
  {
    var c := Call.Key(key);
    if Build(d, c).Some? {
      var next, comma, w' := Build(d, c).value, Comma(d.frames[|d.frames| - 1].fields), Do(w, cap, c);
      KeyedDoc(d, key, next);
      KeyFrom(w, cap, key, comma, w');
      if w'.Writing? { KeyRep(w, cap, d, key, next, w'); }
      ExactFrom(w, cap, d, c, next, w');
    } else {
      ExactRefused(w, cap, d, c);
    }
  }

  lemma KeyText(leads: string, top: Frame, key: Text)
    requires top.InObj? && top.key.None?
    ensures leads + Body(top.(key := Some(key))) == leads + Body(top) + (Comma(top.fields) + Quoted(key) + ":")
  {
    KeyAssoc(leads, "{", ShowFields(top.fields), Comma(top.fields), Quoted(key), ":");
  }

  lemma KeyAssoc(a: string, b: string, c: string, d: string, e: string, f: string)
    ensures a + (b + c + d + e + f) == a + (b + c) + (d + e + f)
  {}

  lemma PutsFit(out: string, a: string, b: string, c: string)
    ensures out + a + b + c == out + (a + b + c)
  {}

  lemma CallIsExact(w: Writer, cap: nat, d: Doc, c: Call)
    requires Rep(w, cap, d)
    ensures Exact(w, cap, d, c)
  {
    match c
    case Begin(obj) => BeginIs(w, cap, d, obj);
    case End(obj) => EndIs(w, cap, d, obj);
    case Key(k) => KeyIs(w, cap, d, k);
    case String(s) => if Ascii(s) { ScalarIs(w, cap, d, c, Str(s)); }
    case Integer(v) => ScalarIs(w, cap, d, c, Num(IntText(v)));
    case Boolean(b) => ScalarIs(w, cap, d, c, Bool(b));
    case JsonNull => ScalarIs(w, cap, d, c, Null);
    case Numeral(text) =>
      ScanIsGrammar(text);
      if IsNumber(text) { ScalarIs(w, cap, d, c, Num(text)); }
  }

  // ------------------------------------------------------------------ whole documents

  /** The calls that describe a value, in order. */
  function Emit(v: Value): seq<Call>
    decreases v
  {
    match v
    case Null => [JsonNull]
    case Bool(b) => [Boolean(b)]
    case Num(text) => [Numeral(text)]
    case Str(s) => [String(s)]
    case Arr(items) => [Call.Begin(false)] + EmitItems(items) + [Call.End(false)]
    case Obj(fields) => [Call.Begin(true)] + EmitFields(fields) + [Call.End(true)]
  }

  function EmitItems(items: seq<Value>): seq<Call>
    decreases items
  {
    if items == [] then [] else EmitItems(items[..|items| - 1]) + Emit(items[|items| - 1])
  }

  function EmitFields(fields: seq<Field>): seq<Call>
    decreases fields
  {
    if fields == [] then [] else EmitFields(fields[..|fields| - 1]) + EmitField(fields[|fields| - 1])
  }

  function EmitField(f: Field): seq<Call>
    decreases f
  {
    [Call.Key(f.key)] + Emit(f.value)
  }

  /** json_int and json_uint write the numeral they print. */
  function Plain(c: Call): Call { if c.Integer? then Numeral(IntText(c.v)) else c }

  function PlainAll(calls: seq<Call>): seq<Call> {
    if calls == [] then [] else PlainAll(calls[..|calls| - 1]) + [Plain(calls[|calls| - 1])]
  }

  lemma {:induction false} DoAllAppend(w: Writer, cap: nat, a: seq<Call>, b: seq<Call>)
    ensures DoAll(w, cap, a + b) == DoAll(DoAll(w, cap, a), cap, b)
    decreases |a|
  {
    if a == [] {
      assert a + b == b;
    } else {
      assert (a + b)[0] == a[0] && (a + b)[1..] == a[1..] + b;
      DoAllAppend(Do(w, cap, a[0]), cap, a[1..], b);
    }
  }

  lemma DoAllSnoc(w: Writer, cap: nat, a: seq<Call>, c: Call)
    ensures DoAll(w, cap, a + [c]) == Do(DoAll(w, cap, a), cap, c)
  {
    DoAllAppend(w, cap, a, [c]);
    assert [c][1..] == [];
  }

  /** Failure is permanent. */
  lemma {:induction false} FailedStays(cap: nat, calls: seq<Call>)
    ensures DoAll(Failed, cap, calls) == Failed
    decreases |calls|
  {
    if calls != [] {
      assert Do(Failed, cap, calls[0]) == Failed;
      FailedStays(cap, calls[1..]);
    }
  }

  lemma {:induction false} BuildAllSnoc(d: Doc, a: seq<Call>, c: Call)
    ensures BuildAll(d, a + [c]) == match BuildAll(d, a) case None => None case Some(e) => Build(e, c)
    decreases |a|
  {
    if a == [] {
      assert a + [c] == [c] && [c][1..] == [];
    } else {
      assert (a + [c])[0] == a[0] && (a + [c])[1..] == a[1..] + [c];
      if Build(d, a[0]).Some? { BuildAllSnoc(Build(d, a[0]).value, a[1..], c); }
    }
  }

  /** However it was called: while the writer has not failed, its text is the text of what its calls
      describe. */
  lemma {:induction false} WriterIsExact(cap: nat, calls: seq<Call>)
    requires DoAll(Init(cap), cap, calls).Writing?
    ensures BuildAll(EMPTY, calls).Some? && Rep(DoAll(Init(cap), cap, calls), cap, BuildAll(EMPTY, calls).value)
    decreases |calls|
  {
    if calls != [] {
      var init, c := calls[..|calls| - 1], calls[|calls| - 1];
      assert calls == init + [c];
      DoAllSnoc(Init(cap), cap, init, c);
      BuildAllSnoc(EMPTY, init, c);
      WriterIsExact(cap, init);
      CallIsExact(DoAll(Init(cap), cap, init), cap, BuildAll(EMPTY, init).value, c);
    }
  }

  // ------------------------------------------------------------------ only one sequence of calls describes a value

  function TopCalls(top: Frame): seq<Call> {
    match top
    case InArr(items) => [Call.Begin(false)] + EmitItems(items)
    case InObj(fields, None) => [Call.Begin(true)] + EmitFields(fields)
    case InObj(fields, Some(k)) => [Call.Begin(true)] + EmitFields(fields) + [Call.Key(k)]
  }

  function FrameCalls(frames: seq<Frame>): seq<Call> {
    if frames == [] then [] else FrameCalls(frames[..|frames| - 1]) + TopCalls(frames[|frames| - 1])
  }

  function CallsOf(d: Doc): seq<Call> {
    FrameCalls(d.frames) + match d.result case None => [] case Some(v) => Emit(v)
  }

  lemma EmitItemsSnoc(items: seq<Value>, v: Value)
    ensures EmitItems(items + [v]) == EmitItems(items) + Emit(v)
  {
    assert (items + [v])[..|items|] == items;
  }

  lemma EmitFieldsSnoc(fields: seq<Field>, f: Field)
    ensures EmitFields(fields + [f]) == EmitFields(fields) + EmitField(f)
  {
    assert (fields + [f])[..|fields|] == fields;
  }

  lemma CallsAssoc(a: seq<Call>, b: seq<Call>, c: seq<Call>, e: seq<Call>)
    ensures a + (b + (c + e)) == a + b + c + e && a + (b + c) == a + b + c
  {}

  lemma TopCallsPlaced(top: Frame, v: Value)
    requires top.InObj? ==> top.key.Some?
    ensures TopCalls(PlaceIn(top, v)) == TopCalls(top) + Emit(v)
  {
    match top
    case InArr(items) =>
      EmitItemsSnoc(items, v);
      CallsAssoc([Call.Begin(false)], EmitItems(items), Emit(v), []);
    case InObj(fields, key) =>
      EmitFieldsSnoc(fields, Field(key.value, v));
      CallsAssoc([Call.Begin(true)], EmitFields(fields), [Call.Key(key.value)], Emit(v));
  }

  lemma FrameCallsSnoc(frames: seq<Frame>, top: Frame, all: seq<Frame>)
    requires all == frames + [top]
    ensures FrameCalls(all) == FrameCalls(frames) + TopCalls(top)
  {
    assert all[..|all| - 1] == frames;
  }

  lemma PlacedFrames(d: Doc, v: Value, outer: seq<Frame>, top: Frame)
    requires CanPlace(d) && DocOk(d) && d.frames != [] && outer == d.frames[..|d.frames| - 1] && top == d.frames[|d.frames| - 1]
    ensures Place(d, v).frames == outer + [PlaceIn(top, v)] && d.frames == outer + [top]
    ensures Place(d, v).result.None? && d.result.None? && (top.InObj? ==> top.key.Some?)
  {}

  lemma PlacedFirst(d: Doc, v: Value)
    requires CanPlace(d) && d.frames == []
    ensures CallsOf(Place(d, v)) == CallsOf(d) + Emit(v)
  {
    assert [] + Emit(v) == Emit(v) && CallsOf(d) == [];
  }

  lemma PlacedCalls(d: Doc, v: Value)
    requires CanPlace(d) && DocOk(d)
    ensures CallsOf(Place(d, v)) == CallsOf(d) + Emit(v)
  {
    if d.frames != [] {
      var outer, top, next := d.frames[..|d.frames| - 1], d.frames[|d.frames| - 1], Place(d, v);
      PlacedFrames(d, v, outer, top);
      FrameCallsSnoc(outer, PlaceIn(top, v), next.frames);
      FrameCallsSnoc(outer, top, d.frames);
      TopCallsPlaced(top, v);
      PlacedInFrame(FrameCalls(outer), TopCalls(top), Emit(v), d, next);
    } else {
      PlacedFirst(d, v);
    }
  }

  lemma PlacedInFrame(outer: seq<Call>, top: seq<Call>, emit: seq<Call>, d: Doc, e: Doc)
    requires FrameCalls(d.frames) == outer + top && FrameCalls(e.frames) == outer + (top + emit)
    requires d.result.None? && e.result.None?
    ensures CallsOf(e) == CallsOf(d) + emit
  {
    CallsAssoc(outer, top, emit, []);
  }

  lemma BuildKeepsOk(d: Doc, c: Call)
    requires DocOk(d) && Build(d, c).Some?
    ensures DocOk(Build(d, c).value)
  {
    if c.End? { OuterCanPlace(d, d.(frames := d.frames[..|d.frames| - 1])); }
  }

  lemma EmitClosed(top: Frame)
    requires top.InObj? ==> top.key.None?
    ensures Emit(Closed(top)) == TopCalls(top) + [Call.End(top.InObj?)]
  {}

  lemma OpenCalls(d: Doc)
    requires d.result.None?
    ensures CallsOf(d) == FrameCalls(d.frames)
  {}

  lemma EndCalls(d: Doc, outer: Doc, top: Frame)
    requires DocOk(d) && CanEnd(d, top.InObj?) && top == d.frames[|d.frames| - 1] && outer == d.(frames := d.frames[..|d.frames| - 1])
    ensures CallsOf(Place(outer, Closed(top))) == CallsOf(d) + [Call.End(top.InObj?)]
  {
    OuterCanPlace(d, outer);
    PlacedCalls(outer, Closed(top));
    EmitClosed(top);
    OpenCalls(outer);
    OpenCalls(d);
    SplitsLast(d.frames, outer.frames, top);
    FrameCallsSnoc(outer.frames, top, d.frames);
    CallsJoin(FrameCalls(outer.frames), TopCalls(top), Call.End(top.InObj?), Emit(Closed(top)), CallsOf(d), CallsOf(Place(outer, Closed(top))));
  }

  lemma CallsJoin(outer: seq<Call>, top: seq<Call>, e: Call, emit: seq<Call>, before: seq<Call>, all: seq<Call>)
    requires emit == top + [e] && before == outer + top && all == outer + emit
    ensures all == before + [e]
  {}

  lemma BeginCalls(d: Doc, obj: bool)
    requires DocOk(d) && CanPlace(d)
    ensures CallsOf(Build(d, Call.Begin(obj)).value) == CallsOf(d) + [Call.Begin(obj)]
  {
    var top := if obj then InObj([], None) else InArr([]);
    FrameCallsSnoc(d.frames, top, d.frames + [top]);
    assert TopCalls(top) == [Call.Begin(obj)];
  }

  lemma KeyedTop(top: Frame, k: Text)
    requires top.InObj? && top.key.None?
    ensures TopCalls(top.(key := Some(k))) == TopCalls(top) + [Call.Key(k)]
  {}

  lemma KeyCalls(d: Doc, k: Text, next: Doc)
    requires DocOk(d) && Build(d, Call.Key(k)) == Some(next)
    ensures CallsOf(next) == CallsOf(d) + [Call.Key(k)]
  {
    var n := |d.frames| - 1;
    KeyedTop(d.frames[n], k);
    FrameCallsSnoc(d.frames[..n], d.frames[n], d.frames);
    FrameCallsSnoc(d.frames[..n], next.frames[n], next.frames);
    PlacedInFrame(FrameCalls(d.frames[..n]), TopCalls(d.frames[n]), [Call.Key(k)], d, next);
  }

  lemma ScalarCalls(d: Doc, c: Call, v: Value)
    requires DocOk(d) && Scalar(c) == Some(v) && Build(d, c).Some?
    ensures CallsOf(Build(d, c).value) == CallsOf(d) + [Plain(c)]
  {
    PlacedCalls(d, v);
    assert Emit(v) == [Plain(c)];
  }

  /** Each call adds itself to the calls that describe the document. */
  lemma BuildCalls(d: Doc, c: Call)
    requires DocOk(d) && Build(d, c).Some?
    ensures CallsOf(Build(d, c).value) == CallsOf(d) + [Plain(c)]
  {
    if c.Begin? {
      BeginCalls(d, c.obj);
    } else if c.End? {
      EndCalls(d, d.(frames := d.frames[..|d.frames| - 1]), d.frames[|d.frames| - 1]);
    } else if c.Key? {
      KeyCalls(d, c.key, Build(d, c).value);
    } else {
      ScalarCalls(d, c, Scalar(c).value);
    }
  }

  lemma {:induction false} CallsAreTheirs(calls: seq<Call>)
    requires BuildAll(EMPTY, calls).Some?
    ensures DocOk(BuildAll(EMPTY, calls).value) && PlainAll(calls) == CallsOf(BuildAll(EMPTY, calls).value)
    decreases |calls|
  {
    if calls != [] {
      var init, c := calls[..|calls| - 1], calls[|calls| - 1];
      assert calls == init + [c];
      BuildAllSnoc(EMPTY, init, c);
      CallsAreTheirs(init);
      BuildKeepsOk(BuildAll(EMPTY, init).value, c);
      BuildCalls(BuildAll(EMPTY, init).value, c);
    }
  }

  /** Soundness: if json_finish gives a length, the buffer is exactly the serialization of the one
      value that the calls describe. */
  lemma FinishedIsTheValue(cap: nat, calls: seq<Call>) returns (v: Value)
    requires Finish(DoAll(Init(cap), cap, calls)) >= 0
    ensures PlainAll(calls) == Emit(v) && DoAll(Init(cap), cap, calls).out == Show(v)
    ensures Finish(DoAll(Init(cap), cap, calls)) == |Show(v)| < cap
  {
    WriterIsExact(cap, calls);
    CallsAreTheirs(calls);
    var d := BuildAll(EMPTY, calls).value;
    v := d.result.value;
    assert FrameCalls(d.frames) == [];
  }

  // ------------------------------------------------------------------ exactly when a value is written

  /** The writer can take v's calls here: all of it is writable, not too deep, and fits. */
  ghost predicate Fits(cap: nat, d: Doc, v: Value)
    requires CanPlace(d)
  {
    Writable(v) && |d.frames| + Depth(v) <= MAX_DEPTH && |TextOf(Place(d, v))| < cap
  }

  ghost predicate WritesExactly(w: Writer, cap: nat, calls: seq<Call>, fits: bool, d: Doc) {
    && (DoAll(w, cap, calls).Writing? <==> fits)
    && (fits ==> Rep(DoAll(w, cap, calls), cap, d))
  }

  /** An open array, and the document with more items in it. */
  ghost predicate ArrTop(d: Doc) { d.frames != [] && d.frames[|d.frames| - 1].InArr? }

  function WithItems(d: Doc, items: seq<Value>): Doc
    requires ArrTop(d)
  {
    var n := |d.frames| - 1;
    d.(frames := d.frames[..n] + [InArr(d.frames[n].items + items)])
  }

  ghost predicate ObjTop(d: Doc) {
    d.frames != [] && d.frames[|d.frames| - 1].InObj? && d.frames[|d.frames| - 1].key.None?
  }

  function WithFields(d: Doc, fields: seq<Field>): Doc
    requires ObjTop(d)
  {
    var n := |d.frames| - 1;
    d.(frames := d.frames[..n] + [InObj(d.frames[n].fields + fields, None)])
  }

  ghost predicate AllWritable(items: seq<Value>) { forall i :: 0 <= i < |items| ==> Writable(items[i]) }

  ghost predicate FieldsWritable(fields: seq<Field>) {
    forall i :: 0 <= i < |fields| ==> Ascii(fields[i].key) && Writable(fields[i].value)
  }

  ghost predicate ItemsFit(cap: nat, d: Doc, items: seq<Value>)
    requires ArrTop(d)
  {
    AllWritable(items) && |d.frames| + DepthItems(items) <= MAX_DEPTH && |TextOf(WithItems(d, items))| < cap
  }

  ghost predicate FieldsFit(cap: nat, d: Doc, fields: seq<Field>)
    requires ObjTop(d)
  {
    FieldsWritable(fields) && |d.frames| + DepthFields(fields) <= MAX_DEPTH && |TextOf(WithFields(d, fields))| < cap
  }

  lemma TextGrows(d: Doc, v: Value)
    requires CanPlace(d)
    ensures |TextOf(d)| <= |TextOf(Place(d, v))|
  {
    TextOfPlaced(d, v);
    LeadsExtendText(d);
  }

  function CallOf(v: Value): Call
    requires !v.Arr? && !v.Obj?
  {
    match v
    case Null => JsonNull
    case Bool(b) => Boolean(b)
    case Num(text) => Numeral(text)
    case Str(s) => String(s)
  }

  lemma CallOfScalar(v: Value)
    requires !v.Arr? && !v.Obj?
    ensures Scalar(CallOf(v)) == Some(v) && Depth(v) == 0 && Emit(v) == [CallOf(v)] && (CallOk(CallOf(v)) <==> Writable(v))
  {}

  lemma SingleCall(w: Writer, cap: nat, d: Doc, c: Call, v: Value)
    requires Rep(w, cap, d) && CanPlace(d) && Scalar(c) == Some(v) && Depth(v) == 0 && (CallOk(c) <==> Writable(v))
    ensures WritesExactly(w, cap, [c], Fits(cap, d, v), Place(d, v))
  {
    CallIsExact(w, cap, d, c);
    assert [c][1..] == [];
  }

  lemma EmitScalar(w: Writer, cap: nat, d: Doc, v: Value)
    requires Rep(w, cap, d) && CanPlace(d) && !v.Arr? && !v.Obj?
    ensures WritesExactly(w, cap, Emit(v), Fits(cap, d, v), Place(d, v))
  {
    CallOfScalar(v);
    SingleCall(w, cap, d, CallOf(v), v);
  }

  /** A value's calls succeed exactly when it is writable, not too deep, and fits below cap; then the
      document holds it. */
  lemma {:induction false} EmitWrites(w: Writer, cap: nat, d: Doc, v: Value)
    requires Rep(w, cap, d) && CanPlace(d)
    ensures WritesExactly(w, cap, Emit(v), Fits(cap, d, v), Place(d, v))
    decreases v, 1
  {
    if v.Arr? {
      EmitArr(w, cap, d, v.items);
    } else if v.Obj? {
      EmitObj(w, cap, d, v.fields);
    } else {
      EmitScalar(w, cap, d, v);
    }
  }

  lemma Bracketed(w: Writer, cap: nat, b: Call, mid: seq<Call>, e: Call)
    ensures DoAll(w, cap, [b] + mid + [e]) == Do(DoAll(Do(w, cap, b), cap, mid), cap, e)
  {
    assert [b] + mid + [e] == [b] + (mid + [e]) && ([b] + (mid + [e]))[1..] == mid + [e];
    DoAllSnoc(Do(w, cap, b), cap, mid, e);
  }

  lemma ClosedItems(d: Doc, items: seq<Value>, within: Doc, inner: Doc)
    requires CanPlace(d) && DocOk(d) && Build(d, Call.Begin(false)) == Some(within)
    requires ArrTop(within) && inner == WithItems(within, items)
    ensures Build(inner, Call.End(false)) == Some(Place(d, Arr(items)))
    ensures |TextOf(Place(d, Arr(items)))| == |TextOf(inner)| + 1 && |TextOf(within)| <= |TextOf(inner)|
  {
    assert inner.frames[..|inner.frames| - 1] == d.frames && inner.frames[|inner.frames| - 1] == InArr(items);
    TextOfPlaced(d, Arr(items));
    assert within.frames[..|within.frames| - 1] == d.frames;
  }

  /** A begin, what comes between, and an end: taken whole exactly when each part is. */
  lemma Enclosed(w: Writer, cap: nat, d: Doc, b: Call, mid: seq<Call>, e: Call, within: Doc, inner: Doc, final: Doc,
                 midFits: bool, fits: bool)
    requires Rep(w, cap, d) && Build(d, b) == Some(within) && Build(inner, e) == Some(final) && CallOk(b) && CallOk(e)
    requires Do(w, cap, b).Writing? ==> WritesExactly(Do(w, cap, b), cap, mid, midFits, inner)
    requires |within.frames| == |d.frames| + 1 && |final.frames| == |d.frames|
    requires fits <==> |within.frames| <= MAX_DEPTH && |TextOf(within)| < cap && midFits && |TextOf(final)| < cap
    ensures WritesExactly(w, cap, [b] + mid + [e], fits, final)
  {
    var begun := Do(w, cap, b);
    Bracketed(w, cap, b, mid, e);
    CallIsExact(w, cap, d, b);
    if begun.Failed? {
      FailedStays(cap, mid);
    } else if midFits {
      CallIsExact(DoAll(begun, cap, mid), cap, inner, e);
    }
  }

  lemma ArrShape(items: seq<Value>)
    ensures Writable(Arr(items)) <==> AllWritable(items)
    ensures Depth(Arr(items)) == 1 + DepthItems(items)
  {}

  lemma ArrFits(cap: nat, d: Doc, items: seq<Value>, within: Doc, inner: Doc, final: Doc)
    requires CanPlace(d) && DocOk(d) && Build(d, Call.Begin(false)) == Some(within) && ArrTop(within)
    requires inner == WithItems(within, items) && final == Place(d, Arr(items))
    ensures |within.frames| == |d.frames| + 1 && |final.frames| == |d.frames| && Build(inner, Call.End(false)) == Some(final)
    ensures Fits(cap, d, Arr(items))
            <==> |within.frames| <= MAX_DEPTH && |TextOf(within)| < cap && ItemsFit(cap, within, items) && |TextOf(final)| < cap
  {
    ClosedItems(d, items, within, inner);
    ArrShape(items);
  }

  lemma OpensArr(w: Writer, cap: nat, d: Doc, within: Doc)
    requires Rep(w, cap, d) && CanPlace(d) && within == Build(d, Call.Begin(false)).value
    ensures ArrTop(within) && (Do(w, cap, Call.Begin(false)).Writing? ==> Rep(Do(w, cap, Call.Begin(false)), cap, within))
  {
    CallIsExact(w, cap, d, Call.Begin(false));
  }

  lemma {:induction false} EmitArr(w: Writer, cap: nat, d: Doc, items: seq<Value>)
    requires Rep(w, cap, d) && CanPlace(d)
    ensures WritesExactly(w, cap, Emit(Arr(items)), Fits(cap, d, Arr(items)), Place(d, Arr(items)))
    decreases items, 2
  {
    var b, e := Call.Begin(false), Call.End(false);
    var within := Build(d, b).value;
    OpensArr(w, cap, d, within);
    var inner, final := WithItems(within, items), Place(d, Arr(items));
    ArrFits(cap, d, items, within, inner, final);
    if Do(w, cap, b).Writing? { EmitItemsWrites(Do(w, cap, b), cap, within, items); }
    Enclosed(w, cap, d, b, EmitItems(items), e, within, inner, final, ItemsFit(cap, within, items), Fits(cap, d, Arr(items)));
  }

  lemma ItemsPlace(d: Doc, items: seq<Value>, init: seq<Value>, last: Value, mid: Doc)
    requires ArrTop(d) && items == init + [last] && mid == WithItems(d, init)
    ensures CanPlace(mid) && Place(mid, last) == WithItems(d, items)
  {
    var n := |d.frames| - 1;
    assert mid.frames[..n] == d.frames[..n];
    assert d.frames[n].items + items == (d.frames[n].items + init) + [last];
  }

  lemma AllWritableSplit(items: seq<Value>, init: seq<Value>, last: Value)
    requires items == init + [last]
    ensures AllWritable(items) <==> AllWritable(init) && Writable(last)
  {
    assert forall i :: 0 <= i < |init| ==> items[i] == init[i];
    assert items[|init|] == last;
  }

  lemma ItemsSplit(cap: nat, d: Doc, items: seq<Value>, init: seq<Value>, last: Value, mid: Doc)
    requires ArrTop(d) && items == init + [last] && mid == WithItems(d, init)
    ensures CanPlace(mid) && Place(mid, last) == WithItems(d, items)
    ensures ItemsFit(cap, d, items) <==> ItemsFit(cap, d, init) && Fits(cap, mid, last)
  {
    ItemsPlace(d, items, init, last, mid);
    assert items[..|items| - 1] == init;
    AllWritableSplit(items, init, last);
    TextGrows(mid, last);
  }

  lemma InitAndLast<T>(s: seq<T>)
    requires s != []
    ensures s == s[..|s| - 1] + [s[|s| - 1]]
  {}

  lemma NoItems(d: Doc)
    requires ArrTop(d)
    ensures WithItems(d, []) == d
  {
    var n := |d.frames| - 1;
    assert d.frames[n].items + [] == d.frames[n].items && d.frames[..n] + [d.frames[n]] == d.frames;
  }

  /** Two runs of calls, one after the other: taken exactly when each is. */
  lemma Then(w: Writer, cap: nat, a: seq<Call>, b: seq<Call>, all: seq<Call>, aFits: bool, bFits: bool, mid: Doc,
             final: Doc)
    requires all == a + b && WritesExactly(w, cap, a, aFits, mid)
    requires aFits ==> WritesExactly(DoAll(w, cap, a), cap, b, bFits, final)
    ensures WritesExactly(w, cap, all, aFits && bFits, final)
  {
    DoAllAppend(w, cap, a, b);
    if !aFits { FailedStays(cap, b); }
  }

  lemma {:induction false} EmitItemsWrites(w: Writer, cap: nat, d: Doc, items: seq<Value>)
    requires Rep(w, cap, d) && ArrTop(d)
    ensures WritesExactly(w, cap, EmitItems(items), ItemsFit(cap, d, items), WithItems(d, items))
    decreases items, 1
  {
    if items == [] {
      NoItems(d);
    } else {
      var init, last := items[..|items| - 1], items[|items| - 1];
      var mid, sofar := WithItems(d, init), DoAll(w, cap, EmitItems(init));
      InitAndLast(items);
      ItemsSplit(cap, d, items, init, last, mid);
      EmitItemsWrites(w, cap, d, init);
      if ItemsFit(cap, d, init) { EmitWrites(sofar, cap, mid, last); }
      Then(w, cap, EmitItems(init), Emit(last), EmitItems(items), ItemsFit(cap, d, init), Fits(cap, mid, last), mid,
           WithItems(d, items));
    }
  }

  lemma InnerFields(d: Doc, fields: seq<Field>, within: Doc, inner: Doc)
    requires CanPlace(d) && Build(d, Call.Begin(true)) == Some(within) && ObjTop(within) && inner == WithFields(within, fields)
    ensures within == d.(frames := d.frames + [InObj([], None)])
    ensures inner == d.(frames := d.frames + [InObj(fields, None)])
  {
    SnocEnds(within.frames, d.frames, InObj([], None));
    assert [] + fields == fields;
  }

  lemma EndOfObj(d: Doc, fields: seq<Field>, inner: Doc)
    requires CanPlace(d) && inner == d.(frames := d.frames + [InObj(fields, None)])
    ensures Build(inner, Call.End(true)) == Some(Place(d, Obj(fields)))
  {
    SnocEnds(inner.frames, d.frames, InObj(fields, None));
    assert d.(frames := d.frames) == d;
  }

  lemma BodyOfObj(fields: seq<Field>)
    ensures |Show(Obj(fields))| == |Body(InObj(fields, None))| + 1 && |Body(InObj([], None))| <= |Body(InObj(fields, None))|
  {}

  lemma ClosedFields(d: Doc, fields: seq<Field>, within: Doc, inner: Doc)
    requires CanPlace(d) && DocOk(d) && Build(d, Call.Begin(true)) == Some(within)
    requires ObjTop(within) && inner == WithFields(within, fields)
    ensures Build(inner, Call.End(true)) == Some(Place(d, Obj(fields)))
    ensures |TextOf(Place(d, Obj(fields)))| == |TextOf(inner)| + 1 && |TextOf(within)| <= |TextOf(inner)|
  {
    InnerFields(d, fields, within, inner);
    EndOfObj(d, fields, inner);
    TextOfPlaced(d, Obj(fields));
    TextOfSnoc(inner, d.frames, InObj(fields, None));
    TextOfSnoc(within, d.frames, InObj([], None));
    BodyOfObj(fields);
  }

  lemma ObjShape(fields: seq<Field>)
    ensures Writable(Obj(fields)) <==> FieldsWritable(fields)
    ensures Depth(Obj(fields)) == 1 + DepthFields(fields)
  {}

  lemma ObjFits(cap: nat, d: Doc, fields: seq<Field>, within: Doc, inner: Doc, final: Doc)
    requires CanPlace(d) && DocOk(d) && Build(d, Call.Begin(true)) == Some(within) && ObjTop(within)
    requires inner == WithFields(within, fields) && final == Place(d, Obj(fields))
    ensures |within.frames| == |d.frames| + 1 && |final.frames| == |d.frames| && Build(inner, Call.End(true)) == Some(final)
    ensures Fits(cap, d, Obj(fields))
            <==> |within.frames| <= MAX_DEPTH && |TextOf(within)| < cap && FieldsFit(cap, within, fields) && |TextOf(final)| < cap
  {
    ClosedFields(d, fields, within, inner);
    ObjShape(fields);
  }

  lemma OpensObj(w: Writer, cap: nat, d: Doc, within: Doc)
    requires Rep(w, cap, d) && CanPlace(d) && within == Build(d, Call.Begin(true)).value
    ensures ObjTop(within) && (Do(w, cap, Call.Begin(true)).Writing? ==> Rep(Do(w, cap, Call.Begin(true)), cap, within))
  {
    CallIsExact(w, cap, d, Call.Begin(true));
  }

  lemma {:induction false} EmitObj(w: Writer, cap: nat, d: Doc, fields: seq<Field>)
    requires Rep(w, cap, d) && CanPlace(d)
    ensures WritesExactly(w, cap, Emit(Obj(fields)), Fits(cap, d, Obj(fields)), Place(d, Obj(fields)))
    decreases fields, 2
  {
    var b, e := Call.Begin(true), Call.End(true);
    var within := Build(d, b).value;
    OpensObj(w, cap, d, within);
    var inner, final := WithFields(within, fields), Place(d, Obj(fields));
    ObjFits(cap, d, fields, within, inner, final);
    if Do(w, cap, b).Writing? { EmitFieldsWrites(Do(w, cap, b), cap, within, fields); }
    Enclosed(w, cap, d, b, EmitFields(fields), e, within, inner, final, FieldsFit(cap, within, fields), Fits(cap, d, Obj(fields)));
  }

  /** The document with last's key written and its value awaited. */
  function Keyed(d: Doc, k: Text): Doc
    requires ObjTop(d)
  {
    Build(d, Call.Key(k)).value
  }

  lemma KeyedText(d: Doc, k: Text, keyed: Doc)
    requires ObjTop(d) && keyed == Keyed(d, k)
    ensures CanPlace(keyed) && |keyed.frames| == |d.frames| && |TextOf(d)| <= |TextOf(keyed)|
  {
    var n := |d.frames| - 1;
    assert keyed.frames[..n] == d.frames[..n];
    KeyText(Leads(d.frames[..n]), d.frames[n], k);
  }

  lemma KeyedPlace(d: Doc, fields: seq<Field>, init: seq<Field>, last: Field, mid: Doc, keyed: Doc)
    requires ObjTop(d) && fields == init + [last] && mid == WithFields(d, init) && keyed == Keyed(mid, last.key)
    ensures CanPlace(keyed) && Place(keyed, last.value) == WithFields(d, fields)
  {
    var n := |d.frames| - 1;
    assert mid.frames[..n] == d.frames[..n] && keyed.frames[..n] == d.frames[..n];
    assert d.frames[n].fields + fields == (d.frames[n].fields + init) + [last];
  }

  lemma FieldsSplit(cap: nat, d: Doc, fields: seq<Field>, init: seq<Field>, last: Field, mid: Doc, keyed: Doc)
    requires ObjTop(d) && fields == init + [last] && mid == WithFields(d, init) && keyed == Keyed(mid, last.key)
    ensures CanPlace(keyed) && Place(keyed, last.value) == WithFields(d, fields)
    ensures FieldsFit(cap, d, fields) <==>
              FieldsFit(cap, d, init) && Ascii(last.key) && |TextOf(keyed)| < cap && Fits(cap, keyed, last.value)
  {
    KeyedPlace(d, fields, init, last, mid, keyed);
    KeyedText(mid, last.key, keyed);
    TextGrows(keyed, last.value);
    assert fields[..|fields| - 1] == init;
    WritableSplit(fields, init, last);
  }

  lemma WritableSplit(fields: seq<Field>, init: seq<Field>, last: Field)
    requires fields == init + [last]
    ensures FieldsWritable(fields) <==> FieldsWritable(init) && Ascii(last.key) && Writable(last.value)
  {
    assert forall i :: 0 <= i < |init| ==> fields[i] == init[i];
    assert fields[|init|] == last;
  }

  lemma EmitFieldWrites(w: Writer, cap: nat, d: Doc, f: Field, keyed: Doc)
    requires Rep(w, cap, d) && ObjTop(d) && keyed == Keyed(d, f.key) && CanPlace(keyed)
    ensures WritesExactly(w, cap, EmitField(f), Ascii(f.key) && |TextOf(keyed)| < cap && Fits(cap, keyed, f.value),
                          Place(keyed, f.value))
    decreases f, 0
  {
    var c := Call.Key(f.key);
    var w' := Do(w, cap, c);
    CallIsExact(w, cap, d, c);
    assert EmitField(f)[0] == c && EmitField(f)[1..] == Emit(f.value);
    if w'.Writing? {
      EmitWrites(w', cap, keyed, f.value);
    } else {
      FailedStays(cap, Emit(f.value));
    }
  }

  lemma NoFields(d: Doc)
    requires ObjTop(d)
    ensures WithFields(d, []) == d
  {
    var n := |d.frames| - 1;
    assert d.frames[n].fields + [] == d.frames[n].fields && d.frames[..n] + [d.frames[n]] == d.frames;
  }

  lemma FieldsStep(w: Writer, cap: nat, d: Doc, fields: seq<Field>, init: seq<Field>, last: Field, mid: Doc, keyed: Doc)
    requires ObjTop(d) && fields == init + [last] && mid == WithFields(d, init) && keyed == Keyed(mid, last.key)
    requires WritesExactly(w, cap, EmitFields(init), FieldsFit(cap, d, init), mid)
    requires CanPlace(keyed) && (FieldsFit(cap, d, init) ==>
               WritesExactly(DoAll(w, cap, EmitFields(init)), cap, EmitField(last),
                             Ascii(last.key) && |TextOf(keyed)| < cap && Fits(cap, keyed, last.value), Place(keyed, last.value)))
    ensures WritesExactly(w, cap, EmitFields(init) + EmitField(last), FieldsFit(cap, d, fields), WithFields(d, fields))
  {
    FieldsSplit(cap, d, fields, init, last, mid, keyed);
    Then(w, cap, EmitFields(init), EmitField(last), EmitFields(init) + EmitField(last), FieldsFit(cap, d, init),
         Ascii(last.key) && |TextOf(keyed)| < cap && Fits(cap, keyed, last.value), mid, WithFields(d, fields));
  }

  lemma {:induction false} EmitFieldsWrites(w: Writer, cap: nat, d: Doc, fields: seq<Field>)
    requires Rep(w, cap, d) && ObjTop(d)
    ensures WritesExactly(w, cap, EmitFields(fields), FieldsFit(cap, d, fields), WithFields(d, fields))
    decreases fields, 1
  {
    if fields == [] {
      NoFields(d);
    } else {
      var init, last := fields[..|fields| - 1], fields[|fields| - 1];
      var mid := WithFields(d, init);
      var keyed := Keyed(mid, last.key);
      InitAndLast(fields);
      KeyedText(mid, last.key, keyed);
      EmitFieldsWrites(w, cap, d, init);
      if FieldsFit(cap, d, init) { EmitFieldWrites(DoAll(w, cap, EmitFields(init)), cap, mid, last, keyed); }
      FieldsStep(w, cap, d, fields, init, last, mid, keyed);
    }
  }

  lemma InitRep(cap: nat)
    requires cap > 0
    ensures Rep(Init(cap), cap, EMPTY) && CanPlace(EMPTY)
  {}

  /** Completeness: a value's calls, made on a fresh writer, succeed exactly when its strings are
      ASCII, its numbers are numbers, it nests at most eight deep and its text is shorter than cap;
      then the buffer is its text. */
  lemma ValueIsWritten(cap: nat, v: Value)
    ensures var w := DoAll(Init(cap), cap, Emit(v));
            if Writable(v) && Depth(v) <= MAX_DEPTH && |Show(v)| < cap
            then Finish(w) == |Show(v)| && w.out == Show(v)
            else Finish(w) == -1
  {
    if cap == 0 {
      FailedStays(cap, Emit(v));
    } else {
      InitRep(cap);
      EmitWrites(Init(cap), cap, EMPTY, v);
    }
  }

  lemma {:induction false} PlainDoesTheSame(w: Writer, cap: nat, calls: seq<Call>)
    ensures DoAll(w, cap, PlainAll(calls)) == DoAll(w, cap, calls)
    decreases |calls|
  {
    if calls != [] {
      var init, c := calls[..|calls| - 1], calls[|calls| - 1];
      assert calls == init + [c];
      DoAllSnoc(w, cap, init, c);
      DoAllSnoc(w, cap, PlainAll(init), Plain(c));
      PlainDoesTheSame(w, cap, init);
      if c.Integer? { IntegerIsNumeral(DoAll(w, cap, init), cap, c.v); }
    }
  }

  lemma IntegerIsNumeral(w: Writer, cap: nat, v: int)
    ensures Do(w, cap, Integer(v)) == Do(w, cap, Numeral(IntText(v))) && IntText(v) == ShowInt(v)
  {
    ShowIntIsNumber(v);
    ScanIsGrammar(ShowInt(v));
    ShowIntHasNoNul(v);
  }

  lemma {:induction false} DecimalHasNoNul(n: nat)
    ensures forall i :: 0 <= i < |Decimal(n)| ==> Decimal(n)[i] != '\0'
    decreases n
  {
    if n >= 10 { DecimalHasNoNul(n / 10); }
  }

  lemma ShowIntHasNoNul(v: int)
    ensures forall i :: 0 <= i < |ShowInt(v)| ==> ShowInt(v)[i] != '\0'
  {
    DecimalHasNoNul(if v < 0 then -v else v);
  }

  /** For every sequence of calls: json_finish succeeds exactly when the calls describe one writable
      value of at most eight levels whose text fits. */
  lemma FinishSucceedsExactly(cap: nat, calls: seq<Call>)
    ensures Finish(DoAll(Init(cap), cap, calls)) >= 0
            <==> exists v :: PlainAll(calls) == Emit(v) && Writable(v) && Depth(v) <= MAX_DEPTH && |Show(v)| < cap
  {
    var w := DoAll(Init(cap), cap, calls);
    PlainDoesTheSame(Init(cap), cap, calls);
    if Finish(w) >= 0 {
      var v := FinishedIsTheValue(cap, calls);
      ValueIsWritten(cap, v);
    }
    forall v | PlainAll(calls) == Emit(v) && Writable(v) && Depth(v) <= MAX_DEPTH && |Show(v)| < cap ensures Finish(w) >= 0 {
      ValueIsWritten(cap, v);
    }
  }
}
