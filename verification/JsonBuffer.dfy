/** json_t in place: the writer over the caller's buffer. */
module JsonBuffer {
  import opened Framing
  import opened Number
  import opened Json
  import opened JsonWriter
  import opened Memory

  lemma PutTwice(w: Writer, cap: nat, a: string, b: string)
    ensures Put(Put(w, cap, a), cap, b) == Put(w, cap, a + b)
  {
    if w.Writing? { assert w.out + a + b == w.out + (a + b); }
  }

  lemma AsciiSoFar(s: string, i: nat)
    requires i < |s| && Ascii(s[..i])
    ensures Ascii(s[..i + 1]) <==> s[i] < 0x80 as char
    ensures s[i] >= 0x80 as char ==> !Ascii(s)
    ensures Escaped(s[..i + 1]) == Escaped(s[..i]) + Escape(s[i])
  {
    assert s[..i + 1][..i] == s[..i] && s[..i + 1][i] == s[i];
  }

  /** The open containers, from the two flag arrays. */
  function Stack(isObject: seq<bool>, hasItem: seq<bool>, depth: nat): (stack: seq<Open>)
    requires depth <= |isObject| && depth <= |hasItem|
    ensures |stack| == depth && forall i :: 0 <= i < depth ==> stack[i] == Open(isObject[i], hasItem[i])
  {
    seq(depth, i requires 0 <= i < depth => Open(isObject[i], hasItem[i]))
  }

  /** put_quoted has dealt with i characters of s. */
  ghost predicate QuotedTo(w: Writer, cap: nat, s: Text, i: nat, now: Writer)
    requires i <= |s|
  {
    now == if Ascii(s[..i]) then Put(w, cap, ['"'] + Escaped(s[..i])) else Failed
  }

  lemma QuotedStart(w: Writer, cap: nat, s: Text, now: Writer)
    requires now == Put(w, cap, ['"'])
    ensures QuotedTo(w, cap, s, 0, now)
  {
    assert s[..0] == "" && ['"'] + "" == ['"'];
  }

  lemma QuotedNext(w: Writer, cap: nat, s: Text, i: nat, now: Writer)
    requires i < |s| && QuotedTo(w, cap, s, i, now) && now.Writing?
    ensures QuotedTo(w, cap, s, i + 1, if s[i] < 0x80 as char then Put(now, cap, Escape(s[i])) else Failed)
  {
    if Ascii(s[..i]) {
      AsciiSoFar(s, i);
      PutMore(w, cap, Escaped(s[..i]), Escape(s[i]), now);
    }
  }

  lemma PutMore(w: Writer, cap: nat, a: string, b: string, now: Writer)
    requires now == Put(w, cap, ['"'] + a)
    ensures Put(now, cap, b) == Put(w, cap, ['"'] + (a + b))
  {
    PutTwice(w, cap, ['"'] + a, b);
    assert ['"'] + a + b == ['"'] + (a + b);
  }

  /** At the end of the loop: all of s is out, or the writer has failed for good. */
  lemma QuotedFrom(w: Writer, cap: nat, s: Text, i: nat, now: Writer)
    requires i <= |s| && QuotedTo(w, cap, s, i, now) && (i < |s| ==> now.Failed?)
    ensures Put(now, cap, ['"']) == PutQuoted(w, cap, s)
  {
    assert !Ascii(s[..i]) ==> !Ascii(s);
    if i == |s| {
      assert s[..i] == s;
      PutTwice(w, cap, ['"'] + Escaped(s), ['"']);
    } else if Ascii(s) {
      EscapedLonger(s, i);
    }
  }

  lemma {:induction false} EscapedLonger(s: string, i: nat)
    requires i <= |s|
    ensures |Escaped(s[..i])| <= |Escaped(s)|
  {
    if i < |s| {
      EscapedLonger(s[..|s| - 1], i);
      assert s[..|s| - 1][..i] == s[..i];
    } else {
      assert s[..i] == s;
    }
  }

  lemma KeyComposed(w: Writer, cap: nat, key: Text, a: Writer, c: Writer)
    requires w.Writing? && w.stack != [] && w.stack[|w.stack| - 1].obj && !w.afterKey
    requires var top := |w.stack| - 1;
             a == Put(Writing(w.out, w.stack[top := Open(true, true)], w.afterKey, w.done), cap,
                      if w.stack[top].hasItem then "," else "")
    requires c == Put(PutQuoted(a, cap, key), cap, [':'])
    ensures WriteKey(w, cap, key) == if c.Failed? then Failed else Writing(c.out, c.stack, true, c.done)
  {}

  class JsonText {
    const buf: array<char>
    const cap: nat
    var len: nat
    var depth: nat
    var isObject: seq<bool>
    var hasItem: seq<bool>
    var afterKey: bool
    var done: bool
    var failed: bool

    ghost predicate Valid()
      reads this, buf
    {
      && cap <= buf.Length && |isObject| == MAX_DEPTH && |hasItem| == MAX_DEPTH && depth <= MAX_DEPTH
      && (!failed ==> len < cap && buf[len] == '\0')
    }

    /** What has been written, while nothing has failed. */
    ghost function Model(): Writer
      requires Valid()
      reads this, buf
    {
      if failed then Failed
      else Writing(buf[..len], Stack(isObject, hasItem, depth), afterKey, done)
    }

    /** Nothing at or past cap changes. */
    twostate predicate InBounds()
      reads this, buf
    {
      cap <= buf.Length && buf[cap..] == old(buf[cap..])
    }

    /** json_init. */
    constructor (b: array<char>, n: nat)
      requires n <= b.Length
      modifies b
      ensures Valid() && buf == b && cap == n && Model() == Init(n) && b[n..] == old(b[n..])
    {
      buf, cap := b, n;
      len, depth := 0, 0;
      isObject, hasItem := seq(MAX_DEPTH, _ => false), seq(MAX_DEPTH, _ => false);
      afterKey, done, failed := false, false, n == 0;
      new;
      if n > 0 { b[0] := '\0'; }
    }

    method Fail()
      requires Valid()
      modifies this`failed
      ensures Valid() && Model() == Failed
    {
      failed := true;
    }

    /** put. */
    method PutText(s: string)
      requires Valid()
      modifies this`len, this`failed, buf
      ensures Valid() && Model() == Put(old(Model()), cap, s) && InBounds()
    {
      if failed { return; }
      if |s| >= cap - len {
        failed := true;
        return;
      }
      Copy(buf, len, s);
      ghost var written := buf[..];
      assert written[..len + |s|] == old(buf[..len]) + s && written[cap..] == old(buf[cap..]);
      len := len + |s|;
      buf[len] := '\0';
      assert buf[..len] == written[..len] && buf[cap..] == written[cap..];
    }

    /** begin_value. */
    method StartValue() returns (ok: bool)
      requires Valid()
      modifies this`len, this`failed, this`afterKey, this`hasItem, buf
      ensures Valid() && Model() == BeginValue(old(Model()), cap) && ok == !failed && InBounds()
    {
      if failed { return false; }
      if depth == 0 {
        failed := done;
        return !failed;
      }
      var top := depth - 1;
      if isObject[top] {
        if !afterKey {
          failed := true;
          return false;
        }
        afterKey := false;
        return true;
      }
      var comma := if hasItem[top] then "," else "";
      hasItem := hasItem[top := true];
      assert Stack(isObject, hasItem, depth) == Stack(isObject, old(hasItem), depth)[top := Open(false, true)];
      PutText(comma);
      ok := !failed;
    }

    /** end_value. */
    method FinishValue()
      requires Valid()
      modifies this`done
      ensures Valid() && Model() == EndValue(old(Model()))
    {
      if depth == 0 { done := true; }
    }

    /** put_scalar. */
    method PutScalarText(text: string)
      requires Valid()
      modifies this, buf
      ensures Valid() && Model() == PutScalar(old(Model()), cap, text) && InBounds()
    {
      var ok := StartValue();
      if !ok { return; }
      PutText(text);
      FinishValue();
    }

    /** One byte of put_quoted. */
    method PutEscaped(c: char)
      requires Valid()
      modifies this`len, this`failed, buf
      ensures Valid() && Model() == (if c < 0x80 as char then Put(old(Model()), cap, Escape(c)) else Failed) && InBounds()
    {
      if c >= 0x80 as char { failed := true; } else { PutText(Escape(c)); }
    }

    /** put_quoted: byte by byte, stopping when the writer fails. */
    method PutQuotedText(s: Text)
      requires Valid()
      modifies this`len, this`failed, buf
      ensures Valid() && Model() == PutQuoted(old(Model()), cap, s) && InBounds()
    {
      ghost var w := Model();
      PutText(['"']);
      QuotedStart(w, cap, s, Model());
      var i := 0;
      while i < |s| && !failed
        invariant 0 <= i <= |s| && Valid() && InBounds() && QuotedTo(w, cap, s, i, Model())
        decreases |s| - i
      {
        QuotedNext(w, cap, s, i, Model());
        PutEscaped(s[i]);
        i := i + 1;
      }
      QuotedFrom(w, cap, s, i, Model());
      PutText(['"']);
    }

    method StartContainer(obj: bool)
      requires Valid()
      modifies this, buf
      ensures Valid() && Model() == BeginContainer(old(Model()), cap, obj) && InBounds()
    {
      var ok := StartValue();
      if !ok { return; }
      if depth >= MAX_DEPTH {
        failed := true;
        return;
      }
      ghost var stack := Stack(isObject, hasItem, depth);
      isObject, hasItem := isObject[depth := obj], hasItem[depth := false];
      depth := depth + 1;
      assert Stack(isObject, hasItem, depth) == stack + [Open(obj, false)];
      PutText(if obj then "{" else "[");
    }

    method EndOfContainer(obj: bool)
      requires Valid()
      modifies this, buf
      ensures Valid() && Model() == EndContainer(old(Model()), cap, obj) && InBounds()
    {
      if failed { return; }
      if depth == 0 || isObject[depth - 1] != obj || afterKey {
        failed := true;
        return;
      }
      ghost var stack := Stack(isObject, hasItem, depth);
      depth := depth - 1;
      assert Stack(isObject, hasItem, depth) == stack[..depth];
      PutText(if obj then "}" else "]");
      FinishValue();
    }

    /** The comma before a key, if its object holds an item already. */
    method PutKeyComma()
      requires Valid() && !failed && depth > 0
      modifies this`len, this`failed, this`hasItem, buf
      ensures Valid() && InBounds()
      ensures var w, top := old(Model()), depth - 1;
              Model() == Put(Writing(w.out, w.stack[top := Open(isObject[top], true)], w.afterKey, w.done), cap,
                             if w.stack[top].hasItem then "," else "")
    {
      var top := depth - 1;
      ghost var stack := Stack(isObject, hasItem, depth);
      var comma := if hasItem[top] then "," else "";
      hasItem := hasItem[top := true];
      assert Stack(isObject, hasItem, depth) == stack[top := Open(isObject[top], true)];
      PutText(comma);
    }

    /** The key itself and its colon. */
    method PutName(key: Text)
      requires Valid()
      modifies this`len, this`failed, buf
      ensures Valid() && Model() == Put(PutQuoted(old(Model()), cap, key), cap, [':']) && InBounds()
    {
      PutQuotedText(key);
      PutText([':']);
    }

    /** json_key. */
    method PutKey(key: Text)
      requires Valid()
      modifies this`len, this`failed, this`hasItem, this`afterKey, buf
      ensures Valid() && Model() == WriteKey(old(Model()), cap, key) && InBounds()
    {
      if failed { return; }
      if depth == 0 || !isObject[depth - 1] || afterKey {
        failed := true;
        return;
      }
      ghost var w := Model();
      PutKeyComma();
      ghost var a := Model();
      PutName(key);
      KeyComposed(w, cap, key, a, Model());
      afterKey := true;
    }

    /** Any one call of json.h. */
    method Perform(c: Call)
      requires Valid()
      modifies this, buf
      ensures Valid() && Model() == Do(old(Model()), cap, c) && InBounds()
    {
      match c
      case Begin(obj) => StartContainer(obj);
      case End(obj) => EndOfContainer(obj);
      case Key(k) => PutKey(k);
      case String(s) =>
        var ok := StartValue();
        if ok {
          PutQuotedText(s);
          FinishValue();
        }
      case Integer(v) => PutScalarText(IntText(v));
      case Boolean(b) => PutScalarText(if b then "true" else "false");
      case JsonNull => PutScalarText("null");
      case Numeral(text) =>
        var ok := JsonIsNumber(text);
        ScanIsGrammar(text);
        if ok { PutScalarText(text); } else { Fail(); }
    }

    /** json_finish. */
    method Length() returns (n: int)
      requires Valid()
      ensures n == Finish(Model())
      ensures n >= 0 ==> n < cap && buf[..n] == Model().out && buf[n] == '\0'
    {
      n := if failed || depth != 0 || !done then -1 else len;
    }
  }
}
