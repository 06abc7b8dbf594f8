/** The log's record format as a codec, and what its records mean to the scan. */
module LogFormat {
  import opened Crc
  import opened Bytes
  import opened Framing
  import opened Log
  import opened Record
  import Note

  const EV_RING_GEN: u16 := 0x0501
  const EV_RING_SEQ: u16 := 0x0502

  datatype Format = Format(codec: Codec<Rec>, view: Rec -> Item)

  /** An event's body: code, text length, text. */
  function EventBody(code: u16, text: seq<byte>): seq<byte>
    requires |text| <= EVENT_TEXT_MAX
  {
    Put2(code) + Put2(|text|) + text
  }

  /** What one record means: the batch marks, a sample, a ring note, or nothing to the scan. */
  function WhatOf(r: Rec): What {
    if r.kind == BEGIN && |r.body| == 8 then Begin(Get8(r.body))
    else if r.kind == COMMIT && |r.body| == 16 then Commit(Get8(r.body[..8]))
    else if r.kind == SAMPLE && |r.body| == 12 then Sample(if r.body[0] == 0 then 1 else 0, Reading(r.src, r.mono, r.body))
    else if r.kind == SHUTDOWN then Shutdown
    else if r.kind == EVENT && |r.body| >= 4 then EventOf(Get2(r.body[..2]), r.body[4..])
    else Other
  }

  function EventOf(code: u16, text: seq<byte>): What {
    if code == EV_RING_GEN then
      match Note.ScanNote(Note.GEN_EQ, text)
      case Some((ns, g)) => if ns < 2 then RingGen(ns, g) else Other
      case None => Other
    else if code == EV_RING_SEQ then
      match Note.ScanNote(Note.SEQ_EQ, text)
      case Some((ns, q)) => if ns < 2 then RingSeq(ns, q) else Other
      case None => Other
    else Other
  }

  function ItemOf(r: Rec): Item { Item(WhatOf(r), r.seqNo, r.bootId) }

  function EncodeRec(r: Rec): seq<byte> {
    if |r.body| <= MAX_BODY then RecBytes(r) else []
  }

  function DecodeRec(s: seq<byte>): Option<(Rec, nat)> {
    match Decode(s)
    case Ok(r, n) => Some((r, n))
    case Bad(_) => None
  }

  const CWR1 := Format(Codec(ValidRec, EncodeRec, DecodeRec), ItemOf)

  // ------------------------------------------------------------------ what the log needs of a format

  /** A record's length, and which records begin, commit and sample. */
  ghost predicate MarksOf(fmt: Format, r: Rec) {
    var w := fmt.view(r).what;
    && (fmt.codec.valid(r) <==> ValidRec(r))
    && fmt.view(r).seqNo == r.seqNo && fmt.view(r).bootId == r.bootId
    && (ValidRec(r) ==>
          && |fmt.codec.enc(r)| == HDR_SIZE + |r.body| + CRC_SIZE
          && (w.Begin? <==> r.kind == BEGIN) && (w.Commit? <==> r.kind == COMMIT) && (w.Sample? <==> r.kind == SAMPLE)
          && (r.kind == SAMPLE ==> w.ns < 2 && w.reading == Reading(r.src, r.mono, r.body))
          && (w.RingGen? || w.RingSeq? ==> r.kind == EVENT))
  }

  ghost predicate ReadsMark(fmt: Format, r: Rec, txn: u64) {
    && (ValidRec(r) && r.kind == BEGIN && r.body == Put8(txn) ==> fmt.view(r).what == Begin(txn))
    && (ValidRec(r) && r.kind == COMMIT && r.body[..8] == Put8(txn) ==> fmt.view(r).what == Commit(txn))
  }

  ghost predicate ReadsNote(fmt: Format, r: Rec, ns: nat, v: u64) {
    ns < 2 && r.kind == EVENT ==>
      && |Note.NoteText(Note.GEN_EQ, ns, v)| <= 25 && |Note.NoteText(Note.SEQ_EQ, ns, v)| <= 25
      && (r.body == EventBody(EV_RING_GEN, Note.NoteText(Note.GEN_EQ, ns, v)) ==>
            (SrcOk(r.src) ==> ValidRec(r)) && |r.body| <= 29 && fmt.view(r).what == RingGen(ns, v))
      && (r.body == EventBody(EV_RING_SEQ, Note.NoteText(Note.SEQ_EQ, ns, v)) ==>
            (SrcOk(r.src) ==> ValidRec(r)) && |r.body| <= 29 && fmt.view(r).what == RingSeq(ns, v))
  }

  ghost predicate Good(fmt: Format) {
    && Lawful(fmt.codec)
    && (forall r :: MarksOf(fmt, r))
    && (forall r, txn :: ReadsMark(fmt, r, txn))
    && (forall r, ns, v :: ReadsNote(fmt, r, ns, v))
  }

  // ------------------------------------------------------------------ the record format is such a format

  lemma Cwr1Lawful()
    ensures Lawful(CWR1.codec)
  {
    var c := CWR1.codec;
    forall r, tail ensures DecodesEncoding(c, r, tail) {
      if ValidRec(r) { DecodeOfRecBytes(r, tail); }
    }
    forall s ensures EncodesDecoding(c, s) {
      if Decode(s).Ok? { RecBytesOfDecode(s); }
    }
  }

  lemma Cwr1Marks(r: Rec)
    ensures MarksOf(CWR1, r)
  {}

  lemma Cwr1ReadsMark(r: Rec, txn: u64)
    ensures ReadsMark(CWR1, r, txn)
  {
    Get8OfPut8(txn);
  }

  lemma EventReads(code: u16, text: seq<byte>, body: seq<byte>)
    requires |text| <= EVENT_TEXT_MAX && body == EventBody(code, text)
    ensures |body| == 4 + |text| && Get2(body[..2]) == code && body[4..] == text && EventOk(body)
  {
    assert body[..2] == Put2(code) && body[2..4] == Put2(|text|);
    Get2OfPut2(code);
    Get2OfPut2(|text|);
  }

  lemma Cwr1ReadsNote(r: Rec, ns: nat, v: u64)
    ensures ReadsNote(CWR1, r, ns, v)
  {
    if ns < 2 && r.kind == EVENT {
      Note.NoteTextFits(Note.GEN_EQ, ns, v);
      Note.NoteTextFits(Note.SEQ_EQ, ns, v);
      var g, q := Note.NoteText(Note.GEN_EQ, ns, v), Note.NoteText(Note.SEQ_EQ, ns, v);
      if r.body == EventBody(EV_RING_GEN, g) {
        EventReads(EV_RING_GEN, g, r.body);
        Note.NoteReadsBack(Note.GEN_EQ, ns, v);
      }
      if r.body == EventBody(EV_RING_SEQ, q) {
        EventReads(EV_RING_SEQ, q, r.body);
        Note.NoteReadsBack(Note.SEQ_EQ, ns, v);
      }
    }
  }

  /** The on-disk format is lawful, marks batches as the writer means, and gives ring notes back. */
  lemma Cwr1IsGood()
    ensures Good(CWR1)
  {
    Cwr1Lawful();
    forall r ensures MarksOf(CWR1, r) { Cwr1Marks(r); }
    forall r, txn ensures ReadsMark(CWR1, r, txn) { Cwr1ReadsMark(r, txn); }
    forall r, ns, v ensures ReadsNote(CWR1, r, ns, v) { Cwr1ReadsNote(r, ns, v); }
  }

  // ------------------------------------------------------------------ damage to a whole log

  lemma UndecodableEndsCwr1(before: seq<Rec>, rest: seq<byte>)
    requires AllValid(CWR1.codec, before) && !Decode(rest).Ok?
    ensures Committed(CWR1.codec, ItemOf, Flat(CWR1.codec, before) + rest)
            == before[..CommittedCount(Items(ItemOf, before))]
  {
    Cwr1Lawful();
    UndecodableEndsLog(CWR1.codec, ItemOf, before, rest);
  }

  /** One byte changed in any record of a log, whatever follows it, loses that record and what
      follows and nothing before: the scan keeps exactly the whole batches that end before it. */
  lemma DamageKeepsEarlierBatches(before: seq<Rec>, r: Rec, e: seq<byte>, tail: seq<byte>, i: nat, b: byte, rest: seq<byte>)
    requires i < |e| && b != e[i] && rest == (e + tail)[i := b]
    requires AllValid(CWR1.codec, before) && ValidRec(r) && e == RecBytes(r)
    ensures Committed(CWR1.codec, ItemOf, Flat(CWR1.codec, before) + rest) == before[..CommittedCount(Items(ItemOf, before))]
  {
    DamagedIsUndecodable(r, e, tail, i, b, rest);
    UndecodableEndsCwr1(before, rest);
  }

  lemma DamagedIsUndecodable(r: Rec, e: seq<byte>, tail: seq<byte>, i: nat, b: byte, rest: seq<byte>)
    requires ValidRec(r) && e == RecBytes(r) && i < |e| && b != e[i] && rest == (e + tail)[i := b]
    ensures !Decode(rest).Ok?
  {
    OneByteDamageIsCaught(r, tail, i, b);
  }
}
