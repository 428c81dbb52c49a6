/**
 * The byte format of the write-ahead log and what replay makes of any file.
 *
 * A record is a 20-byte header (magic, type, three bytes of padding, key size,
 * value size, checksum), then the key, then the value. The padding of the
 * header struct is whatever the memory held, so it is a parameter of encoding.
 */
module WalFormat {
  import opened Bytes
  import opened Fnv

  const MAGIC: nat := 0x4b56574c
  const HEADER: nat := 20

  datatype RecordType = PutRecord | DeleteRecord
  datatype LogRecord = LogRecord(kind: RecordType, key: Bytes, value: Bytes)

  function TypeByte(kind: RecordType): byte { if kind.PutRecord? then 1 else 2 }

  /** The sizes are cast to 32 bits; beyond that a record is not what was written. */
  predicate Encodable(r: LogRecord) { |r.key| < TWO32 && |r.value| < TWO32 }

  function HashInput(r: LogRecord): Bytes {
    [TypeByte(r.kind)] + Le32(|r.key| % TWO32) + Le32(|r.value| % TWO32) + r.key + r.value
  }

  function Checksum(r: LogRecord): nat { Hash(OFFSET_BASIS, HashInput(r)) }

  function Header(r: LogRecord, pad: Bytes): (h: Bytes)
    requires |pad| == 3
    ensures |h| == HEADER
  {
    Le32(MAGIC) + [TypeByte(r.kind)] + pad + Le32(|r.key| % TWO32) + Le32(|r.value| % TWO32) + Le32(Checksum(r))
  }

  function Encode(r: LogRecord, pad: Bytes): (e: Bytes)
    requires |pad| == 3
    ensures |e| == HEADER + |r.key| + |r.value|
  {
    Header(r, pad) + r.key + r.value
  }

  // ------------------------------------------------------------------- replay

  datatype ReplayError = InvalidMagic | UnknownType | ChecksumMismatch

  datatype Parsed = Torn | Bad(error: ReplayError) | Good(record: LogRecord, length: nat)

  datatype Fields = Fields(magic: nat, kind: byte, keySize: nat, valueSize: nat, checksum: nat)

  /** The header struct, its padding ignored. */
  function FieldsOf(h: Bytes): Fields
    requires |h| == HEADER
  {
    Fields(FromLe32(h[..4]), h[4], FromLe32(h[8..12]), FromLe32(h[12..16]), FromLe32(h[16..]))
  }

  /** The tests of the replay loop, in order, once a whole header has been read. */
  function Judge(f: Fields, body: Bytes): (p: Parsed)
    ensures p.Good? ==> p.length == HEADER + f.keySize + f.valueSize <= HEADER + |body|
  {
    if f.magic != MAGIC then Bad(InvalidMagic)
    else if f.kind != 1 && f.kind != 2 then Bad(UnknownType)
    else if |body| < f.keySize + f.valueSize then Torn
    else
      var r := LogRecord(if f.kind == 1 then PutRecord else DeleteRecord,
                         body[..f.keySize], body[f.keySize..f.keySize + f.valueSize]);
      if Checksum(r) != f.checksum then Bad(ChecksumMismatch) else Good(r, HEADER + f.keySize + f.valueSize)
  }

  /** What one turn of the replay loop makes of the bytes that are left. */
  function ParseRecord(bs: Bytes): (p: Parsed)
    ensures p.Good? ==> HEADER <= p.length <= |bs|
  {
    if |bs| < HEADER then Torn else Judge(FieldsOf(bs[..HEADER]), bs[HEADER..])
  }

  /** Replay returns statistics or throws; either way it has applied some records first. */
  datatype Outcome = Replayed(applied: seq<LogRecord>, skipped: nat)
      | Refused(applied: seq<LogRecord>, error: ReplayError)

  function Prepend(r: LogRecord, o: Outcome): Outcome { o.(applied := [r] + o.applied) }

  function Replay(bs: Bytes): Outcome
    decreases |bs|
  {
    match ParseRecord(bs)
    case Torn => Replayed([], |bs|)
    case Bad(e) => Refused([], e)
    case Good(r, length) => Prepend(r, Replay(bs[length..]))
  }

  // ------------------------------------------------------------- one record

  function TrueFields(r: LogRecord): Fields { Fields(MAGIC, TypeByte(r.kind), |r.key|, |r.value|, Checksum(r)) }

  lemma HeaderSlices(r: LogRecord, pad: Bytes)
    requires |pad| == 3
    ensures var h := Header(r, pad);
            && h[..4] == Le32(MAGIC) && h[4] == TypeByte(r.kind) && h[5..8] == pad
            && h[8..12] == Le32(|r.key| % TWO32) && h[12..16] == Le32(|r.value| % TWO32)
            && h[16..] == Le32(Checksum(r))
  {
    hide Checksum, Le32;
  }

  lemma ChecksumFits(r: LogRecord)
    ensures Checksum(r) < TWO32
  {
    HashBound(OFFSET_BASIS, HashInput(r));
  }

  /** The bytes of a Put with a key of one byte and a value of two, and what its checksum covers. */
  lemma PutBytes(k: byte, v: byte, w: byte, pad: Bytes)
    requires |pad| == 3
    ensures var r := LogRecord(PutRecord, [k], [v, w]);
            && Encode(r, pad)[..16] == [0x4c, 0x57, 0x56, 0x4b, 1] + pad + [1, 0, 0, 0, 2, 0, 0, 0]
            && Encode(r, pad)[16..20] == Le32(Hash(0x811c9dc5, [1, 1, 0, 0, 0, 2, 0, 0, 0, k, v, w]))
            && Encode(r, pad)[20..] == [k, v, w]
  {
    var r := LogRecord(PutRecord, [k], [v, w]);
    assert Le32(MAGIC) == [0x4c, 0x57, 0x56, 0x4b] && Le32(1) == [1, 0, 0, 0] && Le32(2) == [2, 0, 0, 0];
    assert HashInput(r) == [1, 1, 0, 0, 0, 2, 0, 0, 0, k, v, w];
    HeaderSlices(r, pad);
    hide Hash, Le32;
    var h := Header(r, pad);
    assert h[..16] == h[..4] + [h[4]] + h[5..8] + h[8..12] + h[12..16];
  }

  lemma HeaderReads(r: LogRecord, pad: Bytes)
    requires Encodable(r) && |pad| == 3
    ensures FieldsOf(Header(r, pad)) == TrueFields(r)
  {
    hide Header, Checksum, FromLe32, Le32;
    HeaderSlices(r, pad);
    ChecksumFits(r);
    Le32RoundTrip(MAGIC);
    Le32RoundTrip(|r.key|);
    Le32RoundTrip(|r.value|);
    Le32RoundTrip(Checksum(r));
  }

  lemma JudgeTrue(r: LogRecord, rest: Bytes)
    ensures Judge(TrueFields(r), r.key + r.value + rest) == Good(r, HEADER + |r.key| + |r.value|)
  {
    hide Checksum;
    var body := r.key + r.value + rest;
    assert body[..|r.key|] == r.key && body[|r.key|..|r.key| + |r.value|] == r.value;
  }

  /** Replay reads back the record that was written, whatever follows it. */
  lemma ParseEncoded(r: LogRecord, pad: Bytes, rest: Bytes)
    requires Encodable(r) && |pad| == 3
    ensures ParseRecord(Encode(r, pad) + rest) == Good(r, |Encode(r, pad)|)
  {
    hide Header, FieldsOf, Judge;
    var bs := Encode(r, pad) + rest;
    assert bs[..HEADER] == Header(r, pad) && bs[HEADER..] == r.key + r.value + rest;
    HeaderReads(r, pad);
    JudgeTrue(r, rest);
  }

  /** A record cut short anywhere is a torn tail, not an error. */
  lemma ParseCut(r: LogRecord, pad: Bytes, n: nat)
    requires Encodable(r) && |pad| == 3 && n < |Encode(r, pad)|
    ensures ParseRecord(Encode(r, pad)[..n]) == Torn
  {
    hide Header, FieldsOf, Checksum;
    var bs := Encode(r, pad)[..n];
    if n >= HEADER {
      assert bs[..HEADER] == Header(r, pad);
      HeaderReads(r, pad);
    }
  }

  lemma HeaderParts(h: Bytes)
    requires |h| == HEADER
    ensures var f := FieldsOf(h);
            h == Le32(f.magic) + [f.kind] + h[5..8] + Le32(f.keySize) + Le32(f.valueSize) + Le32(f.checksum)
  {
    FromLe32Injective(h[..4]);
    FromLe32Injective(h[8..12]);
    FromLe32Injective(h[12..16]);
    FromLe32Injective(h[16..]);
    hide FromLe32, Le32;
    assert h == h[..4] + [h[4]] + h[5..8] + h[8..12] + h[12..16] + h[16..];
  }

  /** Replay accepts nothing but encodings of records. */
  lemma ParseSound(bs: Bytes)
    requires ParseRecord(bs).Good?
    ensures var p := ParseRecord(bs);
            Encodable(p.record) && p.length == |Encode(p.record, bs[5..8])|
                && bs[..p.length] == Encode(p.record, bs[5..8])
  {
    hide Checksum, FromLe32, Le32, FieldsOf, HashInput;
    var h, body := bs[..HEADER], bs[HEADER..];
    var f, p := FieldsOf(h), ParseRecord(bs);
    HeaderParts(h);
    HeaderRanges(h);
    var payload := f.keySize + f.valueSize;
    assert body[..payload] == p.record.key + p.record.value;
    assert h == Header(p.record, h[5..8]);
    hide Header, Judge;
    assert h[5..8] == bs[5..8];
    assert bs[..p.length] == h + body[..payload];
  }

  lemma HeaderRanges(h: Bytes)
    requires |h| == HEADER
    ensures FieldsOf(h).keySize < TWO32 && FieldsOf(h).valueSize < TWO32
  {
  }

  // ------------------------------------------------------------- corruption

  /** The bytes that the magic, type and checksum tests protect. */
  predicate Protected(r: LogRecord, i: nat) {
    i < 5 || 16 <= i < HEADER + |r.key| + |r.value|
  }

  lemma FromLe32Differs(a: Bytes, b: Bytes)
    requires |a| == |b| == 4 && a != b
    ensures FromLe32(a) != FromLe32(b)
  {
    FromLe32Injective(a);
    FromLe32Injective(b);
  }

  /** A changed header byte shows in exactly one protected field. */
  lemma HeaderChanged(r: LogRecord, pad: Bytes, i: nat, b: byte)
    requires Encodable(r) && |pad| == 3 && (i < 5 || 16 <= i) && i < HEADER && Header(r, pad)[i] != b
    ensures var f, f' := TrueFields(r), FieldsOf(Header(r, pad)[i := b]);
            && f'.keySize == f.keySize && f'.valueSize == f.valueSize
            && (i < 4 ==> f'.magic != MAGIC)
            && (i == 4 ==> f' == f.(kind := b))
            && (i >= 16 ==> f' == f.(checksum := f'.checksum) && f'.checksum != f.checksum)
  {
    var h := Header(r, pad);
    var h' := h[i := b];
    HeaderReads(r, pad);
    hide Header, Checksum, FromLe32;
    assert h'[8..12] == h[8..12] && h'[12..16] == h[12..16];
    if i < 4 {
      assert h'[..4][i] != h[..4][i];
      FromLe32Differs(h'[..4], h[..4]);
    } else {
      assert h'[..4] == h[..4];
    }
    if i >= 16 {
      assert h'[16..][i - 16] != h[16..][i - 16];
      FromLe32Differs(h'[16..], h[16..]);
    } else {
      assert h'[16..] == h[16..];
    }
  }

  /** The same bytes under the other type have another checksum. */
  lemma OtherTypeMismatch(r: LogRecord, b: byte, rest: Bytes)
    requires Encodable(r) && b != TypeByte(r.kind)
    ensures Judge(TrueFields(r).(kind := b), r.key + r.value + rest).Bad?
  {
    var body := r.key + r.value + rest;
    assert body[..|r.key|] == r.key && body[|r.key|..|r.key| + |r.value|] == r.value;
    if b == 1 || b == 2 {
      var r' := r.(kind := if b == 1 then PutRecord else DeleteRecord);
      assert HashInput(r') == HashInput(r)[0 := b];
      HashDetects(OFFSET_BASIS, HashInput(r), 0, b);
    }
  }

  lemma ChecksumMismatches(r: LogRecord, checksum: nat, rest: Bytes)
    requires checksum != Checksum(r)
    ensures Judge(TrueFields(r).(checksum := checksum), r.key + r.value + rest) == Bad(ChecksumMismatch)
  {
    hide Checksum;
    var body := r.key + r.value + rest;
    assert body[..|r.key|] == r.key && body[|r.key|..|r.key| + |r.value|] == r.value;
  }

  lemma InputParts(r: LogRecord)
    requires Encodable(r)
    ensures HashInput(r) == ([TypeByte(r.kind)] + Le32(|r.key|) + Le32(|r.value|)) + (r.key + r.value)
  {
    hide Le32;
  }

  /** The checksum of a record with one payload byte changed is another one. */
  lemma PayloadHash(r: LogRecord, r': LogRecord, k: nat, b: byte)
    requires Encodable(r) && k < |r.key| + |r.value| && (r.key + r.value)[k] != b
    requires r'.kind == r.kind && |r'.key| == |r.key| && |r'.value| == |r.value|
    requires r'.key + r'.value == (r.key + r.value)[k := b]
    ensures Checksum(r') != Checksum(r)
  {
    hide Le32, HashInput;
    InputParts(r);
    InputParts(r');
    assert HashInput(r') == HashInput(r)[9 + k := b];
    HashDetects(OFFSET_BASIS, HashInput(r), 9 + k, b);
  }

  lemma PayloadMismatches(r: LogRecord, k: nat, b: byte, rest: Bytes)
    requires Encodable(r) && k < |r.key| + |r.value| && (r.key + r.value)[k] != b
    ensures Judge(TrueFields(r), (r.key + r.value)[k := b] + rest) == Bad(ChecksumMismatch)
  {
    hide Judge, Checksum;
    var payload := (r.key + r.value)[k := b];
    var body := payload + rest;
    var r' := LogRecord(r.kind, payload[..|r.key|], payload[|r.key|..]);
    assert payload == r'.key + r'.value;
    assert body[..|r.key|] == r'.key && body[|r.key|..|r.key| + |r.value|] == r'.value;
    PayloadHash(r, r', k, b);
    JudgeOther(r, r', body);
  }

  lemma JudgeOther(r: LogRecord, r': LogRecord, body: Bytes)
    requires r'.kind == r.kind && |r'.key| == |r.key| && |r'.value| == |r.value| && Checksum(r') != Checksum(r)
    requires |body| >= |r.key| + |r.value|
    requires body[..|r.key|] == r'.key && body[|r.key|..|r.key| + |r.value|] == r'.value
    ensures Judge(TrueFields(r), body) == Bad(ChecksumMismatch)
  {
    hide Checksum;
  }

  /** A change of any one protected byte of a record is refused, whatever follows the record. */
  lemma ChangeDetected(r: LogRecord, pad: Bytes, i: nat, b: byte, rest: Bytes)
    requires Encodable(r) && |pad| == 3 && Protected(r, i) && Encode(r, pad)[i] != b
    ensures ParseRecord(Encode(r, pad)[i := b] + rest).Bad?
  {
    hide Header, FieldsOf, Checksum;
    var h, whole := Header(r, pad), Encode(r, pad);
    var bs := whole[i := b] + rest;
    HeaderReads(r, pad);
    if i < HEADER {
      assert bs[..HEADER] == h[i := b] && bs[HEADER..] == r.key + r.value + rest;
      HeaderChanged(r, pad, i, b);
      var f := FieldsOf(bs[..HEADER]);
      if i == 4 {
        HeaderSlices(r, pad);
        hide Judge;
        OtherTypeMismatch(r, b, rest);
      } else if i >= 16 {
        hide Judge;
        ChecksumMismatches(r, f.checksum, rest);
      }
    } else {
      hide Judge;
      assert bs[..HEADER] == h && bs[HEADER..] == (r.key + r.value)[i - HEADER := b] + rest;
      PayloadMismatches(r, i - HEADER, b, rest);
    }
  }

  // ------------------------------------------------------------- whole logs

  datatype Entry = Entry(record: LogRecord, pad: Bytes)

  predicate EntryOk(e: Entry) { Encodable(e.record) && |e.pad| == 3 }

  function EncodeEntry(e: Entry): Bytes
    requires EntryOk(e)
  {
    Encode(e.record, e.pad)
  }

  predicate EntriesOk(es: seq<Entry>) { forall e :: e in es ==> EntryOk(e) }

  function EncodeAll(es: seq<Entry>): Bytes
    requires EntriesOk(es)
  {
    if es == [] then [] else EncodeEntry(es[0]) + EncodeAll(es[1..])
  }

  function Records(es: seq<Entry>): seq<LogRecord> {
    if es == [] then [] else [es[0].record] + Records(es[1..])
  }

  /** The entries wholly contained in the first `n` bytes. */
  function Whole(es: seq<Entry>, n: nat): seq<Entry>
    requires EntriesOk(es)
  {
    if es == [] || n < |EncodeEntry(es[0])| then [] else [es[0]] + Whole(es[1..], n - |EncodeEntry(es[0])|)
  }

  lemma {:induction false} WholeIsPrefix(es: seq<Entry>, n: nat)
    requires EntriesOk(es)
    ensures Whole(es, n) <= es && EntriesOk(Whole(es, n)) && |EncodeAll(Whole(es, n))| <= n
  {
    if es != [] && n >= |EncodeEntry(es[0])| {
      WholeIsPrefix(es[1..], n - |EncodeEntry(es[0])|);
      assert Whole(es, n)[1..] == Whole(es[1..], n - |EncodeEntry(es[0])|);
    }
  }

  lemma ParseEntry(e: Entry, rest: Bytes)
    requires EntryOk(e)
    ensures ParseRecord(EncodeEntry(e) + rest) == Good(e.record, |EncodeEntry(e)|)
  {
    hide ParseRecord, Encode;
    ParseEncoded(e.record, e.pad, rest);
  }

  function Append(o: Outcome, rs: seq<LogRecord>): Outcome { o.(applied := rs + o.applied) }

  /** Replay goes through a prefix of encoded records and continues with what follows. */
  lemma {:induction false} ReplayThrough(es: seq<Entry>, rest: Bytes)
    requires EntriesOk(es)
    ensures Replay(EncodeAll(es) + rest) == Append(Replay(rest), Records(es))
  {
    hide ParseRecord, EncodeEntry;
    if es == [] {
      assert EncodeAll(es) + rest == rest;
    } else {
      var first, others := EncodeEntry(es[0]), EncodeAll(es[1..]);
      var bs := EncodeAll(es) + rest;
      assert bs == first + (others + rest) && bs[|first|..] == others + rest;
      ParseEntry(es[0], others + rest);
      ReplayThrough(es[1..], rest);
      var o := Replay(rest);
      assert [es[0].record] + (Records(es[1..]) + o.applied) == Records(es) + o.applied;
    }
  }

  lemma ParseEmpty()
    ensures ParseRecord([]) == Torn
  {
  }

  /** Cut a log anywhere: replay does not throw, applies exactly the records wholly
      inside, in order, and reports the rest of the bytes as the skipped tail. */
  lemma {:induction false} ReplayPrefix(es: seq<Entry>, n: nat)
    requires EntriesOk(es) && n <= |EncodeAll(es)|
    ensures EntriesOk(Whole(es, n)) && |EncodeAll(Whole(es, n))| <= n
    ensures Replay(EncodeAll(es)[..n]) == Replayed(Records(Whole(es, n)), n - |EncodeAll(Whole(es, n))|)
  {
    hide ParseRecord, Encode;
    WholeIsPrefix(es, n);
    ParseEmpty();
    if es != [] {
      var first, others := EncodeEntry(es[0]), EncodeAll(es[1..]);
      var bs := EncodeAll(es)[..n];
      if n < |first| {
        assert bs == first[..n];
        ParseCut(es[0].record, es[0].pad, n);
      } else {
        var m := n - |first|;
        assert bs == first + others[..m];
        ParseEntry(es[0], others[..m]);
        assert bs[|first|..] == others[..m];
        ReplayPrefix(es[1..], m);
        assert Whole(es, n)[1..] == Whole(es[1..], m);
      }
    }
  }

  /** On any file at all: where replay returns, the file is the encoding of exactly
      the records it applied, followed by exactly the bytes it reports as skipped. */
  lemma {:induction false} ReplayAccounts(bs: Bytes) returns (es: seq<Entry>)
    requires Replay(bs).Replayed?
    ensures EntriesOk(es) && Records(es) == Replay(bs).applied
    ensures Replay(bs).skipped <= |bs| && bs[..|bs| - Replay(bs).skipped] == EncodeAll(es)
    ensures ParseRecord(bs[|bs| - Replay(bs).skipped..]) == Torn
    decreases |bs|
  {
    hide ParseRecord, Encode;
    var p := ParseRecord(bs);
    if p == Torn {
      assert bs[|bs| - Replay(bs).skipped..] == bs;
      return [];
    }
    ParseSound(bs);
    var first := Entry(p.record, bs[5..8]);
    var tail := bs[p.length..];
    var rest := ReplayAccounts(tail);
    es := [first] + rest;
    assert es[1..] == rest;
    var skipped := Replay(bs).skipped;
    assert bs == bs[..p.length] + tail;
    assert bs[..|bs| - skipped] == bs[..p.length] + tail[..|tail| - skipped];
    assert bs[|bs| - skipped..] == tail[|tail| - skipped..];
  }

  /** Change one protected byte of one record in a log of any length: replay throws
      at that record, having applied exactly the records before it. */
  lemma CorruptionDetected(before: seq<Entry>, e: Entry, i: nat, b: byte, after: Bytes)
    requires EntriesOk(before) && EntryOk(e) && Protected(e.record, i) && EncodeEntry(e)[i] != b
    ensures var o := Replay(EncodeAll(before) + (EncodeEntry(e)[i := b] + after));
            o.Refused? && o.applied == Records(before)
  {
    ReplayThrough(before, EncodeEntry(e)[i := b] + after);
    ChangeDetected(e.record, e.pad, i, b, after);
  }

  lemma {:induction false} WholeMonotone(es: seq<Entry>, m: nat, n: nat)
    requires EntriesOk(es) && m <= n
    ensures Whole(es, m) <= Whole(es, n)
  {
    hide EncodeEntry;
    if es != [] && m >= |EncodeEntry(es[0])| {
      WholeMonotone(es[1..], m - |EncodeEntry(es[0])|, n - |EncodeEntry(es[0])|);
    }
  }

  lemma {:induction false} RecordsPrefix(a: seq<Entry>, b: seq<Entry>)
    requires a <= b
    ensures Records(a) <= Records(b)
  {
    if a != [] {
      assert a[0] == b[0] && a[1..] <= b[1..];
      RecordsPrefix(a[1..], b[1..]);
    }
  }

  /** Power loss keeps at least the synced bytes of the log: every record that was
      wholly synced is replayed, in order, before anything else. */
  lemma SyncedSurvive(es: seq<Entry>, synced: nat, n: nat)
    requires EntriesOk(es) && synced <= n <= |EncodeAll(es)|
    ensures var o := Replay(EncodeAll(es)[..n]);
            o.Replayed? && Records(Whole(es, synced)) <= o.applied <= Records(es)
  {
    ReplayPrefix(es, n);
    WholeMonotone(es, synced, n);
    WholeIsPrefix(es, synced);
    WholeIsPrefix(es, n);
    RecordsPrefix(Whole(es, synced), Whole(es, n));
    RecordsPrefix(Whole(es, n), es);
  }

  // ------------------------------------------- appending behind a torn tail

  lemma EntryStarts(e: Entry)
    requires EntryOk(e)
    ensures |EncodeEntry(e)| >= HEADER && EncodeEntry(e)[0] == 0x4c
  {
    hide Checksum, FromLe32;
    HeaderSlices(e.record, e.pad);
    assert Header(e.record, e.pad)[0] == Le32(MAGIC)[0];
  }

  lemma MisplacedMagic(bs: Bytes, n: nat)
    requires |bs| >= HEADER && 1 <= n <= 3 && bs[n] == 0x4c
    ensures ParseRecord(bs) == Bad(InvalidMagic)
  {
    var m := bs[..HEADER][..4];
    assert Le32(MAGIC) == [0x4c, 0x57, 0x56, 0x4b];
    assert m[n] == 0x4c && Le32(MAGIC)[n] != 0x4c;
    FromLe32Differs(m, Le32(MAGIC));
    Le32RoundTrip(MAGIC);
  }

  /** A torn tail inside the magic makes replay throw as soon as anything is appended behind it. */
  lemma TornMagicPoisons(es: seq<Entry>, torn: Entry, n: nat, e: Entry, rest: Bytes)
    requires EntriesOk(es) && EntryOk(torn) && EntryOk(e) && 1 <= n <= 3
    ensures Replay(EncodeAll(es) + (EncodeEntry(torn)[..n] + (EncodeEntry(e) + rest))) ==
            Refused(Records(es), InvalidMagic)
  {
    EntryStarts(torn);
    EntryStarts(e);
    hide EncodeEntry, ParseRecord;
    var bs := EncodeEntry(torn)[..n] + (EncodeEntry(e) + rest);
    assert bs[n] == EncodeEntry(e)[0];
    MisplacedMagic(bs, n);
    ReplayThrough(es, bs);
    assert Records(es) + [] == Records(es);
  }

  /** A torn tail behind a whole header swallows everything appended that does not fill it up. */
  lemma TornPayloadSwallows(es: seq<Entry>, torn: Entry, n: nat, appended: Bytes)
    requires EntriesOk(es) && EntryOk(torn) && HEADER <= n && n + |appended| < |EncodeEntry(torn)|
    ensures Replay(EncodeAll(es) + (EncodeEntry(torn)[..n] + appended)) == Replayed(Records(es), n + |appended|)
  {
    hide Header, FieldsOf, Checksum;
    var bs := EncodeEntry(torn)[..n] + appended;
    ReplayThrough(es, bs);
    assert bs[..HEADER] == Header(torn.record, torn.pad);
    HeaderReads(torn.record, torn.pad);
    assert Records(es) + [] == Records(es);
  }

  /** A tail of exactly the magic takes the first byte of what follows for its type. */
  lemma TornTypePoisons(es: seq<Entry>, torn: Entry, e: Entry, rest: Bytes)
    requires EntriesOk(es) && EntryOk(torn) && EntryOk(e) && |EncodeEntry(torn)| >= 4
    ensures Replay(EncodeAll(es) + (EncodeEntry(torn)[..4] + (EncodeEntry(e) + rest))) ==
            Refused(Records(es), UnknownType)
  {
    EntryStarts(torn);
    EntryStarts(e);
    MagicStarts(torn);
    hide EncodeEntry, ParseRecord;
    var bs := EncodeEntry(torn)[..4] + (EncodeEntry(e) + rest);
    assert bs[4] == EncodeEntry(e)[0];
    assert bs[..HEADER][..4] == EncodeEntry(torn)[..4];
    MisplacedType(bs);
    ReplayThrough(es, bs);
    assert Records(es) + [] == Records(es);
  }

  lemma MagicStarts(e: Entry)
    requires EntryOk(e) && |EncodeEntry(e)| >= 4
    ensures FromLe32(EncodeEntry(e)[..4]) == MAGIC
  {
    hide Checksum, FromLe32, Le32;
    HeaderSlices(e.record, e.pad);
    var h := Header(e.record, e.pad);
    hide Header;
    assert EncodeEntry(e)[..4] == h[..4];
    Le32RoundTrip(MAGIC);
  }

  lemma MisplacedType(bs: Bytes)
    requires |bs| >= HEADER && bs[4] == 0x4c && FromLe32(bs[..HEADER][..4]) == MAGIC
    ensures ParseRecord(bs) == Bad(UnknownType)
  {
    hide FromLe32;
  }

  lemma {:induction false} SameRecordsSameLength(a: seq<Entry>, b: seq<Entry>)
    requires EntriesOk(a) && EntriesOk(b) && Records(a) == Records(b)
    ensures |EncodeAll(a)| == |EncodeAll(b)|
    decreases |a|
  {
    hide Header;
    if a == [] {
      assert b == [];
    } else {
      assert b != [] && Records(a)[0] == Records(b)[0];
      assert Records(a)[1..] == Records(a[1..]) && Records(b)[1..] == Records(b[1..]);
      SameRecordsSameLength(a[1..], b[1..]);
    }
  }

  lemma {:induction false} EncodeAllConcat(a: seq<Entry>, b: seq<Entry>)
    requires EntriesOk(a) && EntriesOk(b)
    ensures EntriesOk(a + b) && EncodeAll(a + b) == EncodeAll(a) + EncodeAll(b)
            && Records(a + b) == Records(a) + Records(b)
  {
    hide EncodeEntry;
    if a == [] {
      assert a + b == b;
    } else {
      assert (a + b)[1..] == a[1..] + b;
      EncodeAllConcat(a[1..], b);
    }
  }

  /** Records appended behind whatever a crash left of a record are all replayed, with
      nothing skipped, if and only if it left nothing. */
  lemma TornTailExact(es: seq<Entry>, torn: Entry, n: nat, more: seq<Entry>)
    requires EntriesOk(es) && EntryOk(torn) && EntriesOk(more) && n < |EncodeEntry(torn)|
    ensures Replay(EncodeAll(es) + (EncodeEntry(torn)[..n] + EncodeAll(more))) == Replayed(Records(es + more), 0) <==>
              n == 0
  {
    hide EncodeEntry, EncodeAll, Records, Replay, ParseRecord;
    var tail, behind := EncodeEntry(torn)[..n], EncodeAll(more);
    EncodeAllConcat(es, more);
    if n == 0 {
      assert EncodeAll(es) + (tail + behind) == EncodeAll(es + more);
      ReplayWhole(es + more);
    } else {
      LongerThanRecords(EncodeAll(es) + (tail + behind), es + more);
    }
  }

  lemma ReplayWhole(es: seq<Entry>)
    requires EntriesOk(es)
    ensures Replay(EncodeAll(es)) == Replayed(Records(es), 0)
  {
    hide ParseRecord;
    ReplayThrough(es, []);
    ParseEmpty();
    assert EncodeAll(es) + [] == EncodeAll(es) && Records(es) + [] == Records(es);
  }

  lemma LongerThanRecords(bs: Bytes, es: seq<Entry>)
    requires EntriesOk(es) && |bs| > |EncodeAll(es)|
    ensures Replay(bs) != Replayed(Records(es), 0)
  {
    if Replay(bs) == Replayed(Records(es), 0) {
      hide EncodeAll, Records, Replay, ParseRecord;
      var all := ReplayAccounts(bs);
      SameRecordsSameLength(all, es);
    }
  }
}
