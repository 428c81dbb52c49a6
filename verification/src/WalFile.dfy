/** The loops of the write-ahead log over a file that reads and writes as much as it likes. */
module WalFile {
  import opened Wrappers
  import opened Bytes
  import opened Fnv
  import opened WalFormat

  datatype ReadResult = Chunk(bytes: Bytes) | Interrupted

  /** An open file. Signals interrupt a call only finitely often. */
  class File {
    var data: Bytes
    var position: nat
    var interrupts: nat
    ghost var states: seq<Bytes>   // every content the file has had, oldest first

    constructor (data: Bytes, interrupts: nat)
      ensures this.data == data && position == 0 && states == [data]
    {
      this.data := data;
      this.position := 0;
      this.interrupts := interrupts;
      this.states := [data];
    }

    /** read(2): some bytes, none only at the end of the file. */
    method Read(max: nat) returns (r: ReadResult)
      requires max > 0 && position <= |data|
      modifies this`position, this`interrupts
      ensures r == Interrupted ==> position == old(position) && interrupts < old(interrupts)
      ensures r.Chunk? ==> |r.bytes| <= max && interrupts == old(interrupts)
                           && position == old(position) + |r.bytes| <= |data|
                           && r.bytes == data[old(position)..position]
                           && (|r.bytes| == 0 <==> old(position) == |data|)
    {
      var interrupted: bool := *;
      if interrupted && interrupts > 0 {
        interrupts := interrupts - 1;
        return Interrupted;
      }
      var available := if max < |data| - position then max else |data| - position;
      var count: nat;
      if available == 0 {
        count := 0;
      } else {
        count :| 1 <= count <= available;
      }
      r := Chunk(data[position..position + count]);
      position := position + count;
    }

    /** write(2) on an O_APPEND descriptor: a non-empty prefix arrives, or a signal interrupts. */
    method Write(bytes: Bytes) returns (written: Option<nat>)
      requires |bytes| > 0
      modifies this`data, this`interrupts, this`states
      ensures written == None ==> data == old(data) && states == old(states) && interrupts < old(interrupts)
      ensures written.Some? ==> 1 <= written.value <= |bytes| && data == old(data) + bytes[..written.value]
                                && states == old(states) + [data] && interrupts == old(interrupts)
    {
      var interrupted: bool := *;
      if interrupted && interrupts > 0 {
        interrupts := interrupts - 1;
        return None;
      }
      var count: nat :| 1 <= count <= |bytes|;
      data := data + bytes[..count];
      states := states + [data];
      written := Some(count);
    }

    /** open(2) with O_TRUNC: the file is emptied. */
    method Truncate()
      modifies this`data, this`states
      ensures data == [] && states == old(states) + [[]]
    {
      data := [];
      states := states + [data];
    }
  }

  /** Every content of the file since `from` is `before` followed by a prefix of `bytes`. */
  ghost predicate GrewBy(states: seq<Bytes>, from: nat, before: Bytes, bytes: Bytes) {
    forall i :: from <= i < |states| ==> exists k :: 0 <= k <= |bytes| && states[i] == before + bytes[..k]
  }

  method WriteAll(file: File, bytes: Bytes)
    modifies file`data, file`interrupts, file`states
    ensures file.data == old(file.data) + bytes
    ensures |old(file.states)| <= |file.states| && file.states[..|old(file.states)|] == old(file.states)
    ensures GrewBy(file.states, |old(file.states)|, old(file.data), bytes)
  {
    var written := 0;
    while written < |bytes|
      invariant 0 <= written <= |bytes| && file.data == old(file.data) + bytes[..written]
      invariant |old(file.states)| <= |file.states| && file.states[..|old(file.states)|] == old(file.states)
      invariant GrewBy(file.states, |old(file.states)|, old(file.data), bytes)
      decreases |bytes| - written, file.interrupts
    {
      var result := file.Write(bytes[written..]);
      if result.Some? {
        assert bytes[..written] + bytes[written..][..result.value] == bytes[..written + result.value];
        written := written + result.value;
      }
    }
  }

  /** The next `length` bytes, or what is left when the file ends earlier. */
  method ReadAll(file: File, length: nat) returns (complete: bool, bytes: Bytes)
    requires file.position <= |file.data|
    modifies file`position, file`interrupts
    ensures |bytes| == (if length <= |file.data| - old(file.position) then length else |file.data| - old(file.position))
    ensures file.position == old(file.position) + |bytes| <= |file.data|
    ensures bytes == file.data[old(file.position)..file.position]
    ensures complete == (|bytes| == length)
  {
    bytes := [];
    while |bytes| < length
      invariant |bytes| <= length && file.position == old(file.position) + |bytes| <= |file.data|
      invariant bytes == file.data[old(file.position)..file.position]
      decreases length - |bytes|, file.interrupts
    {
      var result := file.Read(length - |bytes|);
      if result.Chunk? {
        if |result.bytes| == 0 { break; }
        bytes := bytes + result.bytes;
      }
    }
    complete := |bytes| == length;
  }

  method ComputeChecksum(record: LogRecord) returns (hash: nat)
    ensures hash == Checksum(record)
  {
    var kind, keySize, valueSize := [TypeByte(record.kind)], Le32(|record.key| % TWO32), Le32(|record.value| % TWO32);
    hash := Update(OFFSET_BASIS, kind);
    hash := Update(hash, keySize);
    hash := Update(hash, valueSize);
    hash := Update(hash, record.key);
    hash := Update(hash, record.value);
    HashConcat(OFFSET_BASIS, kind, keySize);
    HashConcat(OFFSET_BASIS, kind + keySize, valueSize);
    HashConcat(OFFSET_BASIS, kind + keySize + valueSize, record.key);
    HashConcat(OFFSET_BASIS, kind + keySize + valueSize + record.key, record.value);
  }

  /** Append builds header, key and value in one buffer and writes it; `pad` is
      whatever the padding bytes of the header struct hold. */
  method Append(file: File, record: LogRecord, pad: Bytes)
    requires |pad| == 3
    modifies file`data, file`interrupts, file`states
    ensures file.data == old(file.data) + Encode(record, pad)
    ensures |old(file.states)| <= |file.states| && file.states[..|old(file.states)|] == old(file.states)
    ensures GrewBy(file.states, |old(file.states)|, old(file.data), Encode(record, pad))
  {
    var checksum := ComputeChecksum(record);
    var buffer := Le32(MAGIC) + [TypeByte(record.kind)] + pad
                  + Le32(|record.key| % TWO32) + Le32(|record.value| % TWO32) + Le32(checksum);
    if record.key != [] {
      buffer := buffer + record.key;
    }
    if record.value != [] {
      buffer := buffer + record.value;
    }
    assert buffer == Encode(record, pad);
    WriteAll(file, buffer);
  }

  /** One turn of the replay loop: read a header and, if it passes, its key and value.
      `skipped` is what a torn tail adds to skipped_tail_bytes. */
  method ReadRecord(file: File) returns (parsed: Parsed, skipped: nat)
    requires file.position <= |file.data|
    modifies file`position, file`interrupts
    ensures parsed == ParseRecord(file.data[old(file.position)..])
    ensures parsed == Torn ==> skipped == |file.data| - old(file.position)
    ensures parsed.Good? ==> file.position == old(file.position) + parsed.length <= |file.data|
  {
    hide FieldsOf, Checksum;
    ghost var bs := file.data[file.position..];
    var complete, header := ReadAll(file, HEADER);
    if !complete {
      return Torn, |header|;
    }
    assert header == bs[..HEADER];
    ghost var body := bs[HEADER..];
    assert body == file.data[file.position..];
    var f := FieldsOf(header);
    if f.magic != MAGIC { return Bad(InvalidMagic), 0; }
    if f.kind != 1 && f.kind != 2 { return Bad(UnknownType), 0; }
    var key, value := [], [];
    if f.keySize > 0 {
      complete, key := ReadAll(file, f.keySize);
      if !complete { return Torn, HEADER + |key|; }
    }
    assert key == body[..f.keySize];
    if f.valueSize > 0 {
      complete, value := ReadAll(file, f.valueSize);
      if !complete { return Torn, HEADER + |key| + |value|; }
    }
    assert value == body[f.keySize..f.keySize + f.valueSize];
    var record := LogRecord(if f.kind == 1 then PutRecord else DeleteRecord, key, value);
    var checksum := ComputeChecksum(record);
    if checksum != f.checksum { return Bad(ChecksumMismatch), 0; }
    return Good(record, HEADER + f.keySize + f.valueSize), 0;
  }

  /** The replay loop, for any pattern of short reads. `applied` lists the records
      handed to the callback before the loop ended or threw. */
  method ReplayFile(file: File) returns (outcome: Outcome)
    requires file.position == 0
    modifies file`position, file`interrupts
    ensures outcome == Replay(file.data)
  {
    hide ParseRecord;
    var applied: seq<LogRecord> := [];
    assert file.data[0..] == file.data;
    while true
      invariant file.position <= |file.data|
      invariant Replay(file.data) == WalFormat.Append(Replay(file.data[file.position..]), applied)
      decreases |file.data| - file.position
    {
      ghost var bs := file.data[file.position..];
      var parsed, skipped := ReadRecord(file);
      match parsed {
        case Torn => return Replayed(applied, skipped);
        case Bad(error) => return Refused(applied, error);
        case Good(record, length) =>
          assert file.data[file.position..] == bs[length..];
          ghost var rest := Replay(bs[length..]).applied;
          assert applied + ([record] + rest) == (applied + [record]) + rest;
          applied := applied + [record];
      }
    }
  }
}
