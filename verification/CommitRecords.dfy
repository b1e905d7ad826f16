/** A committed position as record bytes: the key compaction groups by, and the value. */
module CommitRecords {
  import opened Prelude
  import opened Buffer
  import opened Wire

  const VERSION := 1

  datatype CommitKey = CommitKey(group: Name, topic: Name, partition: int)

  datatype CommitValue = CommitValue(nextOffset: int, metadata: Name, commitTimestampMs: int)

  /** Within the widths of the C++ types. */
  predicate KeyTyped(k: CommitKey) { Fits(k.partition, INT32) }

  predicate ValueTyped(v: CommitValue) { Fits(v.nextOffset, INT64) && Fits(v.commitTimestampMs, INT64) }

  /** Strings that a 16-bit length can carry; longer ones are refused by the encoder. */
  predicate KeyFits(k: CommitKey) { KeyTyped(k) && |k.group| <= MAX_INT16 && |k.topic| <= MAX_INT16 }

  predicate ValueFits(v: CommitValue) { ValueTyped(v) && |v.metadata| <= MAX_INT16 }

  function EncodeKey(k: CommitKey): Bytes
    requires KeyFits(k)
  {
    Put(VERSION, INT16) + (PutString(k.group) + (PutString(k.topic) + Put(k.partition, INT32)))
  }

  function EncodeValue(v: CommitValue): Bytes
    requires ValueFits(v)
  {
    Put(VERSION, INT16) + (Put(v.nextOffset, INT64) + (PutString(v.metadata) + Put(v.commitTimestampMs, INT64)))
  }

  function DecodeKey(s: Bytes): Option<CommitKey> {
    match TakeInt(s, INT16)
    case None => None
    case Some((version, s1)) =>
      if version != VERSION then None
      else
        match TakeString(s1)
        case None => None
        case Some((group, s2)) =>
          match TakeString(s2)
          case None => None
          case Some((topic, s3)) =>
            match TakeInt(s3, INT32)
            case None => None
            case Some((partition, s4)) => if s4 == [] then Some(CommitKey(group, topic, partition)) else None
  }

  /** A negative offset is not a position anyone can have reached, and is refused. */
  function DecodeValue(s: Bytes): Option<CommitValue> {
    match TakeInt(s, INT16)
    case None => None
    case Some((version, s1)) =>
      if version != VERSION then None
      else
        match TakeInt(s1, INT64)
        case None => None
        case Some((nextOffset, s2)) =>
          if nextOffset < 0 then None
          else
            match TakeString(s2)
            case None => None
            case Some((metadata, s3)) =>
              match TakeInt(s3, INT64)
              case None => None
              case Some((stamp, s4)) => if s4 == [] then Some(CommitValue(nextOffset, metadata, stamp)) else None
  }

  lemma {:induction false} KeyRoundTrip(k: CommitKey)
    requires KeyFits(k)
    ensures DecodeKey(EncodeKey(k)) == Some(k)
  {
    var last := Put(k.partition, INT32);
    TakePutInt(VERSION, INT16, PutString(k.group) + (PutString(k.topic) + last));
    TakePutString(k.group, PutString(k.topic) + last);
    TakePutString(k.topic, last);
    assert last + [] == last;
    TakePutInt(k.partition, INT32, []);
  }

  /** Different positions have different keys, so compaction never confuses two of them. */
  lemma {:induction false} KeysDiffer(a: CommitKey, b: CommitKey)
    requires KeyFits(a) && KeyFits(b) && EncodeKey(a) == EncodeKey(b)
    ensures a == b
  {
    KeyRoundTrip(a);
    KeyRoundTrip(b);
  }

  /** A value reads back exactly when its offset is one the decoder accepts. */
  lemma {:induction false} ValueRoundTrip(v: CommitValue)
    requires ValueFits(v)
    ensures DecodeValue(EncodeValue(v)) == if 0 <= v.nextOffset then Some(v) else None
  {
    var last := Put(v.commitTimestampMs, INT64);
    TakePutInt(VERSION, INT16, Put(v.nextOffset, INT64) + (PutString(v.metadata) + last));
    TakePutInt(v.nextOffset, INT64, PutString(v.metadata) + last);
    TakePutString(v.metadata, last);
    assert last + [] == last;
    TakePutInt(v.commitTimestampMs, INT64, []);
  }

  lemma {:induction false} JoinFour(a: Bytes, b: Bytes, c: Bytes, d: Bytes)
    ensures (((([] + a) + b) + c) + d) == a + (b + (c + d))
  {
  }

  /** encodeCommitKey; None is a name too long for the wire. */
  method WriteKey(k: CommitKey) returns (s: Option<Bytes>)
    requires KeyTyped(k)
    ensures s == if KeyFits(k) then Some(EncodeKey(k)) else None
  {
    var out := new BufferWriter();
    var _ := out.Write(VERSION, INT16);
    var ok := WriteString(out, k.group);
    if !ok { return None; }
    ok := WriteString(out, k.topic);
    if !ok { return None; }
    var _ := out.Write(k.partition, INT32);
    JoinFour(Put(VERSION, INT16), PutString(k.group), PutString(k.topic), Put(k.partition, INT32));
    s := out.Take();
  }

  method WriteValue(v: CommitValue) returns (s: Option<Bytes>)
    requires ValueTyped(v)
    ensures s == if ValueFits(v) then Some(EncodeValue(v)) else None
  {
    var out := new BufferWriter();
    var _ := out.Write(VERSION, INT16);
    var _ := out.Write(v.nextOffset, INT64);
    var ok := WriteString(out, v.metadata);
    if !ok { return None; }
    var _ := out.Write(v.commitTimestampMs, INT64);
    JoinFour(Put(VERSION, INT16), Put(v.nextOffset, INT64), PutString(v.metadata), Put(v.commitTimestampMs, INT64));
    s := out.Take();
  }

  /** decodeCommitKey; None is corrupt data. */
  method ReadKey(s: Bytes) returns (k: Option<CommitKey>)
    ensures k == DecodeKey(s)
  {
    var input := new BufferReader(s);
    var version := input.Read(INT16);
    if version != Some(VERSION) { return None; }
    var group := ReadString(input);
    if group.None? { return None; }
    var topic := ReadString(input);
    if topic.None? { return None; }
    var partition := input.Read(INT32);
    if partition.None? || input.position < |input.data| { return None; }
    return Some(CommitKey(group.value, topic.value, partition.value));
  }

  method ReadValue(s: Bytes) returns (v: Option<CommitValue>)
    ensures v == DecodeValue(s)
  {
    var input := new BufferReader(s);
    var version := input.Read(INT16);
    if version != Some(VERSION) { return None; }
    var nextOffset := input.Read(INT64);
    if nextOffset.None? || nextOffset.value < 0 { return None; }
    var metadata := ReadString(input);
    if metadata.None? { return None; }
    var stamp := input.Read(INT64);
    if stamp.None? || input.position < |input.data| { return None; }
    return Some(CommitValue(nextOffset.value, metadata.value, stamp.value));
  }
}
