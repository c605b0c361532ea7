/** The nine-tag TLV payload of the QR code: `tlv` in the helper. */
module Tlv {
  import opened Wrappers
  import opened JavaArithmetic

  /** The three ways a record may write its length. */
  datatype LengthForm = Short | OneByte | TwoBytes

  datatype Record = Record(tag: Byte, form: LengthForm, value: seq<Byte>)

  predicate ValidRecord(r: Record) {
    && 1 <= r.tag <= 9
    && match r.form
       case Short => |r.value| < 128
       case OneByte => |r.value| < 256
       case TwoBytes => |r.value| < 65536
  }

  predicate AllValid(rs: seq<Record>) {
    forall k :: 0 <= k < |rs| ==> ValidRecord(rs[k])
  }

  function LengthBytes(form: LengthForm, n: nat): seq<Byte>
    requires n < 65536
  {
    match form
    case Short => [n % 256]
    case OneByte => [129, n % 256]
    case TwoBytes => [130, n / 256, n % 256]
  }

  function Encode(r: Record): (bytes: seq<Byte>)
    requires ValidRecord(r)
    ensures |bytes| == 1 + |LengthBytes(r.form, |r.value|)| + |r.value|
  {
    [r.tag] + LengthBytes(r.form, |r.value|) + r.value
  }

  function EncodeAll(rs: seq<Record>): seq<Byte>
    requires AllValid(rs)
  {
    if rs == [] then [] else Encode(rs[0]) + EncodeAll(rs[1..])
  }

  predicate DistinctTags(rs: seq<Record>) {
    forall i, j :: 0 <= i < j < |rs| ==> rs[i].tag != rs[j].tag
  }

  /** What the format promises: nine records, one for each tag 1..9, in any order. */
  predicate IsQrPayload(bytes: seq<Byte>, rs: seq<Record>) {
    && AllValid(rs)
    && DistinctTags(rs)
    && |rs| == 9
    && bytes == EncodeAll(rs)
  }

  /** The byte strings `tlv` ought to accept. */
  ghost predicate Decomposable(bytes: seq<Byte>) {
    exists rs: seq<Record> :: IsQrPayload(bytes, rs)
  }

  /** The form whose length part takes `bytes` bytes. */
  function FormOf(bytes: int): LengthForm {
    if bytes == 1 then Short else if bytes == 2 then OneByte else TwoBytes
  }

  /** The length written at the start of `b`, and how many bytes it takes. */
  function DecodeLength(b: seq<Byte>): (r: Option<(nat, nat)>)
    ensures r.Some? ==> 1 <= r.value.1 <= 3 && r.value.1 <= |b| && r.value.0 < 65536
    ensures r.Some? ==> b[..r.value.1] == LengthBytes(FormOf(r.value.1), r.value.0)
    ensures r.Some? && r.value.1 == 1 ==> r.value.0 < 128
    ensures r.Some? && r.value.1 == 2 ==> r.value.0 < 256
  {
    if |b| == 0 then None
    else if b[0] < 128 then Some((b[0] as nat, 1))
    else if b[0] == 129 && 2 <= |b| then Some((b[1] as nat, 2))
    else if b[0] == 130 && 3 <= |b| then Some(((b[1] as nat) * 256 + b[2], 3))
    else None
  }

  /** The first record of `b`, if a valid one starts there. */
  function DecodeFirst(b: seq<Byte>): (r: Option<Record>)
    ensures r.Some? ==> ValidRecord(r.value) && |Encode(r.value)| <= |b|
                        && b == Encode(r.value) + b[|Encode(r.value)|..]
  {
    hide DecodeLength;
    if |b| == 0 || b[0] < 1 || b[0] > 9 then None else
    match DecodeLength(b[1..])
    case None => None
    case Some((n, size)) =>
      if 1 + size + n > |b| then None else
      var r := Record(b[0], FormOf(size), b[1 + size..1 + size + n]);
      assert b[1..][..size] == b[1..1 + size];
      assert Encode(r) == b[..1 + size + n];
      Some(r)
  }

  lemma DecodeFirstOfEncoding(r: Record, rest: seq<Byte>)
    requires ValidRecord(r)
    ensures DecodeFirst(Encode(r) + rest) == Some(r)
  {
  }

  /** Reading off records until the bytes run out or a record is malformed. */
  function DecodeAll(b: seq<Byte>): (rs: Option<seq<Record>>)
    ensures rs.Some? ==> AllValid(rs.value) && EncodeAll(rs.value) == b
    decreases |b|
  {
    if b == [] then Some([]) else
    match DecodeFirst(b)
    case None => None
    case Some(r) =>
      match DecodeAll(b[|Encode(r)|..])
      case None => None
      case Some(rest) => Some([r] + rest)
  }

  /** Decoding inverts encoding, so a payload has one decomposition only. */
  lemma {:induction false} DecodeInvertsEncode(rs: seq<Record>)
    requires AllValid(rs)
    ensures DecodeAll(EncodeAll(rs)) == Some(rs)
  {
    hide Encode, DecodeFirst;
    if rs != [] {
      var rest := EncodeAll(rs[1..]);
      DecodeFirstOfEncoding(rs[0], rest);
      DecodeInvertsEncode(rs[1..]);
      assert (Encode(rs[0]) + rest)[|Encode(rs[0])|..] == rest;
      assert [rs[0]] + rs[1..] == rs;
    }
  }

  lemma DecompositionIsUnique(bytes: seq<Byte>, rs: seq<Record>, rs': seq<Record>)
    requires IsQrPayload(bytes, rs) && IsQrPayload(bytes, rs')
    ensures rs == rs'
  {
    DecodeInvertsEncode(rs);
    DecodeInvertsEncode(rs');
  }

  predicate HasTag(rs: seq<Record>, t: int) {
    exists k :: 0 <= k < |rs| && rs[k].tag == t
  }

  /** The ten slots of `values`: each holds the value of the record with its index as tag. */
  type Slots = seq<Option<seq<Byte>>>

  ghost predicate Holds(slots: Slots, rs: seq<Record>) {
    && |slots| == 10
    && (forall k :: 0 <= k < |rs| ==> rs[k].tag < 10 && slots[rs[k].tag] == Some(rs[k].value))
    && forall t :: 0 <= t < 10 && slots[t].Some? ==> HasTag(rs, t)
  }

  const ALL_TAGS := {1, 2, 3, 4, 5, 6, 7, 8, 9}

  function Tags(rs: seq<Record>): set<int> {
    set k | 0 <= k < |rs| :: rs[k].tag as int
  }

  /** Valid records with distinct tags are nine exactly when every tag 1..9 occurs. */
  lemma NineTags(rs: seq<Record>)
    requires AllValid(rs) && DistinctTags(rs)
    ensures |rs| == 9 <==> forall t :: 1 <= t <= 9 ==> HasTag(rs, t)
  {
    hide DistinctTags, AllValid;
    TagCount(rs);
    TagsInRange(rs);
    TagsOfNine(Tags(rs));
    assert forall t :: t in Tags(rs) <==> HasTag(rs, t);
  }

  lemma TagsOfNine(tags: set<int>)
    requires tags <= ALL_TAGS
    ensures |tags| == 9 <==> forall t :: 1 <= t <= 9 ==> t in tags
  {
    var missing := ALL_TAGS - tags;
    assert ALL_TAGS == tags + missing;
    assert |ALL_TAGS| == |tags| + |missing|;
    assert forall t :: t in missing ==> 1 <= t <= 9;
    if |tags| != 9 {
      var t :| t in missing;
    }
  }

  lemma TagsInRange(rs: seq<Record>)
    requires AllValid(rs)
    ensures Tags(rs) <= ALL_TAGS
  {
  }

  lemma {:induction false} TagCount(rs: seq<Record>)
    requires DistinctTags(rs)
    ensures |Tags(rs)| == |rs|
  {
    if rs != [] {
      var n := |rs| - 1;
      TagCount(rs[..n]);
      forall t | t in Tags(rs)
        ensures t in Tags(rs[..n]) + {rs[n].tag as int}
      {
        var k :| 0 <= k < |rs| && rs[k].tag as int == t;
        if k < n { assert rs[..n][k].tag as int == t; }
      }
      assert Tags(rs) == Tags(rs[..n]) + {rs[n].tag as int};
    }
  }

  lemma {:induction false} DecodePrefix(rs: seq<Record>, rest: seq<Byte>)
    requires AllValid(rs)
    ensures DecodeAll(rest).None? ==> DecodeAll(EncodeAll(rs) + rest).None?
    ensures DecodeAll(rest).Some? ==> DecodeAll(EncodeAll(rs) + rest) == Some(rs + DecodeAll(rest).value)
  {
    hide Encode, DecodeFirst, DecodeAll, ValidRecord;
    if rs == [] {
      assert EncodeAll(rs) + rest == rest;
      assert DecodeAll(rest).Some? ==> rs + DecodeAll(rest).value == DecodeAll(rest).value;
    } else {
      DecodePrefix(rs[1..], rest);
      DecodeCons(rs[0], EncodeAll(rs[1..]) + rest);
      assert EncodeAll(rs) + rest == Encode(rs[0]) + (EncodeAll(rs[1..]) + rest);
      if DecodeAll(rest).Some? {
        assert [rs[0]] + (rs[1..] + DecodeAll(rest).value) == rs + DecodeAll(rest).value;
      }
    }
  }

  lemma DecodeCons(r: Record, rest: seq<Byte>)
    requires ValidRecord(r)
    ensures DecodeAll(rest).None? ==> DecodeAll(Encode(r) + rest).None?
    ensures DecodeAll(rest).Some? ==> DecodeAll(Encode(r) + rest) == Some([r] + DecodeAll(rest).value)
  {
    DecodeFirstOfEncoding(r, rest);
    assert (Encode(r) + rest)[|Encode(r)|..] == rest;
  }

  lemma {:induction false} EncodeAllAppend(rs: seq<Record>, r: Record)
    requires AllValid(rs)
    requires ValidRecord(r)
    ensures EncodeAll(rs + [r]) == EncodeAll(rs) + Encode(r)
  {
    if rs == [] {
      assert rs + [r] == [r];
      assert EncodeAll([r]) == Encode(r) + [];
    } else {
      assert (rs + [r])[1..] == rs[1..] + [r];
      EncodeAllAppend(rs[1..], r);
    }
  }

  /** Why a record cannot be read: it is malformed, or its tag was already read. */
  ghost predicate Unreadable(rest: seq<Byte>, slots: Slots)
    requires |slots| == 10
  {
    DecodeFirst(rest) == None || slots[DecodeFirst(rest).value.tag] != None
  }

  /** A payload's decomposition goes on where a prefix of it ends, with a tag not used yet. */
  lemma PayloadContinues(full: seq<Record>, rs: seq<Record>, rest: seq<Byte>)
    requires AllValid(full) && DistinctTags(full) && AllValid(rs)
    requires EncodeAll(full) == EncodeAll(rs) + rest && rest != []
    ensures DecodeFirst(rest).Some? && !HasTag(rs, DecodeFirst(rest).value.tag)
  {
    hide Encode, EncodeAll, DecodeFirst;
    DecodeInvertsEncode(full);
    DecodePrefix(rs, rest);
    assert full[|rs|] == DecodeFirst(rest).value;
    forall k | 0 <= k < |rs|
      ensures rs[k].tag != full[|rs|].tag
    {
      assert full[k] == rs[k];
    }
  }

  /** An unreadable record rules out every decomposition of the whole payload. */
  lemma UnreadableIsFatal(bytes: seq<Byte>, rs: seq<Record>, rest: seq<Byte>, slots: Slots)
    requires AllValid(rs)
    requires bytes == EncodeAll(rs) + rest && rest != []
    requires Holds(slots, rs) && Unreadable(rest, slots)
    ensures !Decomposable(bytes)
  {
    hide Encode, EncodeAll, DecodeFirst;
    forall full: seq<Record> | IsQrPayload(bytes, full)
      ensures false
    {
      PayloadContinues(full, rs, rest);
    }
  }

  lemma SlotFilled(rs: seq<Record>, r: Record, slots: Slots)
    requires ValidRecord(r) && Holds(slots, rs) && DistinctTags(rs) && slots[r.tag] == None
    ensures DistinctTags(rs + [r]) && Holds(slots[r.tag := Some(r.value)], rs + [r])
  {
    var filled := slots[r.tag := Some(r.value)];
    forall t | 0 <= t < 10 && filled[t].Some?
      ensures HasTag(rs + [r], t)
    {
      if t == r.tag {
        assert (rs + [r])[|rs|].tag == t;
      } else {
        var k :| 0 <= k < |rs| && rs[k].tag == t;
        assert (rs + [r])[k].tag == t;
      }
    }
  }

  /**
   * The length part of a record in `tlv`, with the cursor just past the tag. Every int
   * expression wraps as Java's does, so near the largest array length a bounds test can be
   * passed wrongly; the access after it then throws.
   */
  method ReadLength(bytes: array<Byte>, start: nat) returns (result: Parsed<int>, offset: int)
    requires start < bytes.Length <= MAX_INT
    ensures result.Value? ==> DecodeLength(bytes[start..]) == Some((result.value, offset - start))
    ensures result.Value? ==> start <= offset <= bytes.Length
    ensures !result.Value? ==> DecodeLength(bytes[start..]) == None
    ensures result.IndexOutOfBounds? ==> bytes.Length > MAX_INT - 65535
  {
    ghost var rest := bytes[start..];
    var first := bytes[start];
    offset := start + 1;
    var length: int := first;
    if first >= 128 {
      var count := first % 128;
      if count < 1 || count > 2 || Int32(offset + count) > bytes.Length {
        return IllegalArgument, offset;
      }
      length := 0;
      var i := 0;
      while i < count
        invariant 0 <= i <= count && offset == start + 1 + i <= bytes.Length
        invariant i == 0 ==> length == 0
        invariant i == 1 ==> length == rest[1]
        invariant i == 2 ==> length == (rest[1] as int) * 256 + rest[2]
      {
        if offset >= bytes.Length {
          return IndexOutOfBounds, offset;
        }
        length := ShiftIn(length, bytes[offset]);
        offset := offset + 1;
        i := i + 1;
      }
    }
    return Value(length), offset;
  }

  /** One record of the loop in `tlv`. */
  method ReadRecord(bytes: array<Byte>, start: nat, slots: Slots)
    returns (result: Parsed<Record>, offset: int)
    requires start < bytes.Length <= MAX_INT && |slots| == 10
    ensures !result.Value? ==> Unreadable(bytes[start..], slots)
    ensures result.Value? ==> DecodeFirst(bytes[start..]) == Some(result.value) && slots[result.value.tag] == None
    ensures result.Value? ==> offset == start + |Encode(result.value)| <= bytes.Length
    ensures result.IndexOutOfBounds? ==> bytes.Length > MAX_INT - 65535
  {
    hide DecodeLength;
    ghost var rest := bytes[start..];
    var tag := bytes[start];
    offset := start + 1;
    if tag < 1 || tag > 9 || slots[tag] != None || offset >= bytes.Length {
      return IllegalArgument, offset;
    }
    assert rest[1..] == bytes[offset..];
    var read, next := ReadLength(bytes, offset);
    if !read.Value? {
      return if read.IllegalArgument? then IllegalArgument else IndexOutOfBounds, offset;
    }
    var length := read.value;
    var form := FormOf(next - offset);
    offset := next;
    if length < 0 || Int32(offset + length) > bytes.Length {
      return IllegalArgument, offset;
    }
    if offset + length > bytes.Length {
      return IndexOutOfBounds, offset;
    }
    var value := bytes[offset..offset + length];
    assert rest[offset - start..offset - start + length] == value;
    offset := offset + length;
    return Value(Record(tag, form, value)), offset;
  }

  /** What the loop of `tlv` has established at `offset`: the records so far fill the slots. */
  ghost predicate Progress(bytes: seq<Byte>, offset: int, rs: seq<Record>, slots: Slots) {
    && 0 <= offset <= |bytes|
    && AllValid(rs) && DistinctTags(rs) && Holds(slots, rs)
    && bytes == EncodeAll(rs) + bytes[offset..]
  }

  lemma NoProgressYet(bytes: seq<Byte>, slots: Slots)
    requires |slots| == 10 && forall t :: 0 <= t < 10 ==> slots[t] == None
    ensures Progress(bytes, 0, [], slots)
  {
  }

  lemma RecordRead(bytes: seq<Byte>, offset: nat, rs: seq<Record>, slots: Slots, r: Record)
    requires Progress(bytes, offset, rs, slots) && DecodeFirst(bytes[offset..]) == Some(r) && slots[r.tag] == None
    ensures Progress(bytes, offset + |Encode(r)|, rs + [r], slots[r.tag := Some(r.value)])
  {
    hide Encode, EncodeAll, DecodeFirst;
    SlotFilled(rs, r, slots);
    EncodeAllAppend(rs, r);
    assert bytes[offset..][|Encode(r)|..] == bytes[offset + |Encode(r)|..];
    assert EncodeAll(rs) + bytes[offset..] == EncodeAll(rs) + Encode(r) + bytes[offset + |Encode(r)|..];
  }

  /** `tlv`: read records until the bytes are used up, then insist on all nine tags. */
  method Parse(bytes: array<Byte>) returns (result: Parsed<Slots>)
    requires bytes.Length <= MAX_INT
    ensures result.Value? <==> Decomposable(bytes[..])
    ensures result.Value? ==> forall rs :: IsQrPayload(bytes[..], rs) ==> Holds(result.value, rs)
    ensures result.IndexOutOfBounds? ==> bytes.Length > MAX_INT - 65535
  {
    var values: array<Option<seq<Byte>>> := new Option<seq<Byte>>[10](_ => None);
    var offset := 0;
    ghost var rs: seq<Record> := [];
    NoProgressYet(bytes[..], values[..]);
    while offset < bytes.Length
      invariant 0 <= offset <= bytes.Length
      invariant Progress(bytes[..], offset, rs, values[..])
    {
      hide Progress, DecodeFirst, Decomposable, Unreadable;
      var r, next := ReadRecord(bytes, offset, values[..]);
      assert bytes[..][offset..] == bytes[offset..];
      if !r.Value? {
        RecordRefused(bytes[..], offset, rs, values[..]);
        return if r.IllegalArgument? then IllegalArgument else IndexOutOfBounds;
      }
      RecordRead(bytes[..], offset, rs, values[..], r.value);
      ghost var slots := values[..];
      values[r.value.tag] := Some(r.value.value);
      assert values[..] == slots[r.value.tag := Some(r.value.value)];
      offset := next;
      rs := rs + [r.value];
    }
    assert bytes[..][offset..] == [];
    CompleteWhenAllTags(bytes[..], rs, values[..]);
    hide Decomposable, Holds, IsQrPayload, Progress;
    var complete := AllTagsPresent(values[..]);
    return if complete then Value(values[..]) else IllegalArgument;
  }

  lemma RecordRefused(bytes: seq<Byte>, offset: nat, rs: seq<Record>, slots: Slots)
    requires offset < |bytes| && Progress(bytes, offset, rs, slots) && Unreadable(bytes[offset..], slots)
    ensures !Decomposable(bytes)
  {
    UnreadableIsFatal(bytes, rs, bytes[offset..], slots);
  }

  /** The loop over the tags at the end of `tlv`. */
  method AllTagsPresent(slots: Slots) returns (all: bool)
    requires |slots| == 10
    ensures all <==> forall t :: 1 <= t <= 9 ==> slots[t] != None
  {
    for tag := 1 to 10
      invariant forall t :: 1 <= t < tag ==> slots[t] != None
    {
      if slots[tag] == None {
        return false;
      }
    }
    return true;
  }

  /** Once all bytes are read, the records are a payload exactly when no tag is missing. */
  lemma CompleteWhenAllTags(bytes: seq<Byte>, rs: seq<Record>, slots: Slots)
    requires AllValid(rs) && DistinctTags(rs) && Holds(slots, rs) && bytes == EncodeAll(rs) + []
    ensures (forall t :: 1 <= t <= 9 ==> slots[t] != None) <==> Decomposable(bytes)
    ensures forall full: seq<Record> :: IsQrPayload(bytes, full) ==> Holds(slots, full)
  {
    hide EncodeAll, DecodeAll, Encode;
    assert bytes == EncodeAll(rs);
    DecodeInvertsEncode(rs);
    NineTags(rs);
    forall full: seq<Record> | IsQrPayload(bytes, full)
      ensures full == rs
    {
      DecodeInvertsEncode(full);
    }
    assert forall t :: 1 <= t <= 9 ==> (slots[t] != None <==> HasTag(rs, t));
    assert |rs| == 9 <==> IsQrPayload(bytes, rs);
  }

  /** The order of the records does not matter to what is read. */
  lemma RecordOrderIsIrrelevant(rs: seq<Record>, rs': seq<Record>, slots: Slots, slots': Slots)
    requires multiset(rs) == multiset(rs')
    requires Holds(slots, rs) && Holds(slots', rs')
    ensures slots == slots'
  {
    forall r: Record
      ensures r in rs <==> r in rs'
    {
      assert r in multiset(rs) <==> r in multiset(rs');
    }
    forall t | 0 <= t < 10
      ensures slots[t] == slots'[t]
    {
      if slots[t].Some? {
        var k :| 0 <= k < |rs| && rs[k].tag == t;
        assert rs[k] in rs';
      }
      if slots'[t].Some? {
        var k :| 0 <= k < |rs'| && rs'[k].tag == t;
        assert rs'[k] in rs;
      }
    }
  }
}
