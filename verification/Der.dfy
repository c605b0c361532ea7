/** The DER walk that finds a certificate's signature bits: `derElement` and `authoritySignature`. */
module Der {
  import opened JavaArithmetic

  /** `{ tag, cursor, cursor + length }`: the content is bytes[start..end]. */
  datatype Element = Element(tag: Byte, start: int, end: int)

  /** The big-endian number that the four-byte-at-most length loop builds. */
  function BigEndian(digits: seq<Byte>): (n: nat)
  {
    if digits == [] then 0 else 256 * BigEndian(digits[..|digits| - 1]) + digits[|digits| - 1]
  }

  /** The length part of an element: one byte below 128, or a count 1..4 and that many bytes. */
  datatype LengthPart = ShortLength(n: Byte) | LongLength(digits: seq<Byte>) {
    predicate Valid() {
      match this
      case ShortLength(n) => n < 128
      case LongLength(digits) => 1 <= |digits| <= 4
    }

    function Bytes(): seq<Byte>
      requires Valid()
    {
      match this
      case ShortLength(n) => [n]
      case LongLength(digits) => [128 + |digits|] + digits
    }

    function Length(): nat {
      match this
      case ShortLength(n) => n
      case LongLength(digits) => BigEndian(digits)
    }
  }

  /** An element as it is written: section 8.1.3 of ITU-T X.690, definite form. */
  datatype Tlv = Tlv(tag: Byte, length: LengthPart, content: seq<Byte>) {
    predicate Valid() {
      length.Valid() && length.Length() == |content|
    }

    function Bytes(): (b: seq<Byte>)
      requires Valid()
      ensures |b| >= |content| + 2 && b[|b| - |content|..] == content
    {
      [tag] + length.Bytes() + content
    }
  }

  /** The written element `t` occurs in `b` at `offset`. */
  ghost predicate At(b: seq<Byte>, offset: int, t: Tlv) {
    && t.Valid()
    && 0 <= offset && offset + |t.Bytes()| <= |b|
    && b[offset..offset + |t.Bytes()|] == t.Bytes()
  }

  /** The header at `offset`, with the length it declares whether or not that much follows. */
  datatype Header = NoHeader | Header(tag: Byte, start: nat, length: nat)

  ghost function HeaderAt(b: seq<Byte>, offset: int): Header {
    if offset < 0 || offset + 2 > |b| then NoHeader
    else if b[offset + 1] < 128 then Header(b[offset], offset + 2, b[offset + 1])
    else
      var count := b[offset + 1] - 128;
      if count < 1 || count > 4 || offset + 2 + count > |b| then NoHeader
      else Header(b[offset], offset + 2 + count, BigEndian(b[offset + 2..offset + 2 + count]))
  }

  /** A whole element lies at `offset`: its header, and all the content that declares. */
  ghost predicate Whole(b: seq<Byte>, offset: int) {
    var h := HeaderAt(b, offset);
    h.Header? && h.start + h.length <= |b|
  }

  ghost function ElementAt(b: seq<Byte>, offset: int): (e: Element)
    requires Whole(b, offset)
  {
    var h := HeaderAt(b, offset);
    Element(h.tag, h.start, h.start + h.length)
  }

  /** Whole elements are exactly the well-formed ones that occur in the bytes. */
  lemma WholeIsWritten(b: seq<Byte>, offset: int)
    ensures Whole(b, offset) <==> exists t: Tlv :: At(b, offset, t)
    ensures forall t: Tlv :: At(b, offset, t) ==> b[ElementAt(b, offset).start..ElementAt(b, offset).end] == t.content
  {
    if Whole(b, offset) {
      var _ := WrittenElement(b, offset);
    }
    forall t: Tlv | At(b, offset, t)
      ensures Whole(b, offset) && b[ElementAt(b, offset).start..ElementAt(b, offset).end] == t.content
    {
      HeaderOfWritten(b, offset, t);
    }
  }

  lemma WrittenElement(b: seq<Byte>, offset: int) returns (t: Tlv)
    requires Whole(b, offset)
    ensures At(b, offset, t)
  {
    var e := ElementAt(b, offset);
    var first := b[offset + 1];
    var content := b[e.start..e.end];
    var digits := b[offset + 2..e.start];
    t := Tlv(b[offset], if first < 128 then ShortLength(first) else LongLength(digits), content);
    assert b[offset..e.end] == b[offset..offset + 2] + digits + content;
    assert t.Bytes() == b[offset..e.end];
  }

  lemma HeaderOfWritten(b: seq<Byte>, offset: int, t: Tlv)
    requires At(b, offset, t)
    ensures Whole(b, offset)
    ensures ElementAt(b, offset) == Element(t.tag, offset + |t.Bytes()| - |t.content|, offset + |t.Bytes()|)
    ensures b[ElementAt(b, offset).start..ElementAt(b, offset).end] == t.content
  {
    HeaderBytes(t);
    var n := |t.Bytes()|;
    var header := n - |t.content|;
    hide Tlv.Bytes, BigEndian;
    SliceOfSlice(b, offset, offset + n, 0, 2);
    SliceOfSlice(b, offset, offset + n, 2, header);
    SliceOfSlice(b, offset, offset + n, header, n);
    assert b[offset] == b[offset..offset + 2][0] == t.Bytes()[0..2][0];
    assert b[offset + 1] == b[offset..offset + 2][1] == t.Bytes()[0..2][1];
    hide At;
    assert HeaderAt(b, offset) == Header(t.tag, offset + header, |t.content|);
  }

  /** How a written element starts, and that its content ends it. */
  lemma HeaderBytes(t: Tlv)
    requires t.Valid()
    ensures var header := |t.Bytes()| - |t.content|;
            && 2 <= header && t.Bytes()[0..2] == [t.tag, if t.length.ShortLength? then t.length.n else 128 + |t.length.digits|]
            && t.Bytes()[2..header] == (if t.length.ShortLength? then [] else t.length.digits)
            && |t.content| == (if t.length.ShortLength? then t.length.n else BigEndian(t.length.digits))
            && t.Bytes()[header..|t.Bytes()|] == t.content
  {
  }

  lemma SliceOfSlice(b: seq<Byte>, lo: nat, hi: nat, i: nat, j: nat)
    requires lo <= hi <= |b| && i <= j <= hi - lo
    ensures b[lo..hi][i..j] == b[lo + i..lo + j]
  {
    forall k | 0 <= k < j - i
      ensures b[lo..hi][i..j][k] == b[lo + i..lo + j][k]
    {
      assert b[lo..hi][i + k] == b[lo + (i + k)];
    }
  }

  lemma WrapIsPeriodic(x: int, k: int)
    ensures Int32(x + TWO_POW_32 * k) == Int32(x)
  {
    var q, r := (x + TWO_POW_31) / TWO_POW_32, (x + TWO_POW_31) % TWO_POW_32;
    assert x + TWO_POW_32 * k + TWO_POW_31 == TWO_POW_32 * (q + k) + r;
  }

  /** Wrapping after every shift is wrapping once at the end. */
  lemma WrapOfShift(exact: int, next: Byte)
    ensures ShiftIn(Int32(exact), next) == Int32(exact * 256 + next)
  {
    var k := (exact + TWO_POW_31) / TWO_POW_32;
    assert Int32(exact) == exact - TWO_POW_32 * k;
    WrapIsPeriodic(exact * 256 + next, -256 * k);
    assert Int32(exact) * 256 + next == exact * 256 + next + TWO_POW_32 * (-256 * k);
  }

  lemma {:induction false} BigEndianBound(digits: seq<Byte>)
    requires |digits| <= 4
    ensures BigEndian(digits) < TWO_POW_32
    ensures |digits| <= 3 ==> BigEndian(digits) <= 0xFF_FFFF
    ensures |digits| <= 2 ==> BigEndian(digits) <= 0xFFFF
    ensures |digits| <= 1 ==> BigEndian(digits) <= 0xFF
  {
    if digits != [] {
      BigEndianBound(digits[..|digits| - 1]);
    }
  }

  /** The loop of `derElement` over the bytes of a long length. */
  method ReadLongLength(bytes: array<Byte>, start: nat, count: nat) returns (length: int)
    requires start + count <= bytes.Length && count <= 4
    ensures length == Int32(BigEndian(bytes[start..start + count]))
  {
    var cursor := start;
    length := 0;
    for i := 0 to count
      invariant cursor == start + i
      invariant length == Int32(BigEndian(bytes[start..cursor]))
    {
      ghost var digits := bytes[start..cursor];
      WrapOfShift(BigEndian(digits), bytes[cursor]);
      assert bytes[start..cursor + 1][..i] == digits;
      length := ShiftIn(length, bytes[cursor]);
      cursor := cursor + 1;
    }
  }

  /**
   * `derElement`. The cursor never leaves the array while the length is read, but the sum of
   * cursor and length may wrap: then the end is negative and the bounds test lets it through.
   */
  method DerElement(bytes: array<Byte>, offset: int) returns (result: Parsed<Element>)
    requires bytes.Length <= MAX_INT && -TWO_POW_31 <= offset <= MAX_INT
    ensures Whole(bytes[..], offset) <==> result.Value? && result.value.end >= 0
    ensures Whole(bytes[..], offset) ==> result.value == ElementAt(bytes[..], offset)
    ensures result.Value? ==> 0 < result.value.start <= bytes.Length
    ensures result.Value? ==> -TWO_POW_31 <= result.value.end <= bytes.Length
  {
    hide BigEndian;
    if Int32(offset + 2) > bytes.Length {
      return IllegalArgument;
    }
    if offset < 0 || offset + 1 >= bytes.Length {
      return IndexOutOfBounds;
    }
    var tag := bytes[offset];
    var first := bytes[offset + 1];
    var cursor := offset + 2;
    var length: int := first;
    if first >= 128 {
      var count := first % 128;
      if count < 1 || count > 4 || Int32(cursor + count) > bytes.Length {
        return IllegalArgument;
      }
      if cursor + count > bytes.Length {
        return IndexOutOfBounds;
      }
      length := ReadLongLength(bytes, cursor, count);
      BigEndianBound(bytes[cursor..cursor + count]);
      assert bytes[..][cursor..cursor + count] == bytes[cursor..cursor + count];
      cursor := cursor + count;
    }
    if length < 0 || Int32(cursor + length) > bytes.Length {
      return IllegalArgument;
    }
    return Value(Element(tag, cursor, Int32(cursor + length)));
  }

  /**
   * Where the bytes of a certificate put its signature: one outer element whose content is
   * exactly three consecutive elements, the last a BIT STRING (section 4.1 of RFC 5280) with
   * no unused bits (section 8.6 of ITU-T X.690) and at least the unused-bits octet.
   */
  ghost predicate IsCertificate(b: seq<Byte>) {
    && Whole(b, 0)
    && Whole(b, ElementAt(b, 0).start)
    && Whole(b, Tbs(b).end)
    && Whole(b, Algorithm(b).end)
    && var bits := Bits(b);
      bits.tag == 3 && bits.end == ElementAt(b, 0).end && bits.start < bits.end && b[bits.start] == 0
  }

  ghost function Tbs(b: seq<Byte>): Element
    requires Whole(b, 0) && Whole(b, ElementAt(b, 0).start)
  {
    ElementAt(b, ElementAt(b, 0).start)
  }

  ghost function Algorithm(b: seq<Byte>): Element
    requires Whole(b, 0) && Whole(b, ElementAt(b, 0).start) && Whole(b, Tbs(b).end)
  {
    ElementAt(b, Tbs(b).end)
  }

  ghost function Bits(b: seq<Byte>): Element
    requires Whole(b, 0) && Whole(b, ElementAt(b, 0).start) && Whole(b, Tbs(b).end) && Whole(b, Algorithm(b).end)
  {
    ElementAt(b, Algorithm(b).end)
  }

  /** Containment is never tested, yet it follows: the three elements tile the outer content. */
  lemma ElementsAreNested(b: seq<Byte>)
    requires IsCertificate(b)
    ensures 0 < ElementAt(b, 0).start < Tbs(b).start <= Tbs(b).end < Algorithm(b).start <= Algorithm(b).end
    ensures Algorithm(b).end < Bits(b).start < Bits(b).end == ElementAt(b, 0).end <= |b|
  {
  }

  /** `authoritySignature`: the contents of the BIT STRING after its first octet. */
  method AuthoritySignature(certificate: array<Byte>) returns (result: Parsed<seq<Byte>>)
    requires certificate.Length <= MAX_INT
    ensures result.Value? <==> IsCertificate(certificate[..])
    ensures result.Value? ==> result.value == certificate[Bits(certificate[..]).start + 1..Bits(certificate[..]).end]
  {
    ghost var b := certificate[..];
    var outer :- DerElement(certificate, 0);
    var tbs :- DerElement(certificate, outer.start);
    var algorithm :- DerElement(certificate, tbs.end);
    var bit :- DerElement(certificate, algorithm.end);
    if bit.tag != 3 || bit.end != outer.end || bit.start >= bit.end {
      return IllegalArgument;
    }
    if bit.start >= certificate.Length {
      return IndexOutOfBounds;
    }
    if certificate[bit.start] != 0 {
      return IllegalArgument;
    }
    return Value(certificate[bit.start + 1..bit.end]);
  }

  /** Round trip: the signature put into a certificate is the one read back, whatever follows. */
  lemma SignatureOfWritten(outer: Tlv, tbs: Tlv, algorithm: Tlv, bits: Tlv, signature: seq<Byte>, trailing: seq<Byte>)
    requires outer.Valid() && tbs.Valid() && algorithm.Valid() && bits.Valid()
    requires outer.content == tbs.Bytes() + algorithm.Bytes() + bits.Bytes()
    requires bits.tag == 3 && bits.content == [0] + signature
    ensures IsCertificate(outer.Bytes() + trailing)
    ensures var b := outer.Bytes() + trailing; b[Bits(b).start + 1..Bits(b).end] == signature
  {
    hide HeaderAt, Whole, ElementAt, Tlv.Bytes;
    var b := outer.Bytes() + trailing;
    var start := |outer.Bytes()| - |outer.content|;
    var algorithmAt := start + |tbs.Bytes()|;
    var bitsAt := algorithmAt + |algorithm.Bytes()|;
    PartsAreThere(b, outer, tbs, algorithm, bits, trailing);
    HeaderOfWritten(b, 0, outer);
    HeaderOfWritten(b, start, tbs);
    HeaderOfWritten(b, algorithmAt, algorithm);
    HeaderOfWritten(b, bitsAt, bits);
    assert b[Bits(b).start] == b[Bits(b).start..Bits(b).end][0] == bits.content[0];
    SliceOfSlice(b, Bits(b).start, Bits(b).end, 1, 1 + |signature|);
    assert bits.content[1..1 + |signature|] == signature;
  }

  lemma PartsAreThere(b: seq<Byte>, outer: Tlv, tbs: Tlv, algorithm: Tlv, bits: Tlv, trailing: seq<Byte>)
    requires outer.Valid() && tbs.Valid() && algorithm.Valid() && bits.Valid()
    requires outer.content == tbs.Bytes() + algorithm.Bytes() + bits.Bytes()
    requires b == outer.Bytes() + trailing
    ensures At(b, 0, outer)
    ensures var start := |outer.Bytes()| - |outer.content|;
            At(b, start, tbs) && At(b, start + |tbs.Bytes()|, algorithm) && At(b, start + |tbs.Bytes()| + |algorithm.Bytes()|, bits)
  {
    hide Tlv.Bytes, Tlv.Valid;
    var n := |outer.Bytes()|;
    var start := n - |outer.content|;
    var bitsAt := |tbs.Bytes()| + |algorithm.Bytes()|;
    assert b[0..n] == outer.Bytes();
    SliceOfSlice(b, 0, n, start, n);
    assert b[start..n] == outer.content;
    SliceOfSlice(b, start, n, 0, |tbs.Bytes()|);
    SliceOfSlice(b, start, n, |tbs.Bytes()|, bitsAt);
    SliceOfSlice(b, start, n, bitsAt, n - start);
    Thirds(tbs.Bytes(), algorithm.Bytes(), bits.Bytes());
  }

  lemma Thirds(x: seq<Byte>, y: seq<Byte>, z: seq<Byte>)
    ensures (x + y + z)[0..|x|] == x
    ensures (x + y + z)[|x|..|x| + |y|] == y
    ensures (x + y + z)[|x| + |y|..|x| + |y| + |z|] == z
  {
  }
}
