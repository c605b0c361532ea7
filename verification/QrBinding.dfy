/**
 * `qrProblem`: what the QR code's nine records must say about the invoice, its hash, its signature
 * and its certificate. Canonicalisation, digests, base64, text decoding, certificate decoding and
 * the ECDSA test are library code: they are arbitrary functions here.
 */
module QrBinding {
  import opened Wrappers
  import opened JavaArithmetic
  import opened Xml
  import opened DocumentElements
  import Tlv
  import Der

  /** A Java byte array. */
  type Bytes = b: seq<Byte> | |b| <= MAX_INT

  /** The exceptions that `verifySerialized` tells apart; the last stands for all others. */
  datatype Exception = ParserConfiguration | Sax(code: string) | BadArgument | AnyOther

  /** What a call brings back. */
  datatype Call<+T> = Returns(value: T) | Raises(exception: Exception) {
    predicate IsFailure() {
      Raises?
    }

    function PropagateFailure<U>(): Call<U>
      requires IsFailure()
    {
      Raises(exception)
    }

    function Extract(): T
      requires !IsFailure()
    {
      value
    }
  }

  /** An X.509 certificate as its decoder presents it. */
  datatype Certificate = Certificate(encoded: Bytes, onCurve: bool, publicKey: Bytes)

  datatype Library = Library(
    text: seq<Byte> -> string,
    setUp: Call<bool>,
    canonicalDocument: Content -> Call<Bytes>,
    canonicalElement: (Content, Elem) -> Call<Bytes>,
    digest: Bytes -> Call<Bytes>,
    decodeBase64: string -> Call<Bytes>,
    encodeBase64: Bytes -> string,
    readCertificate: Bytes -> Call<Certificate>,
    sameIssuer: (Certificate, string) -> Call<bool>,
    sameSerial: (Certificate, string) -> Call<bool>,
    sameMoney: (string, string) -> bool,
    prepare: (Certificate, Bytes) -> Call<bool>,
    signedBy: (Certificate, Bytes, Bytes) -> Call<bool>)

  const DS_NS := "http://www.w3.org/2000/09/xmldsig#"

  /** `base64`: decode the trimmed text of an element that must be there. */
  function Base64(lib: Library, e: Option<Elem>): Call<Bytes> {
    if e.None? then Raises(BadArgument) else lib.decodeBase64(TextIn(e))
  }

  /** The digest of the canonical form of a document from which the excluded nodes have been removed. */
  function HashOf(lib: Library, unsigned: Content): Call<Bytes> {
    var canonical :- lib.canonicalDocument(unsigned);
    lib.digest(canonical)
  }

  /** The references that are identified as QR. */
  function QrReferences(references: seq<Elem>): seq<Elem> {
    if references == [] then []
    else QrReferences(references[..|references| - 1])
         + (if HasQrId(Self, references[|references| - 1].kids) then [references[|references| - 1]] else [])
  }

  lemma {:induction false} MoreReferences(references: seq<Elem>, n: nat)
    requires n <= |references|
    ensures |QrReferences(references[..n])| <= |QrReferences(references)|
  {
    if n < |references| {
      MoreReferences(references[..|references| - 1], n);
      assert references[..|references| - 1][..n] == references[..n];
    } else {
      assert references[..n] == references;
    }
  }

  /** The loop over the references, which stops at a second QR one. */
  method FindQrReference(references: seq<Elem>) returns (found: Option<Elem>, duplicate: bool)
    ensures found == Only(QrReferences(references))
    ensures duplicate <==> |QrReferences(references)| > 1
  {
    found := None;
    for i := 0 to |references|
      invariant QrReferences(references[..i]) == if found.None? then [] else [found.value]
    {
      assert references[..i + 1][..i] == references[..i];
      if HasQrId(Self, references[i].kids) {
        if found != None {
          assert |QrReferences(references[..i + 1])| == 2;
          MoreReferences(references, i + 1);
          return None, true;
        }
        found := Some(references[i]);
      }
    }
    assert references[..|references|] == references;
    duplicate := false;
  }

  /** What the invoice itself says. */
  datatype Figures = Figures(seller: string, vatNumber: string, timestamp: string, total: string, vatTotal: string)

  function FiguresOf(document: Content): Option<Figures> {
    var root := Root(document, 0);
    var party := Descendant(root, CAC_NS, "AccountingSupplierParty");
    if root.None? || party.None? then None else
    var entity := Direct(Direct(party, CAC_NS, "Party"), CAC_NS, "PartyLegalEntity");
    var taxes := Select(AllIn(root.value.kids, root.value.at + 1), CBC_NS, "TaxAmount");
    Some(Figures(
      TextIn(Direct(entity, CBC_NS, "RegistrationName")),
      TextIn(Descendant(party, CBC_NS, "CompanyID")),
      TextIn(Descendant(root, CBC_NS, "IssueDate")) + "T" + TextIn(Descendant(root, CBC_NS, "IssueTime")),
      TextIn(Descendant(root, CBC_NS, "PayableAmount")),
      if taxes == [] then "" else TextIn(Some(taxes[0]))))
  }

  /** The seller's name: through the first `Party`, its first `PartyLegalEntity` and its first `RegistrationName`. */
  ghost predicate NamesSeller(supplier: Elem, name: string) {
    if exists party, entity :: IsLegalEntity(supplier, party, entity)
    then exists party, entity :: IsLegalEntity(supplier, party, entity)
                                 && SaysFirst(Children(entity.kids, entity.at + 1), CBC_NS, "RegistrationName", name)
    else name == ""
  }

  ghost predicate IsLegalEntity(supplier: Elem, party: Elem, entity: Elem) {
    && IsFirst(Children(supplier.kids, supplier.at + 1), party, CAC_NS, "Party")
    && IsFirst(Children(party.kids, party.at + 1), entity, CAC_NS, "PartyLegalEntity")
  }

  /**
   * The figures as the invoice shows them below its root: in its only supplier party, the seller and the
   * VAT number; the date, the time and the payable amount where each stands only once; and the first of
   * the tax amounts.
   */
  ghost predicate Shows(document: Content, supplier: Elem, figures: Figures) {
    && Children(document, 0) != []
    && var root := Children(document, 0)[0];
      var below := AllIn(root.kids, root.at + 1);
      && IsOnly(below, supplier, CAC_NS, "AccountingSupplierParty")
      && NamesSeller(supplier, figures.seller)
      && SaysOnly(AllIn(supplier.kids, supplier.at + 1), CBC_NS, "CompanyID", figures.vatNumber)
      && (exists date, time :: SaysOnly(below, CBC_NS, "IssueDate", date) && SaysOnly(below, CBC_NS, "IssueTime", time) && figures.timestamp == date + "T" + time)
      && SaysOnly(below, CBC_NS, "PayableAmount", figures.total)
      && SaysFirst(below, CBC_NS, "TaxAmount", figures.vatTotal)
  }

  lemma SellerIsNamed(supplier: Elem)
    ensures NamesSeller(supplier, TextIn(Direct(Direct(Direct(Some(supplier), CAC_NS, "Party"), CAC_NS, "PartyLegalEntity"), CBC_NS, "RegistrationName")))
  {
    hide First, Children, IsFirst, SaysFirst, TextOf, Trim, AllIn;
    var party := Direct(Some(supplier), CAC_NS, "Party");
    var entity := Direct(party, CAC_NS, "PartyLegalEntity");
    forall p: Elem, e: Elem
      ensures party == Some(p) && entity == Some(e) <==> IsLegalEntity(supplier, p, e)
    {
      DirectIsFirst(supplier, CAC_NS, "Party", p);
      DirectIsFirst(p, CAC_NS, "PartyLegalEntity", e);
    }
    hide IsLegalEntity;
    if entity.Some? {
      DirectSays(entity.value, CBC_NS, "RegistrationName");
      assert IsLegalEntity(supplier, party.value, entity.value);
    }
    hide TextIn;
  }

  lemma FirstTaxSays(root: Elem)
    ensures var below := AllIn(root.kids, root.at + 1);
            var taxes := Select(below, CBC_NS, "TaxAmount");
            SaysFirst(below, CBC_NS, "TaxAmount", if taxes == [] then "" else TextIn(Some(taxes[0])))
  {
    FirstOfSelected(AllIn(root.kids, root.at + 1), CBC_NS, "TaxAmount");
    hide TextIn, Select, AllIn;
  }

  lemma FiguresAreShown(document: Content) returns (supplier: Elem)
    requires FiguresOf(document).Some?
    ensures Shows(document, supplier, FiguresOf(document).value)
  {
    hide Root, Descendant, Direct, TextIn, Select, AllIn, Children, NamesSeller, SaysOnly, SaysFirst, IsOnly;
    RootIsFirst(document, 0);
    var root := Root(document, 0).value;
    supplier := Descendant(Some(root), CAC_NS, "AccountingSupplierParty").value;
    DescendantIsOnly(root, CAC_NS, "AccountingSupplierParty", supplier);
    SellerIsNamed(supplier);
    DescendantSays(supplier, CBC_NS, "CompanyID");
    DescendantSays(root, CBC_NS, "IssueDate");
    DescendantSays(root, CBC_NS, "IssueTime");
    DescendantSays(root, CBC_NS, "PayableAmount");
    FirstTaxSays(root);
  }

  lemma OneSeller(supplier: Elem, a: string, b: string)
    requires NamesSeller(supplier, a) && NamesSeller(supplier, b)
    ensures a == b
  {
    hide IsFirst, SaysFirst, TextOf, Trim, Children;
    forall p: Elem, e: Elem, p': Elem, e': Elem | IsLegalEntity(supplier, p, e) && IsLegalEntity(supplier, p', e')
      ensures p == p' && e == e'
    {
      ChildrenFollow(supplier.kids, supplier.at + 1);
      OneFirst(Children(supplier.kids, supplier.at + 1), p, p', CAC_NS, "Party");
      ChildrenFollow(p.kids, p.at + 1);
      OneFirst(Children(p.kids, p.at + 1), e, e', CAC_NS, "PartyLegalEntity");
    }
    hide IsLegalEntity;
    if p, e :| IsLegalEntity(supplier, p, e) {
      ChildrenFollow(e.kids, e.at + 1);
      SaysOneText(Children(e.kids, e.at + 1), CBC_NS, "RegistrationName", a, b);
    }
  }

  lemma ShowsOneFigures(document: Content, one: Elem, a: Figures, other: Elem, b: Figures)
    requires Shows(document, one, a) && Shows(document, other, b)
    ensures a == b
  {
    hide IsOnly, SaysOnly, SaysFirst, AllIn, Children, NamesSeller;
    var root := Children(document, 0)[0];
    var below := AllIn(root.kids, root.at + 1);
    assert one == other by {
      DescendantIsOnly(root, CAC_NS, "AccountingSupplierParty", one);
      DescendantIsOnly(root, CAC_NS, "AccountingSupplierParty", other);
    }
    OneSeller(one, a.seller, b.seller);
    SaysOneText(AllIn(one.kids, one.at + 1), CBC_NS, "CompanyID", a.vatNumber, b.vatNumber);
    var date, time :| SaysOnly(below, CBC_NS, "IssueDate", date) && SaysOnly(below, CBC_NS, "IssueTime", time) && a.timestamp == date + "T" + time;
    var date', time' :| SaysOnly(below, CBC_NS, "IssueDate", date') && SaysOnly(below, CBC_NS, "IssueTime", time') && b.timestamp == date' + "T" + time';
    SaysOneText(below, CBC_NS, "IssueDate", date, date');
    SaysOneText(below, CBC_NS, "IssueTime", time, time');
    SaysOneText(below, CBC_NS, "PayableAmount", a.total, b.total);
    SaysOneText(below, CBC_NS, "TaxAmount", a.vatTotal, b.vatTotal);
  }

  /** The verifier compares with the figures that the invoice shows, and with no others. */
  lemma FiguresExactly(document: Content, figures: Figures)
    ensures FiguresOf(document) == Some(figures) <==> exists supplier :: Shows(document, supplier, figures)
  {
    if FiguresOf(document) == Some(figures) {
      var supplier := FiguresAreShown(document);
    }
    if supplier :| Shows(document, supplier, figures) {
      FiguresAreThere(document, supplier, figures);
      hide FiguresOf, Shows;
      var other := FiguresAreShown(document);
      ShowsOneFigures(document, supplier, figures, other, FiguresOf(document).value);
    }
  }

  lemma FiguresAreThere(document: Content, supplier: Elem, figures: Figures)
    requires Shows(document, supplier, figures)
    ensures FiguresOf(document).Some?
  {
    hide IsOnly, SaysOnly, SaysFirst, AllIn, Children, NamesSeller, Root, Descendant, Direct, TextIn, Select;
    RootIsFirst(document, 0);
    DescendantIsOnly(Children(document, 0)[0], CAC_NS, "AccountingSupplierParty", supplier);
  }

  /** What a record with its tag must hold. */
  ghost predicate Binds(lib: Library, figures: Figures, certificate: Certificate, hash: Bytes, signature: Bytes, tag: int, value: seq<Byte>) {
    match tag
    case 1 => figures.seller == lib.text(value)
    case 2 => figures.vatNumber == lib.text(value)
    case 3 => figures.timestamp == lib.text(value)
    case 4 => lib.sameMoney(figures.total, lib.text(value))
    case 5 => lib.sameMoney(figures.vatTotal, lib.text(value))
    case 6 => lib.encodeBase64(hash) == lib.text(value)
    case 7 => value == signature
    case 8 => value == certificate.publicKey
    case _ =>
      && Der.IsCertificate(certificate.encoded)
      && value == certificate.encoded[Der.Bits(certificate.encoded).start + 1..Der.Bits(certificate.encoded).end]
  }

  ghost predicate AllBind(lib: Library, figures: Figures, certificate: Certificate, hash: Bytes, signature: Bytes, records: seq<Tlv.Record>) {
    forall k :: 0 <= k < |records| ==> Binds(lib, figures, certificate, hash, signature, records[k].tag, records[k].value)
  }

  /** The payload the document carries: the one QR reference's one embedded object. */
  function PayloadOf(lib: Library, document: Content): Call<Bytes> {
    var reference := Only(QrReferences(Select(AllIn(document, 0), CAC_NS, "AdditionalDocumentReference")));
    Base64(lib, Descendant(reference, CBC_NS, "EmbeddedDocumentBinaryObject"))
  }

  /** A reference that is identified as QR by its first id. */
  ghost predicate IsQrReference(document: Content, e: Elem) {
    && e in AllIn(document, 0) && Named(e.says, CAC_NS, "AdditionalDocumentReference")
    && SaysFirst(Children(e.kids, e.at + 1), CBC_NS, "ID", "QR")
  }

  /** The document's only QR reference, and the only object embedded in it. */
  ghost predicate Carries(document: Content, reference: Elem, embedded: Elem) {
    && IsQrReference(document, reference) && (forall e :: IsQrReference(document, e) ==> e == reference)
    && IsOnly(AllIn(reference.kids, reference.at + 1), embedded, CBC_NS, "EmbeddedDocumentBinaryObject")
  }

  lemma {:induction false} QrSelected(references: seq<Elem>)
    requires InOrder(references)
    ensures InOrder(QrReferences(references))
    ensures forall e: Elem :: e in QrReferences(references) <==> e in references && HasQrId(Self, e.kids)
  {
    hide HasQrId;
    if references != [] {
      var n := |references| - 1;
      QrSelected(references[..n]);
      assert references == references[..n] + [references[n]];
      var before := QrReferences(references[..n]);
      assert forall i :: 0 <= i < |before| ==> before[i] in before;
    }
  }

  lemma OneInOrder(some: seq<Elem>, e: Elem)
    requires InOrder(some)
    ensures Only(some) == Some(e) <==> e in some && (forall x :: x in some ==> x == e)
  {
    if |some| > 1 {
      assert some[0] in some && some[1] in some && some[0] != some[1];
    } else if |some| == 1 {
      assert some[0] in some && forall x :: x in some ==> x == some[0];
    }
  }

  lemma QrReferenceExactly(document: Content, reference: Elem)
    ensures Only(QrReferences(Select(AllIn(document, 0), CAC_NS, "AdditionalDocumentReference"))) == Some(reference)
       <==> IsQrReference(document, reference) && forall e :: IsQrReference(document, e) ==> e == reference
  {
    var references := Select(AllIn(document, 0), CAC_NS, "AdditionalDocumentReference");
    SelectedPlaces(AllIn(document, 0), CAC_NS, "AdditionalDocumentReference");
    QrSelected(references);
    forall e: Elem
      ensures e in QrReferences(references) <==> IsQrReference(document, e)
    {
      QrIdIsFirst(e);
    }
    OneInOrder(QrReferences(references), reference);
    hide IsQrReference, QrReferences, Select, AllIn, Only;
  }

  /** The payload that is parsed is the decoded text of that object, and of no other. */
  lemma PayloadExactly(lib: Library, document: Content, bytes: Bytes)
    ensures PayloadOf(lib, document) == Returns(bytes)
       <==> exists reference, embedded :: Carries(document, reference, embedded) && lib.decodeBase64(TextIn(Some(embedded))) == Returns(bytes)
  {
    hide IsQrReference, IsOnly, QrReferences, Select, AllIn, TextIn, Only;
    var found := Only(QrReferences(Select(AllIn(document, 0), CAC_NS, "AdditionalDocumentReference")));
    forall reference: Elem, embedded: Elem
      ensures Carries(document, reference, embedded) <==> found == Some(reference) && Descendant(found, CBC_NS, "EmbeddedDocumentBinaryObject") == Some(embedded)
    {
      QrReferenceExactly(document, reference);
      DescendantIsOnly(reference, CBC_NS, "EmbeddedDocumentBinaryObject", embedded);
    }
    hide Carries, Descendant;
    if PayloadOf(lib, document) == Returns(bytes) {
      NoObjectBelowNothing();
      assert Carries(document, found.value, Descendant(found, CBC_NS, "EmbeddedDocumentBinaryObject").value);
    }
  }

  lemma NoObjectBelowNothing()
    ensures Descendant(None, CBC_NS, "EmbeddedDocumentBinaryObject") == None
  {
  }

  /** The QR code is in order: it is a payload of nine records, one for each tag, and each says what it must. */
  ghost predicate QrBinds(lib: Library, document: Content, certificate: Certificate, hash: Bytes, signature: Bytes) {
    && PayloadOf(lib, document).Returns? && FiguresOf(document).Some?
    && exists records :: Tlv.IsQrPayload(PayloadOf(lib, document).value, records)
                         && AllBind(lib, FiguresOf(document).value, certificate, hash, signature, records)
  }

  /** `qrProblem`, with its exits in order: nothing is wrong exactly when the QR code is in order. */
  method QrProblem(lib: Library, document: Content, certificate: Certificate, hash: Bytes, signature: Bytes)
    returns (problem: Call<Option<string>>)
    ensures problem == Returns(None) <==> QrBinds(lib, document, certificate, hash, signature)
  {
    hide AllBind, Tlv.IsQrPayload, Tlv.Decomposable, FiguresOf;
    var references := Select(AllIn(document, 0), CAC_NS, "AdditionalDocumentReference");
    var reference, duplicate := FindQrReference(references);
    if duplicate { return Returns(Some("QR_DUPLICATE_REFERENCE")); }
    if reference == None { return Returns(Some("QR_REFERENCE_MISSING")); }
    var payload := Descendant(reference, CBC_NS, "EmbeddedDocumentBinaryObject");
    if payload == None { return Returns(Some("QR_PAYLOAD_MISSING")); }
    var bytes := Base64(lib, payload);
    if bytes.Raises? { return Raises(bytes.exception); }
    var buffer := new Byte[|bytes.value|](i requires 0 <= i < |bytes.value| => bytes.value[i]);
    assert buffer[..] == bytes.value;
    var values := Tlv.Parse(buffer);
    NoPayloadNoBinding(lib, document, certificate, hash, signature);
    if values.IllegalArgument? { return Raises(BadArgument); }
    if values.IndexOutOfBounds? { return Raises(AnyOther); }
    var figures := FiguresOf(document);
    if figures == None { return Returns(Some("QR_SELLER_MISSING")); }
    SlotsBind(lib, figures.value, certificate, hash, signature, bytes.value, values.value);
    problem := CompareRecords(lib, figures.value, certificate, hash, signature, values.value);
  }

  lemma NoPayloadNoBinding(lib: Library, document: Content, certificate: Certificate, hash: Bytes, signature: Bytes)
    ensures QrBinds(lib, document, certificate, hash, signature) ==>
              PayloadOf(lib, document).Returns? && Tlv.Decomposable(PayloadOf(lib, document).value)
  {
  }

  /** What is reported of the first record that does not hold what it must. */
  function MismatchCode(tag: int): string {
    match tag
    case 1 => "QR_SELLER_MISMATCH"
    case 2 => "QR_VAT_MISMATCH"
    case 3 => "QR_TIMESTAMP_MISMATCH"
    case 4 => "QR_TOTAL_MISMATCH"
    case 5 => "QR_VAT_TOTAL_MISMATCH"
    case 6 => "QR_HASH_MISMATCH"
    case 7 => "QR_SIGNATURE_MISMATCH"
    case 8 => "QR_PUBLIC_KEY_MISMATCH"
    case _ => "QR_AUTHORITY_SIGNATURE_MISMATCH"
  }

  /** The comparisons at the end of `qrProblem`. */
  method CompareRecords(lib: Library, figures: Figures, certificate: Certificate, hash: Bytes, signature: Bytes, values: Tlv.Slots)
    returns (problem: Call<Option<string>>)
    requires |values| == 10 && forall t :: 1 <= t <= 9 ==> values[t].Some?
    ensures problem == Returns(None)
       <==> forall t :: 1 <= t <= 9 ==> Binds(lib, figures, certificate, hash, signature, t, values[t].value)
    ensures forall t :: 1 <= t <= 9 && (t == 9 ==> Der.IsCertificate(certificate.encoded))
                        && (forall u :: 1 <= u < t ==> Binds(lib, figures, certificate, hash, signature, u, values[u].value))
                        && !Binds(lib, figures, certificate, hash, signature, t, values[t].value) ==>
              problem == Returns(Some(MismatchCode(t)))
  {
    hide MismatchCode;
    if figures.seller != lib.text(values[1].value) { return Returns(Some(MismatchCode(1))); }
    if figures.vatNumber != lib.text(values[2].value) { return Returns(Some(MismatchCode(2))); }
    if figures.timestamp != lib.text(values[3].value) { return Returns(Some(MismatchCode(3))); }
    if !lib.sameMoney(figures.total, lib.text(values[4].value)) { return Returns(Some(MismatchCode(4))); }
    if !lib.sameMoney(figures.vatTotal, lib.text(values[5].value)) { return Returns(Some(MismatchCode(5))); }
    if lib.encodeBase64(hash) != lib.text(values[6].value) { return Returns(Some(MismatchCode(6))); }
    if signature != values[7].value { return Returns(Some(MismatchCode(7))); }
    if certificate.publicKey != values[8].value { return Returns(Some(MismatchCode(8))); }
    var encoded := new Byte[|certificate.encoded|](i requires 0 <= i < |certificate.encoded| => certificate.encoded[i]);
    assert encoded[..] == certificate.encoded;
    var last := values[9].value;
    var authority := Der.AuthoritySignature(encoded);
    if authority.IllegalArgument? { return Raises(BadArgument); }
    if authority.IndexOutOfBounds? { return Raises(AnyOther); }
    if authority.value != last { return Returns(Some(MismatchCode(9))); }
    return Returns(None);
  }

  /** What the slots hold is what the records say, whichever way the payload is read. */
  lemma SlotsBind(lib: Library, figures: Figures, certificate: Certificate, hash: Bytes, signature: Bytes, bytes: seq<Byte>, values: Tlv.Slots)
    requires Tlv.Decomposable(bytes) && forall records :: Tlv.IsQrPayload(bytes, records) ==> Tlv.Holds(values, records)
    ensures |values| == 10 && forall t :: 1 <= t <= 9 ==> values[t].Some?
    ensures (forall t :: 1 <= t <= 9 ==> Binds(lib, figures, certificate, hash, signature, t, values[t].value))
       <==> exists records :: Tlv.IsQrPayload(bytes, records) && AllBind(lib, figures, certificate, hash, signature, records)
  {
    var records: seq<Tlv.Record> :| Tlv.IsQrPayload(bytes, records);
    Tlv.NineTags(records);
    hide Binds;
    forall full: seq<Tlv.Record> | Tlv.IsQrPayload(bytes, full)
      ensures full == records
    {
      Tlv.DecompositionIsUnique(bytes, full, records);
    }
    forall t | 1 <= t <= 9
      ensures values[t].Some?
      ensures AllBind(lib, figures, certificate, hash, signature, records) ==> Binds(lib, figures, certificate, hash, signature, t, values[t].value)
    {
      assert Tlv.HasTag(records, t);
      var k :| 0 <= k < |records| && records[k].tag == t;
    }
    if forall t :: 1 <= t <= 9 ==> Binds(lib, figures, certificate, hash, signature, t, values[t].value) {
      forall k | 0 <= k < |records|
        ensures Binds(lib, figures, certificate, hash, signature, records[k].tag, records[k].value)
      {
        assert values[records[k].tag] == Some(records[k].value);
      }
    }
  }
}
