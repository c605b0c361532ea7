/**
 * `verifySerialized` and its `Result`: one parsed document, the elements it is signed by, the digest
 * of its pruned copy, its certificate and its QR code.
 */
module SignatureVerifier {
  import opened Wrappers
  import opened JavaArithmetic
  import opened Xml
  import opened DocumentElements
  import opened QrBinding
  import opened Dom
  import Tlv
  import Der

  const XADES_NS := "http://uri.etsi.org/01903/v1.3.2#"
  const C14N11 := "http://www.w3.org/2006/12/xml-c14n11"
  const SHA256 := "http://www.w3.org/2001/04/xmlenc#sha256"
  const ECDSA_SHA256 := "http://www.w3.org/2001/04/xmldsig-more#ecdsa-sha256"
  const XPATH := "http://www.w3.org/TR/1999/REC-xpath-19991116"

  datatype References =
    | Resolved(documentReference: nat, propertiesReference: nat)
    | WrongCount | External | Unsupported | Missing

  predicate IsExternal(uri: string) {
    ':' in uri
  }

  /** The one acceptable set of references: one empty URI, one same-document URI, in either order. */
  predicate GoodReferences(uris: seq<string>) {
    && |uris| == 2
    && (forall i :: 0 <= i < 2 ==> !IsExternal(uris[i]))
    && ((uris[0] == "" && "#" <= uris[1]) || (uris[1] == "" && "#" <= uris[0]))
  }

  /** A URI that the loop can place. */
  predicate IsLocal(uri: string) {
    !IsExternal(uri) && (uri == "" || "#" <= uri)
  }

  predicate FirstBad(uris: seq<string>, i: int) {
    0 <= i < |uris| && !IsLocal(uris[i]) && forall j :: 0 <= j < i ==> IsLocal(uris[j])
  }

  /** The loop over the `Reference` elements: each one overwrites the variable of its kind. */
  method ResolveReferences(uris: seq<string>) returns (r: References)
    ensures r.Resolved? <==> GoodReferences(uris)
    ensures r.Resolved? ==> r.documentReference < 2 && r.propertiesReference == 1 - r.documentReference
    ensures r.Resolved? ==> uris[r.documentReference] == "" && "#" <= uris[r.propertiesReference]
    ensures r.WrongCount? <==> |uris| != 2
    ensures r.External? <==> |uris| == 2 && exists i :: FirstBad(uris, i) && IsExternal(uris[i])
    ensures r.Unsupported? <==> |uris| == 2 && exists i :: FirstBad(uris, i) && !IsExternal(uris[i])
  {
    if |uris| != 2 {
      return WrongCount;
    }
    var document: Option<nat> := None;
    var properties: Option<nat> := None;
    for index := 0 to |uris|
      invariant forall i :: 0 <= i < index ==> IsLocal(uris[i])
      invariant document.Some? <==> exists i :: 0 <= i < index && uris[i] == ""
      invariant properties.Some? <==> exists i :: 0 <= i < index && "#" <= uris[i]
      invariant document.Some? ==> document.value < index && uris[document.value] == ""
      invariant properties.Some? ==> properties.value < index && "#" <= uris[properties.value]
    {
      var uri := uris[index];
      assert !IsLocal(uri) ==> FirstBad(uris, index) && forall i :: FirstBad(uris, i) ==> i == index;
      if IsExternal(uri) {
        return External;
      }
      if uri == "" {
        document := Some(index);
      } else if "#" <= uri {
        properties := Some(index);
      } else {
        return Unsupported;
      }
    }
    if document == None || properties == None {
      return Missing;
    }
    return Resolved(document.value, properties.value);
  }

  datatype Status =
    | MalformedXml | UnsafeXml | DuplicateId | SignatureMissing | MultipleSignatures | ReferenceInvalid
    | UnsupportedAlgorithm | DigestMismatch | SignedPropertiesInvalid | CertificateInvalid
    | SignatureInvalid | QrBindingInvalid | Valid

  /** The statuses that several checks share, which are also those of the handlers. */
  predicate IsShared(status: Status) {
    status == MalformedXml || status == UnsafeXml || status == ReferenceInvalid || status == CertificateInvalid
  }

  const MAX_SIZE := 2 * 1024 * 1024

  class Result {
    var valid: bool
    var status: Status
    var errors: set<string>
    var safeXml: bool
    var uniqueIds: bool
    var referencesResolved: bool
    var documentDigestValid: bool
    var signedPropertiesDigestValid: bool
    var certificateDigestValid: bool
    var signatureValid: bool
    var qrBindingValid: bool

    constructor ()
      ensures errors == {} && !valid && status == MalformedXml
      ensures EarlyFlags(false, false, false) && NoLateFlags()
    {
      valid := false;
      status := MalformedXml;
      errors := {};
      safeXml, uniqueIds, referencesResolved, documentDigestValid := false, false, false, false;
      signedPropertiesDigestValid, certificateDigestValid, signatureValid, qrBindingValid := false, false, false, false;
    }

    /** The three checks that come before the digests are compared, and the five after. */
    predicate EarlyFlags(safe: bool, unique: bool, resolved: bool)
      reads this
    {
      safeXml == safe && uniqueIds == unique && referencesResolved == resolved
    }

    predicate NoLateFlags()
      reads this
    {
      !documentDigestValid && !signedPropertiesDigestValid && !certificateDigestValid && !signatureValid && !qrBindingValid
    }

    /** Nothing has failed so far. */
    predicate GoingOn()
      reads this
    {
      !valid && status != Status.Valid && errors == {}
    }

    /** One failure has been reported. */
    predicate Stopped()
      reads this
    {
      !valid && status != Status.Valid && |errors| == 1
    }

    /** A status that belongs to one check names the first that was not passed. */
    predicate StatusFits()
      reads this
    {
      && (status == DuplicateId ==> safeXml && !uniqueIds)
      && (status == SignatureMissing || status == MultipleSignatures || status == UnsupportedAlgorithm ==> uniqueIds && !referencesResolved)
      && (status == DigestMismatch ==> referencesResolved && !documentDigestValid)
      && (status == SignedPropertiesInvalid ==> documentDigestValid && !signedPropertiesDigestValid)
      && (status == SignatureInvalid ==> certificateDigestValid && !signatureValid)
      && (status == QrBindingInvalid <==> signatureValid && !qrBindingValid)
    }

    /** What every report says, however verification ended. */
    ghost predicate Coherent()
      reads this
    {
      && (uniqueIds ==> safeXml) && (referencesResolved ==> uniqueIds) && (documentDigestValid ==> referencesResolved)
      && (signedPropertiesDigestValid ==> documentDigestValid) && (certificateDigestValid ==> signedPropertiesDigestValid)
      && (signatureValid ==> certificateDigestValid) && (qrBindingValid ==> signatureValid)
      && (valid <==> qrBindingValid)
      && (valid <==> status == Status.Valid)
      && (valid <==> errors == {})
      && |errors| <= 1 && StatusFits()
    }

    method Fail(newStatus: Status, code: string)
      requires newStatus != Status.Valid && errors == {}
      modifies this`valid, this`status, this`errors
      ensures !valid && status == newStatus && errors == {code}
    {
      valid := false;
      status := newStatus;
      errors := errors + {code};
    }
  }

  // ---- what a valid signed invoice says

  predicate Contains(text: string, word: string) {
    word <= text || (text != "" && Contains(text[1..], word))
  }

  predicate SourceAcceptable(lib: Library, xml: Bytes) {
    0 < |xml| <= MAX_SIZE && !Contains(lib.text(xml), "<!DOCTYPE") && !Contains(lib.text(xml), "<!ENTITY")
  }

  /** The element has such a child, with this algorithm. */
  predicate Uses(e: Elem, usage: string, algorithm: string) {
    var used := Direct(Some(e), DS_NS, usage);
    used.Some? && Get(used.value, "Algorithm") == algorithm
  }

  function SignatureIn(document: Content): Option<Elem> {
    Only(Select(AllIn(document, 0), DS_NS, "Signature"))
  }

  function SignedInfo(signature: Option<Elem>): Option<Elem> {
    Direct(signature, DS_NS, "SignedInfo")
  }

  function SignatureValue(signature: Option<Elem>): Option<Elem> {
    Direct(signature, DS_NS, "SignatureValue")
  }

  /** The document's only signature has the expected id, parts and algorithms. */
  predicate SignatureDescribed(document: Content) {
    var signature := SignatureIn(document);
    && signature.Some? && Get(signature.value, "Id") == "signature"
    && SignedInfo(signature).Some? && SignatureValue(signature).Some?
    && Uses(SignedInfo(signature).value, "CanonicalizationMethod", C14N11) && Uses(SignedInfo(signature).value, "SignatureMethod", ECDSA_SHA256)
  }

  function ReferencesIn(signedInfo: Elem): seq<Elem> {
    Select(AllIn(signedInfo.kids, signedInfo.at + 1), DS_NS, "Reference")
  }

  function Uris(references: seq<Elem>): (uris: seq<string>)
    ensures |uris| == |references| && forall i :: 0 <= i < |uris| ==> uris[i] == Get(references[i], "URI")
  {
    seq(|references|, i requires 0 <= i < |references| => Get(references[i], "URI"))
  }

  predicate ApprovedDigest(reference: Elem) {
    Uses(reference, "DigestMethod", SHA256) && Direct(Some(reference), DS_NS, "DigestValue").Some?
  }

  const EXPECTED_TRANSFORMS := [XPATH, XPATH, XPATH, C14N11]

  function Algorithms(transforms: seq<Elem>): (algorithms: seq<string>)
    ensures |algorithms| == |transforms| && forall i :: 0 <= i < |algorithms| ==> algorithms[i] == Get(transforms[i], "Algorithm")
  {
    seq(|transforms|, i requires 0 <= i < |transforms| => Get(transforms[i], "Algorithm"))
  }

  /** The three exclusions and then the canonicalisation, in this order and nothing else. */
  predicate TransformsApproved(reference: Elem) {
    var transforms := Direct(Some(reference), DS_NS, "Transforms");
    && transforms.Some?
    && Algorithms(Select(AllIn(transforms.value.kids, transforms.value.at + 1), DS_NS, "Transform")) == EXPECTED_TRANSFORMS
  }

  function PropertiesCandidates(document: Content): seq<Elem> {
    Select(AllIn(document, 0), XADES_NS, "SignedProperties")
  }

  /** The references to the document itself and to the signed properties. */
  function DocumentReference(signedInfo: Elem): Elem
    requires GoodReferences(Uris(ReferencesIn(signedInfo)))
  {
    ReferencesIn(signedInfo)[if Uris(ReferencesIn(signedInfo))[0] == "" then 0 else 1]
  }

  function PropertiesReference(signedInfo: Elem): (reference: Elem)
    requires GoodReferences(Uris(ReferencesIn(signedInfo)))
    ensures "#" <= Get(reference, "URI")
  {
    ReferencesIn(signedInfo)[if Uris(ReferencesIn(signedInfo))[0] == "" then 1 else 0]
  }

  function SignedProperties(document: Content, propertiesReference: Elem): Option<Elem>
    requires "#" <= Get(propertiesReference, "URI")
  {
    OnlyWithId(PropertiesCandidates(document), Get(propertiesReference, "URI")[1..])
  }

  /** One reference of either kind, with approved algorithms, and the properties are there. */
  predicate ReferencesApproved(document: Content, signedInfo: Elem) {
    && GoodReferences(Uris(ReferencesIn(signedInfo)))
    && SignedProperties(document, PropertiesReference(signedInfo)).Some?
    && ApprovedDigest(DocumentReference(signedInfo)) && ApprovedDigest(PropertiesReference(signedInfo))
    && TransformsApproved(DocumentReference(signedInfo))
  }

  function DigestValue(lib: Library, reference: Elem): Call<Bytes> {
    Base64(lib, Direct(Some(reference), DS_NS, "DigestValue"))
  }

  function ElementHash(lib: Library, document: Content, e: Elem): Call<Bytes> {
    var canonical :- lib.canonicalElement(document, e);
    lib.digest(canonical)
  }

  ghost predicate DocumentDigestMatches(lib: Library, document: Content, documentReference: Elem) {
    HashOf(lib, PruneExcluded(document)).Returns? && DigestValue(lib, documentReference) == HashOf(lib, PruneExcluded(document))
  }

  /** Both digests are those of the pruned document and of the signed properties. */
  ghost predicate DigestsMatch(lib: Library, document: Content, documentReference: Elem, propertiesReference: Elem, signedProperties: Elem) {
    && DocumentDigestMatches(lib, document, documentReference)
    && ElementHash(lib, document, signedProperties).Returns? && DigestValue(lib, propertiesReference) == ElementHash(lib, document, signedProperties)
  }

  /** `certificate`: the one below the signature, or none. */
  function CertificateIn(lib: Library, signature: Elem): Call<Option<Certificate>> {
    var encoded := Descendant(Some(signature), DS_NS, "X509Certificate");
    if encoded.None? then Returns(None) else
    var bytes :- Base64(lib, encoded);
    var certificate :- lib.readCertificate(bytes);
    Returns(Some(certificate))
  }

  /** The signed properties name this certificate by digest, issuer and serial number. */
  ghost predicate NamesCertificate(lib: Library, signedProperties: Elem, certificate: Certificate) {
    var digestValue := Descendant(Some(signedProperties), DS_NS, "DigestValue");
    var issuer := Descendant(Some(signedProperties), DS_NS, "X509IssuerName");
    var serial := Descendant(Some(signedProperties), DS_NS, "X509SerialNumber");
    && issuer.Some? && serial.Some?
    && lib.digest(certificate.encoded).Returns? && Base64(lib, digestValue) == lib.digest(certificate.encoded)
    && lib.sameIssuer(certificate, TextIn(issuer)) == Returns(true) && lib.sameSerial(certificate, TextIn(serial)) == Returns(true)
  }

  ghost predicate CertificateLinked(lib: Library, signature: Elem, signedProperties: Elem) {
    var certificate := CertificateIn(lib, signature);
    certificate.Returns? && certificate.value.Some? && certificate.value.value.onCurve && NamesCertificate(lib, signedProperties, certificate.value.value)
  }

  /** The certificate's key signed the canonical `SignedInfo`. */
  ghost predicate Signed(lib: Library, document: Content, signedInfo: Elem, signatureValue: Elem, certificate: Certificate) {
    var canonical := lib.canonicalElement(document, signedInfo);
    var signature := Base64(lib, Some(signatureValue));
    && canonical.Returns? && lib.prepare(certificate, canonical.value).Returns?
    && signature.Returns? && lib.signedBy(certificate, canonical.value, signature.value) == Returns(true)
  }

  /** The later flags: each is set exactly when its check has been passed and so have those before it. */
  ghost predicate EvidenceFlagged(lib: Library, document: Content, signature: Elem, signedInfo: Elem, signatureValue: Elem,
                                  documentReference: Elem, propertiesReference: Elem, signedProperties: Elem, result: Result)
    reads result
  {
    var digests := DigestsMatch(lib, document, documentReference, propertiesReference, signedProperties);
    var linked := digests && CertificateLinked(lib, signature, signedProperties);
    && result.documentDigestValid == DocumentDigestMatches(lib, document, documentReference)
    && result.signedPropertiesDigestValid == digests
    && result.certificateDigestValid == linked
    && result.signatureValid == (linked && Signed(lib, document, signedInfo, signatureValue, CertificateIn(lib, signature).value.value))
  }

  /** The same for the references of a described signature. */
  ghost predicate ReferencesFlagged(lib: Library, document: Content, result: Result)
    requires SignatureDescribed(document)
    reads result
  {
    var signature := SignatureIn(document);
    var signedInfo, signatureValue := SignedInfo(signature).value, SignatureValue(signature).value;
    && result.referencesResolved == ReferencesApproved(document, signedInfo)
    && (ReferencesApproved(document, signedInfo) ==>
          EvidenceFlagged(lib, document, signature.value, signedInfo, signatureValue, DocumentReference(signedInfo), PropertiesReference(signedInfo),
                          SignedProperties(document, PropertiesReference(signedInfo)).value, result))
  }

  /** And for all of them, from the ids on. */
  ghost predicate Flagged(lib: Library, document: Content, result: Result)
    reads result
  {
    && result.uniqueIds == NoRepeats(IdValues(AllIn(document, 0)))
    && if result.uniqueIds && lib.setUp.Returns? && SignatureDescribed(document) then ReferencesFlagged(lib, document, result)
       else !result.referencesResolved
  }

  /** What a valid signed invoice is, all conditions together. */
  ghost predicate Acceptable(lib: Library, document: Content) {
    && NoRepeats(IdValues(AllIn(document, 0))) && lib.setUp.Returns?
    && SignatureDescribed(document) && Evidenced(lib, document)
  }

  /** The signature's references and what they lead to. */
  ghost predicate Evidenced(lib: Library, document: Content)
    requires SignatureDescribed(document)
  {
    var signature := SignatureIn(document);
    var signedInfo, signatureValue := SignedInfo(signature).value, SignatureValue(signature).value;
    && ReferencesApproved(document, signedInfo)
    && Verified(lib, document, signature.value, signedInfo, signatureValue, DocumentReference(signedInfo), PropertiesReference(signedInfo),
                SignedProperties(document, PropertiesReference(signedInfo)).value)
  }

  /** The cryptographic part, about the elements that have been found. */
  ghost predicate Verified(lib: Library, document: Content, signature: Elem, signedInfo: Elem, signatureValue: Elem,
                           documentReference: Elem, propertiesReference: Elem, signedProperties: Elem) {
    && DigestsMatch(lib, document, documentReference, propertiesReference, signedProperties)
    && CertificateLinked(lib, signature, signedProperties)
    && SignedAndBound(lib, document, signedInfo, signatureValue, CertificateIn(lib, signature).value.value)
  }

  ghost predicate SignedAndBound(lib: Library, document: Content, signedInfo: Elem, signatureValue: Elem, certificate: Certificate)
    requires HashOf(lib, PruneExcluded(document)).Returns?
  {
    && Signed(lib, document, signedInfo, signatureValue, certificate)
    && QrBinds(lib, document, certificate, HashOf(lib, PruneExcluded(document)).value, Base64(lib, Some(signatureValue)).value)
  }

  /**
   * In an accepted document a properties reference other than "#" names one element among all of the
   * document's, and that is the one whose digest was compared: no second element can stand in for it.
   */
  lemma SignedPropertiesAreTheNamed(lib: Library, document: Content, other: Elem)
    requires Acceptable(lib, document) && NamespaceAware(AllIn(document, 0)) && other in AllIn(document, 0)
    ensures var reference := PropertiesReference(SignedInfo(SignatureIn(document)).value);
            && "#" <= Get(reference, "URI")
            && (Get(reference, "URI") != "#" && Get(other, "Id") == Get(reference, "URI")[1..] ==> Some(other) == SignedProperties(document, reference))
  {
    hide Verified, NamespaceAware, NoRepeats, IdValues, GoodReferences, ApprovedDigest, TransformsApproved, Uris, Uses, SignatureIn, SignedInfo, SignatureValue;
    var reference := PropertiesReference(SignedInfo(SignatureIn(document)).value);
    var uri := Get(reference, "URI");
    if uri != "#" && Get(other, "Id") == uri[1..] {
      OneIdOneElement(document, uri[1..], SignedProperties(document, reference).value, other);
    }
  }

  lemma OneIdOneElement(document: Content, id: string, found: Elem, other: Elem)
    requires NamespaceAware(AllIn(document, 0)) && NoRepeats(IdValues(AllIn(document, 0))) && id != ""
    requires OnlyWithId(PropertiesCandidates(document), id) == Some(found)
    requires other in AllIn(document, 0) && Get(other, "Id") == id
    ensures other == found
  {
    hide NamespaceAware, NoRepeats, IdValues;
    var all := AllIn(document, 0);
    assert found in WithId(PropertiesCandidates(document), id);
    var i :| 0 <= i < |all| && all[i] == found;
    var k :| 0 <= k < |all| && all[k] == other;
    IdNamesOneElement(all, id, i, k);
  }

  /** The certificate an accepted document is signed with. */
  function CertificateOf(lib: Library, document: Content): Call<Option<Certificate>> {
    var signature := SignatureIn(document);
    if signature.None? then Returns(None) else CertificateIn(lib, signature.value)
  }

  ghost predicate CarriesHashAndBits(lib: Library, hash: Bytes, encoded: Bytes, records: seq<Tlv.Record>)
    requires Der.IsCertificate(encoded)
  {
    forall k :: 0 <= k < |records| ==>
      && (records[k].tag == 6 ==> lib.text(records[k].value) == lib.encodeBase64(hash))
      && (records[k].tag == 9 ==> records[k].value == encoded[Der.Bits(encoded).start + 1..Der.Bits(encoded).end])
  }

  /**
   * What acceptance ties together: the QR code is nine records, however it is read, of which the sixth
   * is the hash of the pruned document that the signed reference claims too, and the ninth the bits
   * that the certificate's own issuer signed it with.
   */
  lemma AcceptedMeans(lib: Library, document: Content)
    requires Acceptable(lib, document)
    ensures var hash := HashOf(lib, PruneExcluded(document));
            var certificate := CertificateOf(lib, document);
            && hash.Returns? && DigestValue(lib, DocumentReference(SignedInfo(SignatureIn(document)).value)) == hash
            && certificate.Returns? && certificate.value.Some? && Der.IsCertificate(certificate.value.value.encoded)
            && PayloadOf(lib, document).Returns? && Tlv.Decomposable(PayloadOf(lib, document).value)
            && forall records: seq<Tlv.Record> :: Tlv.IsQrPayload(PayloadOf(lib, document).value, records) ==>
                 CarriesHashAndBits(lib, hash.value, certificate.value.value.encoded, records)
  {
    hide ReferencesApproved, SignedInfo, SignatureValue, Uses, NoRepeats, IdValues, SignatureIn, DocumentReference, PropertiesReference, SignedProperties,
      NamesCertificate, PayloadOf, FiguresOf, PruneExcluded, HashOf, DigestValue, Base64, CertificateIn;
    var signature := SignatureIn(document);
    var signedInfo, signatureValue := SignedInfo(signature).value, SignatureValue(signature).value;
    var certificate := CertificateIn(lib, signature.value).value.value;
    var hash := HashOf(lib, PruneExcluded(document)).value;
    assert QrBinds(lib, document, certificate, hash, Base64(lib, Some(signatureValue)).value);
    hide Acceptable, Evidenced, Verified, SignatureDescribed, DigestsMatch, CertificateLinked, SignedAndBound;
    BoundRecords(lib, document, certificate, hash, Base64(lib, Some(signatureValue)).value);
  }

  lemma BoundRecords(lib: Library, document: Content, certificate: Certificate, hash: Bytes, signature: Bytes)
    requires QrBinds(lib, document, certificate, hash, signature)
    ensures PayloadOf(lib, document).Returns? && Tlv.Decomposable(PayloadOf(lib, document).value) && Der.IsCertificate(certificate.encoded)
    ensures forall records: seq<Tlv.Record> :: Tlv.IsQrPayload(PayloadOf(lib, document).value, records) ==>
              CarriesHashAndBits(lib, hash, certificate.encoded, records)
  {
    hide PayloadOf, FiguresOf, Der.IsCertificate, Der.Bits;
    var bytes := PayloadOf(lib, document).value;
    var figures := FiguresOf(document).value;
    var bound: seq<Tlv.Record> :| Tlv.IsQrPayload(bytes, bound) && AllBind(lib, figures, certificate, hash, signature, bound);
    Tlv.NineTags(bound);
    assert Tlv.HasTag(bound, 9);
    forall records: seq<Tlv.Record> | Tlv.IsQrPayload(bytes, records)
      ensures records == bound
    {
      Tlv.DecompositionIsUnique(bytes, records, bound);
    }
  }

  /** So all accepted envelopings of one invoice claim one hash: what is enveloped with it cannot change it. */
  lemma EnvelopingsClaimOneHash(lib: Library, f: Content, f': Content, g: Content)
    requires Clean(g) && Envelops(f, g) && Envelops(f', g) && Acceptable(lib, f) && Acceptable(lib, f')
    ensures DigestValue(lib, DocumentReference(SignedInfo(SignatureIn(f)).value)) == DigestValue(lib, DocumentReference(SignedInfo(SignatureIn(f')).value))
                == HashOf(lib, g)
  {
    PruneUndoesEnveloping(f, g);
    PruneUndoesEnveloping(f', g);
    AcceptedMeans(lib, f);
    AcceptedMeans(lib, f');
    hide *;
  }

  // ---- the same read off the elements

  /** The word stands somewhere in the text. */
  lemma {:induction false} ContainsExactly(text: string, word: string)
    ensures Contains(text, word) <==> exists i :: 0 <= i <= |text| && word <= text[i..]
  {
    assert text[0..] == text;
    if text == "" {
    } else {
      ContainsExactly(text[1..], word);
      assert forall i :: 0 < i <= |text| ==> text[i..] == text[1..][i - 1..];
      if i :| 0 <= i <= |text[1..]| && word <= text[1..][i..] {
        assert text[i + 1..] == text[1..][i..];
      }
    }
  }

  ghost predicate Occurs(word: string, text: string) {
    exists i :: 0 <= i <= |text| && word <= text[i..]
  }

  lemma SourceExactly(lib: Library, xml: Bytes)
    ensures SourceAcceptable(lib, xml) <==> 0 < |xml| <= 2097152 && !Occurs("<!DOCTYPE", lib.text(xml)) && !Occurs("<!ENTITY", lib.text(xml))
  {
    ContainsExactly(lib.text(xml), "<!DOCTYPE");
    ContainsExactly(lib.text(xml), "<!ENTITY");
  }

  function ChildrenOf(e: Elem): seq<Elem> {
    Children(e.kids, e.at + 1)
  }

  function Below(e: Elem): seq<Elem> {
    AllIn(e.kids, e.at + 1)
  }

  /** The first such child has this algorithm. */
  ghost predicate HasAlgorithm(e: Elem, usage: string, algorithm: string) {
    exists used :: IsFirst(ChildrenOf(e), used, DS_NS, usage) && Get(used, "Algorithm") == algorithm
  }

  lemma UsesExactly(e: Elem, usage: string, algorithm: string)
    ensures Uses(e, usage, algorithm) <==> HasAlgorithm(e, usage, algorithm)
  {
    forall used: Elem
      ensures Direct(Some(e), DS_NS, usage) == Some(used) <==> IsFirst(ChildrenOf(e), used, DS_NS, usage)
    {
      DirectIsFirst(e, DS_NS, usage, used);
    }
    hide Direct, IsFirst, ChildrenOf, Get;
    if Uses(e, usage, algorithm) {
      assert IsFirst(ChildrenOf(e), Direct(Some(e), DS_NS, usage).value, DS_NS, usage);
    }
  }

  /** The document's only signature, with its first `SignedInfo` and its first `SignatureValue`. */
  ghost predicate IsSignature(document: Content, signature: Elem, signedInfo: Elem, signatureValue: Elem) {
    && IsOnly(AllIn(document, 0), signature, DS_NS, "Signature") && Get(signature, "Id") == "signature"
    && IsFirst(ChildrenOf(signature), signedInfo, DS_NS, "SignedInfo") && IsFirst(ChildrenOf(signature), signatureValue, DS_NS, "SignatureValue")
    && HasAlgorithm(signedInfo, "CanonicalizationMethod", C14N11) && HasAlgorithm(signedInfo, "SignatureMethod", ECDSA_SHA256)
  }

  lemma DescribedExactly(document: Content, signature: Elem, signedInfo: Elem, signatureValue: Elem)
    ensures IsSignature(document, signature, signedInfo, signatureValue)
       <==> && SignatureDescribed(document) && SignatureIn(document) == Some(signature)
            && SignedInfo(Some(signature)) == Some(signedInfo) && SignatureValue(Some(signature)) == Some(signatureValue)
  {
    hide IsOnly, IsFirst, Uses, HasAlgorithm, Direct, Get, AllIn, Select, ChildrenOf;
    OnlyOfSelected(AllIn(document, 0), DS_NS, "Signature", signature);
    FirstChild(signature, "SignedInfo", signedInfo);
    FirstChild(signature, "SignatureValue", signatureValue);
    UsesExactly(signedInfo, "CanonicalizationMethod", C14N11);
    UsesExactly(signedInfo, "SignatureMethod", ECDSA_SHA256);
  }

  lemma FirstChild(e: Elem, localName: string, child: Elem)
    ensures Direct(Some(e), DS_NS, localName) == Some(child) <==> IsFirst(ChildrenOf(e), child, DS_NS, localName)
  {
    DirectIsFirst(e, DS_NS, localName, child);
  }

  /** The two references, one of each kind, with what they must use. */
  ghost predicate RefersTo(signedInfo: Elem, documentReference: Elem, propertiesReference: Elem) {
    && (forall e :: e in Below(signedInfo) && Named(e.says, DS_NS, "Reference") <==> e == documentReference || e == propertiesReference)
    && Get(documentReference, "URI") == "" && "#" <= Get(propertiesReference, "URI") && ':' !in Get(propertiesReference, "URI")
    && HasAlgorithm(documentReference, "DigestMethod", SHA256) && HasAlgorithm(propertiesReference, "DigestMethod", SHA256)
    && exists transforms :: IsFirst(ChildrenOf(documentReference), transforms, DS_NS, "Transforms")
                            && Algorithms(Select(Below(transforms), DS_NS, "Transform")) == [XPATH, XPATH, XPATH, C14N11]
  }

  lemma ReferencesFound(document: Content, signedInfo: Elem)
    requires ReferencesApproved(document, signedInfo)
    ensures RefersTo(signedInfo, DocumentReference(signedInfo), PropertiesReference(signedInfo))
  {
    hide IsFirst, Below, Algorithms, Uses, HasAlgorithm, SignedProperties, TransformsApproved, ChildrenOf, Get, ReferencesIn, Uris, DocumentReference, PropertiesReference;
    TwoReferences(signedInfo);
    UsesExactly(DocumentReference(signedInfo), "DigestMethod", SHA256);
    UsesExactly(PropertiesReference(signedInfo), "DigestMethod", SHA256);
    TransformsFound(DocumentReference(signedInfo));
  }

  lemma TwoReferences(signedInfo: Elem)
    requires GoodReferences(Uris(ReferencesIn(signedInfo)))
    ensures var d, p := DocumentReference(signedInfo), PropertiesReference(signedInfo);
            && (forall e :: e in Below(signedInfo) && Named(e.says, DS_NS, "Reference") <==> e == d || e == p)
            && Get(d, "URI") == "" && "#" <= Get(p, "URI") && ':' !in Get(p, "URI")
  {
    hide Get, AllIn;
    var references := ReferencesIn(signedInfo);
    assert forall e :: e in references <==> e in Below(signedInfo) && Named(e.says, DS_NS, "Reference");
    hide Select;
    assert forall e :: e in references <==> e == references[0] || e == references[1];
  }

  lemma TransformsFound(reference: Elem)
    requires TransformsApproved(reference)
    ensures exists transforms :: IsFirst(ChildrenOf(reference), transforms, DS_NS, "Transforms")
                                 && Algorithms(Select(Below(transforms), DS_NS, "Transform")) == [XPATH, XPATH, XPATH, C14N11]
  {
    var transforms := Direct(Some(reference), DS_NS, "Transforms").value;
    FirstChild(reference, "Transforms", transforms);
    hide Direct, IsFirst, AllIn, Algorithms, ChildrenOf;
  }

  /** The only signed properties with the id that the reference names. */
  ghost predicate IsReferredTo(document: Content, reference: Elem, properties: Elem) {
    && "#" <= Get(reference, "URI")
    && properties in AllIn(document, 0) && Named(properties.says, XADES_NS, "SignedProperties") && Get(properties, "Id") == Get(reference, "URI")[1..]
    && forall e :: e in AllIn(document, 0) && Named(e.says, XADES_NS, "SignedProperties") && Get(e, "Id") == Get(reference, "URI")[1..] ==> e == properties
  }

  lemma PropertiesFound(document: Content, reference: Elem)
    requires "#" <= Get(reference, "URI") && SignedProperties(document, reference).Some?
    ensures IsReferredTo(document, reference, SignedProperties(document, reference).value)
  {
    var candidates := PropertiesCandidates(document);
    var found := WithId(candidates, Get(reference, "URI")[1..]);
    hide Get, AllIn, Select;
    assert found[0] in found;
  }

  /** What the reference claims, in its first `DigestValue`, is this hash. */
  ghost predicate ClaimsHash(lib: Library, reference: Elem, hash: Call<Bytes>) {
    hash.Returns? && exists value :: IsFirst(ChildrenOf(reference), value, DS_NS, "DigestValue") && lib.decodeBase64(TextIn(Some(value))) == hash
  }

  lemma ClaimFound(lib: Library, reference: Elem, hash: Call<Bytes>)
    requires hash.Returns? && DigestValue(lib, reference) == hash
    requires Direct(Some(reference), DS_NS, "DigestValue").Some?
    ensures ClaimsHash(lib, reference, hash)
  {
    FirstChild(reference, "DigestValue", Direct(Some(reference), DS_NS, "DigestValue").value);
    hide Direct, IsFirst, ChildrenOf, TextIn;
  }

  /** The signature holds one certificate, which the properties name by digest, issuer and serial number. */
  ghost predicate Certifies(lib: Library, signature: Elem, properties: Elem, certificate: Certificate) {
    && (exists holder, bytes :: IsOnly(Below(signature), holder, DS_NS, "X509Certificate")
                                && lib.decodeBase64(TextIn(Some(holder))) == Returns(bytes) && lib.readCertificate(bytes) == Returns(certificate))
    && certificate.onCurve
    && (exists digest :: IsOnly(Below(properties), digest, DS_NS, "DigestValue")
                         && lib.digest(certificate.encoded).Returns? && lib.decodeBase64(TextIn(Some(digest))) == lib.digest(certificate.encoded))
    && (exists issuer :: IsOnly(Below(properties), issuer, DS_NS, "X509IssuerName") && lib.sameIssuer(certificate, TextIn(Some(issuer))) == Returns(true))
    && (exists serial :: IsOnly(Below(properties), serial, DS_NS, "X509SerialNumber") && lib.sameSerial(certificate, TextIn(Some(serial))) == Returns(true))
  }

  lemma OnlyBelow(e: Elem, localName: string, found: Elem)
    ensures Descendant(Some(e), DS_NS, localName) == Some(found) <==> IsOnly(Below(e), found, DS_NS, localName)
  {
    DescendantIsOnly(e, DS_NS, localName, found);
  }

  lemma CertificateFound(lib: Library, signature: Elem, properties: Elem)
    requires CertificateLinked(lib, signature, properties)
    ensures Certifies(lib, signature, properties, CertificateIn(lib, signature).value.value)
  {
    var certificate := CertificateIn(lib, signature).value.value;
    OnlyBelow(signature, "X509Certificate", Descendant(Some(signature), DS_NS, "X509Certificate").value);
    hide Descendant, IsOnly, Below, TextIn;
    CertificateNamed(lib, properties, certificate);
    hide NamesCertificate;
  }

  lemma CertificateNamed(lib: Library, properties: Elem, certificate: Certificate)
    requires NamesCertificate(lib, properties, certificate)
    ensures exists digest :: IsOnly(Below(properties), digest, DS_NS, "DigestValue")
                             && lib.digest(certificate.encoded).Returns? && lib.decodeBase64(TextIn(Some(digest))) == lib.digest(certificate.encoded)
    ensures exists issuer :: IsOnly(Below(properties), issuer, DS_NS, "X509IssuerName") && lib.sameIssuer(certificate, TextIn(Some(issuer))) == Returns(true)
    ensures exists serial :: IsOnly(Below(properties), serial, DS_NS, "X509SerialNumber") && lib.sameSerial(certificate, TextIn(Some(serial))) == Returns(true)
  {
    OnlyBelow(properties, "DigestValue", Descendant(Some(properties), DS_NS, "DigestValue").value);
    OnlyBelow(properties, "X509IssuerName", Descendant(Some(properties), DS_NS, "X509IssuerName").value);
    OnlyBelow(properties, "X509SerialNumber", Descendant(Some(properties), DS_NS, "X509SerialNumber").value);
    hide Descendant, IsOnly, Below, TextIn;
  }

  /** The certificate's key signed the canonical signed info with this value. */
  ghost predicate SignedWith(lib: Library, document: Content, signedInfo: Elem, signatureValue: Elem, certificate: Certificate) {
    exists canonical, bytes ::
      && lib.canonicalElement(document, signedInfo) == Returns(canonical)
      && lib.decodeBase64(TextIn(Some(signatureValue))) == Returns(bytes) && lib.signedBy(certificate, canonical, bytes) == Returns(true)
  }

  /**
   * What acceptance rests on, element by element: the signature and its parts, the two references and the
   * properties they lead to, the hashes they claim, and the certificate that names and signs them.
   */
  lemma AcceptedRestsOn(lib: Library, document: Content)
    returns (signature: Elem, signedInfo: Elem, signatureValue: Elem, documentReference: Elem, propertiesReference: Elem, properties: Elem, certificate: Certificate)
    requires Acceptable(lib, document)
    ensures IsSignature(document, signature, signedInfo, signatureValue)
    ensures RefersTo(signedInfo, documentReference, propertiesReference) && IsReferredTo(document, propertiesReference, properties)
    ensures ClaimsHash(lib, documentReference, HashOf(lib, PruneExcluded(document)))
    ensures ClaimsHash(lib, propertiesReference, ElementHash(lib, document, properties))
    ensures Certifies(lib, signature, properties, certificate) && SignedWith(lib, document, signedInfo, signatureValue, certificate)
    ensures var hash := HashOf(lib, PruneExcluded(document));
            && lib.canonicalDocument(PruneExcluded(document)).Returns? && hash == lib.digest(lib.canonicalDocument(PruneExcluded(document)).value)
            && lib.canonicalElement(document, properties).Returns?
            && ElementHash(lib, document, properties) == lib.digest(lib.canonicalElement(document, properties).value)
  {
    hide NoRepeats, IdValues, AllIn, Select, Direct, Get, IsSignature, RefersTo, IsReferredTo, ClaimsHash, Certifies, GoodReferences, Uses, TransformsApproved,
      PruneExcluded, QrBinds, NamesCertificate, CertificateIn, DigestValue, TextIn, SignedProperties, ReferencesIn, Uris, SignedWith;
    signature := SignatureIn(document).value;
    signedInfo, signatureValue := SignedInfo(Some(signature)).value, SignatureValue(Some(signature)).value;
    DescribedExactly(document, signature, signedInfo, signatureValue);
    ReferencesFound(document, signedInfo);
    documentReference, propertiesReference := DocumentReference(signedInfo), PropertiesReference(signedInfo);
    PropertiesFound(document, propertiesReference);
    properties := SignedProperties(document, propertiesReference).value;
    ClaimFound(lib, documentReference, HashOf(lib, PruneExcluded(document)));
    ClaimFound(lib, propertiesReference, ElementHash(lib, document, properties));
    CertificateFound(lib, signature, properties);
    certificate := CertificateIn(lib, signature).value.value;
    SignedBySignature(lib, document, signedInfo, signatureValue, certificate);
  }

  lemma SignedBySignature(lib: Library, document: Content, signedInfo: Elem, signatureValue: Elem, certificate: Certificate)
    requires Signed(lib, document, signedInfo, signatureValue, certificate)
    ensures SignedWith(lib, document, signedInfo, signatureValue, certificate)
  {
    hide TextIn;
  }

  // ---- the verifier, stage by stage

  /** The four handlers around the pipeline. */
  method FailWith(result: Result, e: Exception)
    requires result.errors == {}
    modifies result`valid, result`status, result`errors
    ensures result.Stopped() && IsShared(result.status)
    ensures e.ParserConfiguration? ==> result.status == UnsafeXml && result.errors == {"XML_PARSER_SECURITY_UNAVAILABLE"}
    ensures e.Sax? ==> result.status == MalformedXml && result.errors == {e.code}
    ensures e.BadArgument? ==> result.status == ReferenceInvalid && result.errors == {"ENCODING_OR_REFERENCE_INVALID"}
    ensures e.AnyOther? ==> result.status == CertificateInvalid && result.errors == {"VERIFICATION_FAILED_CLOSED"}
  {
    match e {
      case ParserConfiguration => result.Fail(UnsafeXml, "XML_PARSER_SECURITY_UNAVAILABLE");
      case Sax(code) => result.Fail(MalformedXml, code);
      case BadArgument => result.Fail(ReferenceInvalid, "ENCODING_OR_REFERENCE_INVALID");
      case AnyOther => result.Fail(CertificateInvalid, "VERIFICATION_FAILED_CLOSED");
    }
  }

  /** How a stage ends that does not pass. */
  datatype Problem = Problem(status: Status, code: string)

  predicate IsOfSignature(status: Status) {
    status == SignatureMissing || status == MultipleSignatures || status == ReferenceInvalid || status == UnsupportedAlgorithm
  }

  /** The signature element, its parts and its algorithms. */
  method SignatureProblem(document: Content) returns (problem: Option<Problem>)
    ensures problem.None? <==> SignatureDescribed(document)
    ensures problem.Some? ==> IsOfSignature(problem.value.status)
    ensures problem.Some? && problem.value.status == MultipleSignatures <==> |Select(AllIn(document, 0), DS_NS, "Signature")| > 1
    ensures Select(AllIn(document, 0), DS_NS, "Signature") == [] ==> problem == Some(Problem(SignatureMissing, "SIGNATURE_NOT_FOUND"))
  {
    hide Uses;
    var signatures := Select(AllIn(document, 0), DS_NS, "Signature");
    if |signatures| == 0 { return Some(Problem(SignatureMissing, "SIGNATURE_NOT_FOUND")); }
    if |signatures| > 1 { return Some(Problem(MultipleSignatures, "SIGNATURE_COUNT_INVALID")); }
    var signature := Some(signatures[0]);
    if Get(signature.value, "Id") != "signature" { return Some(Problem(SignatureMissing, "INTENDED_SIGNATURE_NOT_FOUND")); }
    var signedInfo, signatureValue := SignedInfo(signature), SignatureValue(signature);
    if signedInfo == None || signatureValue == None { return Some(Problem(ReferenceInvalid, "SIGNED_INFO_OR_VALUE_MISSING")); }
    if !Uses(signedInfo.value, "CanonicalizationMethod", C14N11) { return Some(Problem(UnsupportedAlgorithm, "UNSUPPORTED_CANONICALIZATION_ALGORITHM")); }
    if !Uses(signedInfo.value, "SignatureMethod", ECDSA_SHA256) { return Some(Problem(UnsupportedAlgorithm, "UNSUPPORTED_SIGNATURE_ALGORITHM")); }
    return None;
  }

  /** `approvedDocumentTransforms`. */
  method ApprovedDocumentTransforms(reference: Elem) returns (approved: bool)
    ensures approved <==> TransformsApproved(reference)
  {
    var transforms := Direct(Some(reference), DS_NS, "Transforms");
    if transforms == None { return false; }
    var nodes := Select(AllIn(transforms.value.kids, transforms.value.at + 1), DS_NS, "Transform");
    if |nodes| != |EXPECTED_TRANSFORMS| { return false; }
    for index := 0 to |EXPECTED_TRANSFORMS|
      invariant forall i :: 0 <= i < index ==> Get(nodes[i], "Algorithm") == EXPECTED_TRANSFORMS[i]
    {
      if Get(nodes[index], "Algorithm") != EXPECTED_TRANSFORMS[index] { return false; }
    }
    return true;
  }

  /** The two references and the signed properties that one of them names. */
  method ReferencesProblem(document: Content, signedInfo: Elem) returns (problem: Option<Problem>)
    ensures problem.None? <==> ReferencesApproved(document, signedInfo)
    ensures problem.Some? ==> problem.value.status == ReferenceInvalid || problem.value.status == UnsupportedAlgorithm
  {
    hide TransformsApproved, ApprovedDigest, OnlyWithId, PropertiesCandidates, ReferencesIn, GoodReferences, IsExternal;
    var references := ReferencesIn(signedInfo);
    var resolved := ResolveReferences(Uris(references));
    match resolved {
      case WrongCount => return Some(Problem(ReferenceInvalid, "REFERENCE_COUNT_INVALID"));
      case External => return Some(Problem(ReferenceInvalid, "EXTERNAL_REFERENCE_URI"));
      case Unsupported => return Some(Problem(ReferenceInvalid, "UNSUPPORTED_REFERENCE_URI"));
      case Missing => return Some(Problem(ReferenceInvalid, "REQUIRED_REFERENCE_MISSING"));
      case Resolved(d, p) =>
        var properties := UniqueIdElement(PropertiesCandidates(document), Get(references[p], "URI")[1..]);
        if properties == None { return Some(Problem(ReferenceInvalid, "SIGNED_PROPERTIES_REFERENCE_INVALID")); }
        if !ApprovedDigest(references[d]) || !ApprovedDigest(references[p]) { return Some(Problem(UnsupportedAlgorithm, "UNSUPPORTED_DIGEST_ALGORITHM")); }
        var transforms := ApprovedDocumentTransforms(references[d]);
        return if transforms then None else Some(Problem(UnsupportedAlgorithm, "UNSUPPORTED_DOCUMENT_TRANSFORM"));
    }
  }

  method CheckReferences(document: Content, signedInfo: Elem, result: Result) returns (passed: bool)
    requires result.GoingOn() && result.EarlyFlags(true, true, false) && result.NoLateFlags()
    modifies result`valid, result`status, result`errors, result`referencesResolved
    ensures if passed then result.GoingOn() && result.EarlyFlags(true, true, true) && result.NoLateFlags() else result.Coherent() && !result.valid && result.EarlyFlags(true, true, false)
    ensures passed <==> ReferencesApproved(document, signedInfo)
  {
    hide ReferencesApproved;
    var problem := ReferencesProblem(document, signedInfo);
    passed := problem.None?;
    if passed {
      result.referencesResolved := true;
    } else {
      result.Fail(problem.value.status, problem.value.code);
    }
  }

  /** Two digests are compared; `hash` is computed before `claimed` is read. */
  method CompareDigests(hash: Call<Bytes>, claimed: Call<Bytes>, status: Status, code: string, result: Result) returns (passed: bool)
    requires result.GoingOn() && status != Status.Valid
    modifies result`valid, result`status, result`errors
    ensures if passed then result.GoingOn() else result.Stopped() && (IsShared(result.status) || result.status == status)
    ensures passed <==> hash.Returns? && claimed == hash
  {
    passed := false;
    if hash.Raises? { FailWith(result, hash.exception); return; }
    if claimed.Raises? { FailWith(result, claimed.exception); return; }
    if hash.value != claimed.value { result.Fail(status, code); return; }
    passed := true;
  }

  /** The digest of the pruned copy, and that of the signed properties. */
  method CheckDigests(lib: Library, document: Content, unsigned: Content,
                      documentReference: Elem, propertiesReference: Elem, signedProperties: Elem, result: Result)
    returns (passed: bool)
    requires result.GoingOn() && result.EarlyFlags(true, true, true) && result.NoLateFlags() && unsigned == PruneExcluded(document)
    modifies result`valid, result`status, result`errors, result`documentDigestValid, result`signedPropertiesDigestValid
    ensures if passed then result.GoingOn() else result.Stopped() && result.StatusFits()
    ensures passed <==> DigestsMatch(lib, document, documentReference, propertiesReference, signedProperties)
    ensures result.documentDigestValid == DocumentDigestMatches(lib, document, documentReference)
    ensures result.signedPropertiesDigestValid == passed
  {
    hide HashOf, ElementHash, DigestValue, PruneExcluded;
    passed := CompareDigests(HashOf(lib, unsigned), DigestValue(lib, documentReference), DigestMismatch, "DOCUMENT_DIGEST_MISMATCH", result);
    if !passed { return; }
    result.documentDigestValid := true;
    passed := CompareDigests(ElementHash(lib, document, signedProperties), DigestValue(lib, propertiesReference),
                             SignedPropertiesInvalid, "SIGNED_PROPERTIES_DIGEST_MISMATCH", result);
    if !passed { return; }
    result.signedPropertiesDigestValid := true;
  }

  /** `certificateProblem`. */
  method CertificateProblem(lib: Library, certificate: Certificate, signedProperties: Elem) returns (problem: Call<Option<string>>)
    ensures problem == Returns(None) <==> NamesCertificate(lib, signedProperties, certificate)
  {
    var digestValue := Descendant(Some(signedProperties), DS_NS, "DigestValue");
    var issuer := Descendant(Some(signedProperties), DS_NS, "X509IssuerName");
    var serial := Descendant(Some(signedProperties), DS_NS, "X509SerialNumber");
    if digestValue == None || issuer == None || serial == None { return Returns(Some("CERTIFICATE_LINKAGE_MISSING")); }
    var digest :- lib.digest(certificate.encoded);
    var claimed :- Base64(lib, digestValue);
    if digest != claimed { return Returns(Some("CERTIFICATE_DIGEST_MISMATCH")); }
    var same :- lib.sameIssuer(certificate, TextIn(issuer));
    if !same { return Returns(Some("CERTIFICATE_ISSUER_MISMATCH")); }
    same :- lib.sameSerial(certificate, TextIn(serial));
    return Returns(if same then None else Some("CERTIFICATE_SERIAL_MISMATCH"));
  }

  /** The certificate and its link to the signed properties. */
  method CheckCertificate(lib: Library, signature: Elem, signedProperties: Elem, result: Result) returns (certificate: Option<Certificate>)
    requires result.GoingOn()
    modifies result`valid, result`status, result`errors, result`certificateDigestValid
    ensures if certificate.Some? then result.GoingOn() && result.certificateDigestValid
            else result.Stopped() && result.certificateDigestValid == old(result.certificateDigestValid)
                 && IsShared(result.status)
    ensures certificate.Some? <==> CertificateLinked(lib, signature, signedProperties)
    ensures certificate.Some? ==> CertificateIn(lib, signature) == Returns(certificate)
  {
    hide NamesCertificate;
    certificate := None;
    var found := CertificateIn(lib, signature);
    if found.Raises? { FailWith(result, found.exception); return; }
    if found.value == None || !found.value.value.onCurve { result.Fail(CertificateInvalid, "CERTIFICATE_OR_CURVE_INVALID"); return; }
    var problem := CertificateProblem(lib, found.value.value, signedProperties);
    if problem.Raises? { FailWith(result, problem.exception); return; }
    if problem.value.Some? { result.Fail(CertificateInvalid, problem.value.value); return; }
    result.certificateDigestValid := true;
    certificate := found.value;
  }

  /** The ECDSA test; whatever its last part raises is an invalid signature. */
  method CheckSignature(lib: Library, document: Content, signedInfo: Elem, signatureValue: Elem, certificate: Certificate, result: Result)
    returns (passed: bool)
    requires result.GoingOn()
    modifies result`valid, result`status, result`errors, result`signatureValid
    ensures if passed then result.GoingOn() && result.signatureValid
            else result.Stopped() && result.signatureValid == old(result.signatureValid)
                 && (IsShared(result.status) || result.status == SignatureInvalid)
    ensures passed <==> Signed(lib, document, signedInfo, signatureValue, certificate)
  {
    passed := false;
    var canonical := lib.canonicalElement(document, signedInfo);
    if canonical.Raises? { FailWith(result, canonical.exception); return; }
    var ready := lib.prepare(certificate, canonical.value);
    if ready.Raises? { FailWith(result, ready.exception); return; }
    var signature := Base64(lib, Some(signatureValue));
    if signature.Raises? { result.Fail(SignatureInvalid, "ECDSA_SIGNATURE_INVALID"); return; }
    var matches := lib.signedBy(certificate, canonical.value, signature.value);
    if matches != Returns(true) { result.Fail(SignatureInvalid, "ECDSA_SIGNATURE_INVALID"); return; }
    result.signatureValid := true;
    passed := true;
  }

  /** The QR code, checked against the hash of the pruned copy; whatever that raises is a QR problem. */
  method CheckQr(lib: Library, document: Content, unsigned: Content, certificate: Certificate, signatureValue: Elem, result: Result)
    requires result.GoingOn() && unsigned == PruneExcluded(document)
    requires HashOf(lib, unsigned).Returns? && Base64(lib, Some(signatureValue)).Returns?
    modifies result`valid, result`status, result`errors, result`qrBindingValid
    ensures var bound := QrBinds(lib, document, certificate, HashOf(lib, unsigned).value, Base64(lib, Some(signatureValue)).value);
            if bound then result.valid && result.qrBindingValid && result.status == Status.Valid && result.errors == {}
            else result.Stopped() && result.status == QrBindingInvalid && result.qrBindingValid == old(result.qrBindingValid)
  {
    hide QrBinds;
    var problem := QrProblem(lib, document, certificate, HashOf(lib, unsigned).value, Base64(lib, Some(signatureValue)).value);
    if problem.Raises? { result.Fail(QrBindingInvalid, "QR_TLV_OR_BINDING_INVALID"); return; }
    if problem.value.Some? { result.Fail(QrBindingInvalid, problem.value.value); return; }
    result.qrBindingValid := true;
    result.valid := true;
    result.status := Status.Valid;
  }

  /** The signature and the QR code, with the certificate that has been found. */
  method CheckSignatureAndQr(lib: Library, document: Content, unsigned: Content, signedInfo: Elem, signatureValue: Elem, certificate: Certificate, result: Result)
    requires result.GoingOn() && result.EarlyFlags(true, true, true) && unsigned == PruneExcluded(document) && HashOf(lib, unsigned).Returns?
    requires result.documentDigestValid && result.signedPropertiesDigestValid && result.certificateDigestValid
    requires !result.signatureValid && !result.qrBindingValid
    modifies result`valid, result`status, result`errors, result`signatureValid, result`qrBindingValid
    ensures result.Coherent()
    ensures result.valid <==> SignedAndBound(lib, document, signedInfo, signatureValue, certificate)
    ensures result.signatureValid == Signed(lib, document, signedInfo, signatureValue, certificate)
  {
    hide QrBinds, PruneExcluded, HashOf, Signed;
    SignedHasValue(lib, document, signedInfo, signatureValue, certificate);
    hide Base64;
    var signed := CheckSignature(lib, document, signedInfo, signatureValue, certificate, result);
    if signed {
      CheckQr(lib, document, unsigned, certificate, signatureValue, result);
    }
  }

  lemma SignedHasValue(lib: Library, document: Content, signedInfo: Elem, signatureValue: Elem, certificate: Certificate)
    ensures Signed(lib, document, signedInfo, signatureValue, certificate) ==> Base64(lib, Some(signatureValue)).Returns?
  {
  }

  /** Everything about the elements that have been found, once the references are resolved. */
  method CheckEvidence(lib: Library, document: Content, unsigned: Content, signature: Elem, signedInfo: Elem, signatureValue: Elem,
                       documentReference: Elem, propertiesReference: Elem, signedProperties: Elem, result: Result)
    requires result.GoingOn() && result.EarlyFlags(true, true, true) && result.NoLateFlags() && unsigned == PruneExcluded(document)
    modifies result
    ensures result.Coherent() && result.EarlyFlags(true, true, true)
    ensures result.valid <==> Verified(lib, document, signature, signedInfo, signatureValue, documentReference, propertiesReference, signedProperties)
    ensures EvidenceFlagged(lib, document, signature, signedInfo, signatureValue, documentReference, propertiesReference, signedProperties, result)
  {
    hide NamesCertificate, PruneExcluded, CertificateIn, SignedAndBound, HashOf, Base64, ElementHash, DigestValue;
    var matching := CheckDigests(lib, document, unsigned, documentReference, propertiesReference, signedProperties, result);
    if !matching { return; }
    assert HashOf(lib, unsigned).Returns?;
    hide DigestsMatch;
    var certificate := CheckCertificate(lib, signature, signedProperties, result);
    hide CertificateLinked;
    if certificate.Some? {
      CheckSignatureAndQr(lib, document, unsigned, signedInfo, signatureValue, certificate.value, result);
    }
  }

  /** The pruned clone, which is all the digest sees of the document. */
  method UnsignedContent(parsed: XmlDocument) returns (unsigned: Content)
    requires parsed.Valid()
    ensures unsigned == PruneExcluded(parsed.Content())
  {
    var copy := UnsignedCopy(parsed);
    unsigned := copy.Reading();
  }

  /** Once the references are approved: prune a clone and check what they lead to. */
  method VerifyReferenced(lib: Library, parsed: XmlDocument, document: Content, signature: Elem, signedInfo: Elem, signatureValue: Elem, result: Result)
    requires parsed.Valid() && document == parsed.Content() && ReferencesApproved(document, signedInfo)
    requires result.GoingOn() && result.EarlyFlags(true, true, true) && result.NoLateFlags()
    modifies result
    ensures result.Coherent() && result.EarlyFlags(true, true, true)
    ensures result.valid
       <==> Verified(lib, document, signature, signedInfo, signatureValue, DocumentReference(signedInfo), PropertiesReference(signedInfo),
                     SignedProperties(document, PropertiesReference(signedInfo)).value)
    ensures EvidenceFlagged(lib, document, signature, signedInfo, signatureValue, DocumentReference(signedInfo), PropertiesReference(signedInfo),
                            SignedProperties(document, PropertiesReference(signedInfo)).value, result)
  {
    hide Verified, EvidenceFlagged, PruneExcluded, DocumentReference, PropertiesReference, SignedProperties;
    var documentReference, propertiesReference := DocumentReference(signedInfo), PropertiesReference(signedInfo);
    var signedProperties := SignedProperties(document, propertiesReference).value;
    hide ReferencesApproved, GoodReferences, ReferencesIn, Get;
    var unsigned := UnsignedContent(parsed);
    CheckEvidence(lib, document, unsigned, signature, signedInfo, signatureValue, documentReference, propertiesReference, signedProperties, result);
  }

  /** From the references on. */
  method VerifyEvidence(lib: Library, parsed: XmlDocument, document: Content, result: Result)
    requires parsed.Valid() && document == parsed.Content() && SignatureDescribed(document)
    requires result.GoingOn() && result.EarlyFlags(true, true, false) && result.NoLateFlags()
    modifies result
    ensures result.Coherent() && result.safeXml && result.uniqueIds
    ensures result.valid <==> Evidenced(lib, document)
    ensures ReferencesFlagged(lib, document, result)
  {
    var signature := SignatureIn(document);
    var signedInfo, signatureValue := SignedInfo(signature).value, SignatureValue(signature).value;
    hide ReferencesApproved, Verified, EvidenceFlagged, DocumentReference, PropertiesReference, SignedProperties, SignatureIn, SignedInfo, SignatureValue, SignatureDescribed;
    var approved := CheckReferences(document, signedInfo, result);
    if approved {
      VerifyReferenced(lib, parsed, document, signature.value, signedInfo, signatureValue, result);
    }
  }

  method CheckSignatureElements(document: Content, result: Result) returns (passed: bool)
    requires result.GoingOn() && result.EarlyFlags(true, true, false) && result.NoLateFlags()
    modifies result`valid, result`status, result`errors
    ensures if passed then result.GoingOn() else result.Coherent() && !result.valid
    ensures passed <==> SignatureDescribed(document)
  {
    hide SignatureDescribed, Select, AllIn;
    var problem := SignatureProblem(document);
    passed := problem.None?;
    if !passed {
      result.Fail(problem.value.status, problem.value.code);
    }
  }

  method SetUp(lib: Library, result: Result) returns (passed: bool)
    requires result.GoingOn() && result.EarlyFlags(true, true, false) && result.NoLateFlags()
    modifies result`valid, result`status, result`errors
    ensures if passed then result.GoingOn() else result.Coherent() && !result.valid
    ensures passed <==> lib.setUp.Returns?
  {
    passed := lib.setUp.Returns?;
    if !passed {
      FailWith(result, lib.setUp.exception);
    }
  }

  /** From the signature on, once ids are known to be unique. */
  method VerifySigned(lib: Library, parsed: XmlDocument, document: Content, result: Result)
    requires parsed.Valid() && document == parsed.Content()
    requires result.GoingOn() && result.EarlyFlags(true, true, false) && result.NoLateFlags()
    modifies result
    ensures result.Coherent() && result.safeXml && result.uniqueIds
    ensures result.valid <==> lib.setUp.Returns? && SignatureDescribed(document) && Evidenced(lib, document)
    ensures if lib.setUp.Returns? && SignatureDescribed(document) then ReferencesFlagged(lib, document, result) else !result.referencesResolved
  {
    hide SignatureDescribed, Evidenced, ReferencesFlagged;
    var ready := SetUp(lib, result);
    if !ready { return; }
    var described := CheckSignatureElements(document, result);
    if described {
      VerifyEvidence(lib, parsed, document, result);
    }
  }

  /** From the parsed document on. */
  method VerifyDocument(lib: Library, parsed: XmlDocument, result: Result)
    requires parsed.Valid() && result.GoingOn() && result.EarlyFlags(true, false, false) && result.NoLateFlags()
    modifies result
    ensures result.Coherent() && result.safeXml
    ensures result.valid <==> Acceptable(lib, parsed.Content())
    ensures Flagged(lib, parsed.Content(), result)
  {
    hide NoRepeats, IdValues, SignatureDescribed, Evidenced, ReferencesFlagged;
    var document := parsed.Reading();
    var duplicate := HasDuplicateIds(AllIn(document, 0));
    if duplicate { result.Fail(DuplicateId, "DUPLICATE_XML_ID"); return; }
    result.uniqueIds := true;
    VerifySigned(lib, parsed, document, result);
  }

  /** `verifySerialized`, with its early returns and the handlers of the surrounding `try`. */
  method VerifySerialized(lib: Library, xml: Bytes, parsed: Call<XmlDocument>) returns (result: Result)
    requires parsed.Returns? ==> parsed.value.Valid()
    ensures fresh(result) && result.Coherent()
    ensures parsed.Returns? ==> unchanged(parsed.value)
    ensures result.safeXml <==> SourceAcceptable(lib, xml) && parsed.Returns?
    ensures result.safeXml ==> Flagged(lib, parsed.value.Content(), result)
    ensures result.valid <==> SourceAcceptable(lib, xml) && parsed.Returns? && Acceptable(lib, parsed.value.Content())
  {
    hide Contains, Acceptable, Flagged;
    result := new Result();
    if |xml| == 0 || |xml| > MAX_SIZE { result.Fail(MalformedXml, "XML_SIZE_INVALID"); return; }
    var source := lib.text(xml);
    if Contains(source, "<!DOCTYPE") || Contains(source, "<!ENTITY") { result.Fail(UnsafeXml, "XML_DTD_OR_ENTITY_REJECTED"); return; }
    if parsed.Raises? { FailWith(result, parsed.exception); return; }
    result.safeXml := true;
    VerifyDocument(lib, parsed.value, result);
  }
}
