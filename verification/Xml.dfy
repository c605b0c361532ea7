/** XML content as the helper sees it, and what its removal of excluded nodes should compute. */
module Xml {
  import opened Wrappers

  const EXT_NS := "urn:oasis:names:specification:ubl:schema:xsd:CommonExtensionComponents-2"
  const CAC_NS := "urn:oasis:names:specification:ubl:schema:xsd:CommonAggregateComponents-2"
  const CBC_NS := "urn:oasis:names:specification:ubl:schema:xsd:CommonBasicComponents-2"

  datatype Attribute = Attribute(qualifiedName: string, localName: string, value: string)

  /** What a node says by itself; comments and processing instructions are `Other`. */
  datatype Label = Element(namespace: string, localName: string, attributes: seq<Attribute>) | Text(text: string) | Other

  /** A list of sibling nodes in document order, each with the list of its children. */
  datatype Forest<N> = Nil | Cons(node: N, kids: Forest<N>, rest: Forest<N>)

  type Content = Forest<Label>

  predicate Named(l: Label, namespace: string, localName: string) {
    l.Element? && l.namespace == namespace && l.localName == localName
  }

  /** The children of the first element with this name among the siblings: `direct`. */
  function DirectKids<N>(view: N -> Label, f: Forest<N>, namespace: string, localName: string): Option<Forest<N>> {
    match f
    case Nil => None
    case Cons(n, k, r) => if Named(view(n), namespace, localName) then Some(k) else DirectKids(view, r, namespace, localName)
  }

  /** `getTextContent` of the parent of these siblings. */
  function TextOf<N>(view: N -> Label, f: Forest<N>): string {
    match f
    case Nil => ""
    case Cons(n, k, r) =>
      (match view(n)
       case Text(s) => s
       case Element(_, _, _) => TextOf(view, k)
       case Other => "") + TextOf(view, r)
  }

  /** Java's `trim`. */
  function Trim(s: string): string
    decreases |s|
  {
    if s == [] then s
    else if s[0] <= ' ' then Trim(s[1..])
    else if s[|s| - 1] <= ' ' then Trim(s[..|s| - 1])
    else s
  }

  /** Trimming takes away what is blank at either end, and nothing else. */
  lemma {:induction false} TrimTakesBlanks(s: string) returns (from: nat, to: nat)
    ensures from <= to <= |s| && Trim(s) == s[from..to]
    ensures forall i :: 0 <= i < from || to <= i < |s| ==> s[i] <= ' '
    ensures from < to ==> s[from] > ' ' && s[to - 1] > ' '
    decreases |s|
  {
    if s == [] {
      from, to := 0, 0;
    } else if s[0] <= ' ' {
      from, to := TrimTakesBlanks(s[1..]);
      hide Trim;
      assert s[1..][from..to] == s[from + 1..to + 1];
      from, to := from + 1, to + 1;
      assert forall i :: 0 < i < |s| ==> s[i] == s[1..][i - 1];
    } else if s[|s| - 1] <= ' ' {
      from, to := TrimTakesBlanks(s[..|s| - 1]);
      hide Trim;
      assert s[..|s| - 1][from..to] == s[from..to];
    } else {
      from, to := 0, |s|;
    }
  }

  /** `"QR".equals(text(direct(element, CBC_NS, "ID")))` for an element with these children. */
  predicate HasQrId<N>(view: N -> Label, kids: Forest<N>) {
    match DirectKids(view, kids, CBC_NS, "ID")
    case None => false
    case Some(k) => Trim(TextOf(view, k)) == "QR"
  }

  /** One removal loop: every element with the name, or only those with the QR id. */
  datatype Rule = Rule(namespace: string, localName: string, onlyQr: bool) {
    predicate Selects(l: Label) {
      Named(l, namespace, localName)
    }

    predicate Dooms<N>(view: N -> Label, kids: Forest<N>) {
      onlyQr ==> HasQrId(view, kids)
    }
  }

  const EXTENSIONS := Rule(EXT_NS, "UBLExtensions", false)
  const SIGNATURES := Rule(CAC_NS, "Signature", false)
  const QR_REFERENCES := Rule(CAC_NS, "AdditionalDocumentReference", true)

  /** The siblings left by one rule, decided from the leaves up. */
  function Prune<N>(view: N -> Label, rule: Rule, f: Forest<N>): Forest<N> {
    match f
    case Nil => Nil
    case Cons(n, k, r) =>
      var k' := Prune(view, rule, k);
      if rule.Selects(view(n)) && rule.Dooms(view, k') then Prune(view, rule, r)
      else Cons(n, k', Prune(view, rule, r))
  }

  /** An element that must not reach the hash, given what is left of its children. */
  predicate Excluded(l: Label, kids: Content) {
    || EXTENSIONS.Selects(l)
    || SIGNATURES.Selects(l)
    || (QR_REFERENCES.Selects(l) && HasQrId(Self, kids))
  }

  function Self(l: Label): Label {
    l
  }

  /** The hash input: every excluded subtree dropped, in one pass. */
  function PruneExcluded(f: Content): Content {
    match f
    case Nil => Nil
    case Cons(n, k, r) =>
      var k' := PruneExcluded(k);
      if Excluded(n, k') then PruneExcluded(r) else Cons(n, k', PruneExcluded(r))
  }

  /** The helper's three passes, in its order. */
  function ThreePasses<N>(view: N -> Label, f: Forest<N>): Forest<N> {
    Prune(view, QR_REFERENCES, Prune(view, SIGNATURES, Prune(view, EXTENSIONS, f)))
  }

  lemma {:induction false} ThreePassesAreOne(f: Content)
    ensures ThreePasses(Self, f) == PruneExcluded(f)
  {
    match f
    case Nil =>
    case Cons(n, k, r) =>
      ThreePassesAreOne(k);
      ThreePassesAreOne(r);
  }

  /** No excluded element anywhere. */
  predicate Clean(f: Content) {
    match f
    case Nil => true
    case Cons(n, k, r) => !Excluded(n, k) && Clean(k) && Clean(r)
  }

  lemma {:induction false} PrunedIsClean(f: Content)
    ensures Clean(PruneExcluded(f))
  {
    match f
    case Nil =>
    case Cons(n, k, r) =>
      PrunedIsClean(k);
      PrunedIsClean(r);
  }

  /** Pruning changes a document exactly when there is something to exclude; so it is idempotent. */
  lemma {:induction false} PruneFixesCleanOnly(f: Content)
    ensures PruneExcluded(f) == f <==> Clean(f)
    ensures PruneExcluded(PruneExcluded(f)) == PruneExcluded(f)
  {
    PrunedIsClean(f);
    CleanIsFixed(PruneExcluded(f));
    if Clean(f) {
      CleanIsFixed(f);
    }
  }

  lemma {:induction false} CleanIsFixed(f: Content)
    requires Clean(f)
    ensures PruneExcluded(f) == f
  {
    match f
    case Nil =>
    case Cons(n, k, r) =>
      CleanIsFixed(k);
      CleanIsFixed(r);
  }

  /** `f` is `g` with excluded subtrees put in anywhere, also inside one another. */
  predicate Envelops(f: Content, g: Content) {
    match f
    case Nil => g == Nil
    case Cons(n, k, r) =>
      || (Excluded(n, PruneExcluded(k)) && Envelops(r, g))
      || (g.Cons? && n == g.node && Envelops(k, g.kids) && Envelops(r, g.rest))
  }

  /** Enveloping round trip: pruning takes out exactly what was put into a clean invoice. */
  lemma {:induction false} PruneUndoesEnveloping(f: Content, g: Content)
    requires Clean(g)
    ensures Envelops(f, g) <==> PruneExcluded(f) == g
  {
    match f
    case Nil =>
    case Cons(n, k, r) =>
      PruneUndoesEnveloping(r, g);
      if g.Cons? {
        PruneUndoesEnveloping(k, g.kids);
        PruneUndoesEnveloping(r, g.rest);
      }
      PrunedIsClean(k);
      PrunedIsClean(r);
  }

  /** Documents that differ only in excluded subtrees have the same hash input. */
  lemma SameHashInput(f: Content, f': Content, g: Content)
    requires Clean(g) && Envelops(f, g) && Envelops(f', g)
    ensures PruneExcluded(f) == PruneExcluded(f')
  {
  }

  /** The plain reading of the rule: look at each element as it stands and drop its whole subtree. */
  function DropExcluded(f: Content): Content {
    match f
    case Nil => Nil
    case Cons(n, k, r) =>
      if Excluded(n, k) then DropExcluded(r) else Cons(n, DropExcluded(k), DropExcluded(r))
  }

  /** Every reference reads QR before its children are pruned exactly when it does afterwards. */
  predicate ReadingsAgree(f: Content) {
    match f
    case Nil => true
    case Cons(n, k, r) =>
      && (QR_REFERENCES.Selects(n) ==> HasQrId(Self, k) == HasQrId(Self, PruneExcluded(k)))
      && ReadingsAgree(k) && ReadingsAgree(r)
  }

  /** Both readings of the rule give the same, here and for whatever part of the content one starts from. */
  predicate SameThroughout(f: Content) {
    && DropExcluded(f) == PruneExcluded(f)
    && match f
       case Nil => true
       case Cons(n, k, r) => SameThroughout(k) && SameThroughout(r)
  }

  /** The order of removal cannot be seen, in a document and its parts, exactly when no reference changes its reading. */
  lemma {:induction false} DropIsPruneExactlyWhen(f: Content)
    ensures SameThroughout(f) <==> ReadingsAgree(f)
    ensures ReadingsAgree(f) ==> DropExcluded(f) == PruneExcluded(f)
  {
    match f
    case Nil =>
    case Cons(n, k, r) =>
      DropIsPruneExactlyWhen(k);
      DropIsPruneExactlyWhen(r);
      if SameThroughout(f) && Excluded(n, k) != Excluded(n, PruneExcluded(k)) {
        ListIsNotItsTail(n, PruneExcluded(k), PruneExcluded(r));
        assert false;
      }
  }

  lemma {:induction false} ListIsNotItsTail(n: Label, k: Content, r: Content)
    ensures r != Cons(n, k, r)
  {
    if r.Cons? {
      ListIsNotItsTail(n, k, r.rest);
    }
  }

  /** Every `cbc:ID` holds no elements, as the UBL schema has it. */
  predicate PlainIds(f: Content) {
    match f
    case Nil => true
    case Cons(n, k, r) => (Named(n, CBC_NS, "ID") ==> NoElements(k)) && PlainIds(k) && PlainIds(r)
  }

  predicate NoElements(f: Content) {
    match f
    case Nil => true
    case Cons(n, k, r) => !n.Element? && NoElements(k) && NoElements(r)
  }

  /** For documents of the schema it cannot. */
  lemma {:induction false} PlainIdsAgree(f: Content)
    requires PlainIds(f)
    ensures ReadingsAgree(f)
  {
    match f
    case Nil =>
    case Cons(n, k, r) =>
      PlainIdsAgree(k);
      PlainIdsAgree(r);
      QrIdSurvives(k);
  }

  lemma {:induction false} QrIdSurvives(kids: Content)
    requires PlainIds(kids)
    ensures HasQrId(Self, PruneExcluded(kids)) == HasQrId(Self, kids)
  {
    match kids
    case Nil =>
    case Cons(n, k, r) =>
      QrIdSurvives(r);
      if Named(n, CBC_NS, "ID") {
        ElementFreeIsFixed(k);
      }
  }

  lemma {:induction false} ElementFreeIsFixed(f: Content)
    requires NoElements(f)
    ensures PruneExcluded(f) == f
  {
    match f
    case Nil =>
    case Cons(n, k, r) =>
      ElementFreeIsFixed(k);
      ElementFreeIsFixed(r);
  }

  /** In general it can: here the outer reference only reads QR once the inner one is gone. */
  function NestedReference(): Content {
    var id := (text: string, more: Content) =>
      Cons(Element(CBC_NS, "ID", []), Cons(Text(text), Nil, more), Nil);
    var inner := Cons(Element(CAC_NS, "AdditionalDocumentReference", []), id("QR", Nil), Nil);
    Cons(Element(CAC_NS, "AdditionalDocumentReference", []), id("QR", inner), Nil)
  }

  lemma NestedReferenceTellsThemApart()
    ensures PruneExcluded(NestedReference()) == Nil
    ensures DropExcluded(NestedReference()) != Nil
  {
    assert Trim("QR") == "QR";
    assert Trim("QRQR") == "QRQR";
    assert "QR" + "" == "QR";
    assert "QR" + ("QR" + "") == "QRQR";
  }
}
