/** The elements of a parsed document and the lookups the helper makes among them, ids included. */
module DocumentElements {
  import opened Wrappers
  import opened Xml

  datatype Item = Item(at: nat, says: Label, kids: Content)

  /** An element: its place among all elements in document order, its name and attributes, and what it holds. */
  type Elem = e: Item | e.says.Element? witness Item(0, Element("", "", []), Nil)

  function Count(f: Content): nat {
    match f
    case Nil => 0
    case Cons(n, k, r) => (if n.Element? then 1 else 0) + Count(k) + Count(r)
  }

  /** All elements of these siblings in document order, the first of them at place `at`. */
  function AllIn(f: Content, at: nat): (all: seq<Elem>)
    ensures |all| == Count(f) && forall i :: 0 <= i < |all| ==> all[i].at == at + i
  {
    match f
    case Nil => []
    case Cons(n, k, r) =>
      if n.Element? then [Item(at, n, k)] + AllIn(k, at + 1) + AllIn(r, at + 1 + Count(k))
      else AllIn(k, at) + AllIn(r, at + Count(k))
  }

  /** `getElementsByTagNameNS`. */
  function Select(all: seq<Elem>, namespace: string, localName: string): (selected: seq<Elem>)
    ensures forall e :: e in selected <==> e in all && Named(e.says, namespace, localName)
  {
    if all == [] then []
    else Select(all[..|all| - 1], namespace, localName)
         + (if Named(all[|all| - 1].says, namespace, localName) then [all[|all| - 1]] else [])
  }

  function Only(some: seq<Elem>): Option<Elem> {
    if |some| == 1 then Some(some[0]) else None
  }

  function First(f: Content, at: nat, namespace: string, localName: string): Option<Elem> {
    match f
    case Nil => None
    case Cons(n, k, r) =>
      if Named(n, namespace, localName) then Some(Item(at, n, k))
      else First(r, at + (if n.Element? then 1 else 0) + Count(k), namespace, localName)
  }

  /** `direct`: the first child with this name. */
  function Direct(parent: Option<Elem>, namespace: string, localName: string): Option<Elem> {
    if parent.None? then None else First(parent.value.kids, parent.value.at + 1, namespace, localName)
  }

  /** `descendant`: the only element below with this name. */
  function Descendant(parent: Option<Elem>, namespace: string, localName: string): Option<Elem> {
    if parent.None? then None else Only(Select(AllIn(parent.value.kids, parent.value.at + 1), namespace, localName))
  }

  /** `text`: trimmed, and empty for no element. */
  function TextIn(e: Option<Elem>): string {
    if e.None? then "" else Trim(TextOf(Self, e.value.kids))
  }

  /** `getDocumentElement`. */
  function Root(f: Content, at: nat): Option<Elem> {
    match f
    case Nil => None
    case Cons(n, k, r) => if n.Element? then Some(Item(at, n, k)) else Root(r, at + Count(k))
  }

  // ---- what the lookups find

  function Append(f: Content, g: Content): Content {
    match f
    case Nil => g
    case Cons(n, k, r) => Cons(n, k, Append(r, g))
  }

  /** An element, if the node is one, and all it holds. */
  function Subtree(n: Label, k: Content, at: nat): seq<Elem> {
    if n.Element? then [Item(at, n, k)] + AllIn(k, at + 1) else AllIn(k, at)
  }

  lemma SubtreeFirst(n: Label, k: Content, r: Content, at: nat)
    ensures AllIn(Cons(n, k, r), at) == Subtree(n, k, at) + AllIn(r, at + |Subtree(n, k, at)|)
    ensures |Subtree(n, k, at)| == Count(Cons(n, k, Nil))
  {
    SubtreeSize(n, k, at);
    hide Count;
  }

  lemma SubtreeSize(n: Label, k: Content, at: nat)
    ensures |Subtree(n, k, at)| == Count(Cons(n, k, Nil)) == (if n.Element? then 1 else 0) + Count(k)
  {
  }

  lemma Joined<T>(whole: seq<T>, x: seq<T>, rest: seq<T>, y: seq<T>, z: seq<T>, front: seq<T>)
    requires whole == x + rest && rest == y + z && front == x + y
    ensures whole == front + z
  {
  }

  /** Document order: siblings come one after another, */
  lemma {:induction false} SiblingsInOrder(f: Content, g: Content, at: nat)
    ensures AllIn(Append(f, g), at) == AllIn(f, at) + AllIn(g, at + Count(f))
    decreases f, 1
  {
    match f
    case Nil => assert AllIn(Nil, at) == [] && Append(f, g) == g;
    case Cons(n, k, r) => SiblingsAfter(n, k, r, g, at);
  }

  lemma {:induction false} SiblingsAfter(n: Label, k: Content, r: Content, g: Content, at: nat)
    ensures AllIn(Cons(n, k, Append(r, g)), at) == AllIn(Cons(n, k, r), at) + AllIn(g, at + Count(Cons(n, k, r)))
    decreases r, 2
  {
    hide AllIn, Subtree;
    var own := Subtree(n, k, at);
    SubtreeFirst(n, k, Append(r, g), at);
    SubtreeFirst(n, k, r, at);
    SiblingsInOrder(r, g, at + |own|);
    assert at + |own| + Count(r) == at + Count(Cons(n, k, r));
    Joined(AllIn(Cons(n, k, Append(r, g)), at), own, AllIn(Append(r, g), at + |own|), AllIn(r, at + |own|),
           AllIn(g, at + Count(Cons(n, k, r))), AllIn(Cons(n, k, r), at));
  }

  /** and an element right before all it holds. */
  lemma HoldsWhatFollows(n: Label, k: Content, at: nat)
    requires n.Element?
    ensures AllIn(Cons(n, k, Nil), at) == [Item(at, n, k)] + AllIn(k, at + 1)
  {
  }

  /** The elements among siblings. */
  function Children(f: Content, at: nat): seq<Elem> {
    match f
    case Nil => []
    case Cons(n, k, r) => (if n.Element? then [Item(at, n, k)] else []) + Children(r, at + (if n.Element? then 1 else 0) + Count(k))
  }

  /** The earliest of these elements with this name. */
  ghost predicate IsFirst(some: seq<Elem>, e: Elem, namespace: string, localName: string) {
    e in some && Named(e.says, namespace, localName) && forall x :: x in some && Named(x.says, namespace, localName) ==> e.at <= x.at
  }

  /** The only one of these elements with this name. */
  ghost predicate IsOnly(some: seq<Elem>, e: Elem, namespace: string, localName: string) {
    e in some && Named(e.says, namespace, localName) && forall x :: x in some && Named(x.says, namespace, localName) ==> x == e
  }

  lemma {:induction false} ChildrenFollow(f: Content, at: nat)
    ensures forall x :: x in Children(f, at) ==> at <= x.at
    ensures InOrder(Children(f, at))
  {
    match f
    case Nil =>
    case Cons(n, k, r) => ChildrenFollow(r, at + (if n.Element? then 1 else 0) + Count(k));
  }

  lemma {:induction false} FirstOfChildren(f: Content, at: nat, namespace: string, localName: string, e: Elem)
    ensures First(f, at, namespace, localName) == Some(e) <==> IsFirst(Children(f, at), e, namespace, localName)
  {
    match f
    case Nil =>
    case Cons(n, k, r) =>
      var next := at + (if n.Element? then 1 else 0) + Count(k);
      ChildrenFollow(r, next);
      FirstOfChildren(r, next, namespace, localName, e);
  }

  /** `direct` finds exactly the first child with the name. */
  lemma DirectIsFirst(parent: Elem, namespace: string, localName: string, e: Elem)
    ensures Direct(Some(parent), namespace, localName) == Some(e) <==> IsFirst(Children(parent.kids, parent.at + 1), e, namespace, localName)
  {
    FirstOfChildren(parent.kids, parent.at + 1, namespace, localName, e);
  }

  /** `descendant` finds exactly the only element below with the name. */
  lemma DescendantIsOnly(parent: Elem, namespace: string, localName: string, e: Elem)
    ensures Descendant(Some(parent), namespace, localName) == Some(e)
       <==> IsOnly(AllIn(parent.kids, parent.at + 1), e, namespace, localName)
  {
    OnlyOfSelected(AllIn(parent.kids, parent.at + 1), namespace, localName, e);
  }

  lemma OnlyOfSelected(all: seq<Elem>, namespace: string, localName: string, e: Elem)
    requires InOrder(all)
    ensures Only(Select(all, namespace, localName)) == Some(e) <==> IsOnly(all, e, namespace, localName)
  {
    var selected := Select(all, namespace, localName);
    SelectedPlaces(all, namespace, localName);
    hide Select;
    if IsOnly(all, e, namespace, localName) {
      assert e in selected;
      assert forall i :: 0 <= i < |selected| ==> selected[i] in selected;
    }
    if |selected| == 1 {
      assert selected[0] in selected;
    }
  }

  /** The first of the selected elements is the earliest. */
  lemma FirstOfSelected(all: seq<Elem>, namespace: string, localName: string)
    requires InOrder(all)
    ensures var selected := Select(all, namespace, localName);
            if selected == [] then forall x :: x in all ==> !Named(x.says, namespace, localName) else IsFirst(all, selected[0], namespace, localName)
  {
    var selected := Select(all, namespace, localName);
    SelectedPlaces(all, namespace, localName);
    hide Select;
    if selected != [] {
      assert selected[0] in selected;
      forall x | x in all && Named(x.says, namespace, localName)
        ensures selected[0].at <= x.at
      {
        assert x in selected;
        var i :| 0 <= i < |selected| && selected[i] == x;
      }
    }
  }

  /** The reading of a reference's id is the text of its first `cbc:ID` child. */
  lemma QrIdIsFirst(e: Elem)
    ensures HasQrId(Self, e.kids) <==> SaysFirst(Children(e.kids, e.at + 1), CBC_NS, "ID", "QR")
  {
    DirectKidsAreFirst(e.kids, e.at + 1, CBC_NS, "ID");
    DirectSays(e, CBC_NS, "ID");
    ChildrenFollow(e.kids, e.at + 1);
    SaysOneText(Children(e.kids, e.at + 1), CBC_NS, "ID", "QR", TextIn(Direct(Some(e), CBC_NS, "ID")));
    hide SaysFirst, Children, First, DirectKids, TextOf, Trim;
  }

  lemma {:induction false} DirectKidsAreFirst(f: Content, at: nat, namespace: string, localName: string)
    ensures var found := First(f, at, namespace, localName);
            DirectKids(Self, f, namespace, localName) == if found.None? then None else Some(found.value.kids)
  {
    match f
    case Nil =>
    case Cons(n, k, r) => DirectKidsAreFirst(r, at + (if n.Element? then 1 else 0) + Count(k), namespace, localName);
  }

  /** An element that the hash leaves out: the extensions, a signature, or a reference whose first id says QR. */
  ghost predicate IsLeftOut(e: Elem) {
    || Named(e.says, EXT_NS, "UBLExtensions") || Named(e.says, CAC_NS, "Signature")
    || (Named(e.says, CAC_NS, "AdditionalDocumentReference") && SaysFirst(Children(e.kids, e.at + 1), CBC_NS, "ID", "QR"))
  }

  /** Content is clean, and left as it is by pruning, exactly when none of its elements is one of these. */
  lemma {:induction false} CleanExactly(f: Content, at: nat)
    ensures Clean(f) <==> forall e :: e in AllIn(f, at) ==> !IsLeftOut(e)
    decreases f, 0
  {
    match f
    case Nil =>
    case Cons(n, k, r) =>
      hide IsLeftOut, Clean, Excluded, AllIn, Subtree;
      SubtreeFirst(n, k, r, at);
      CleanExactly(r, at + |Subtree(n, k, at)|);
      CleanSubtree(n, k, at);
      CleanParts(n, k, r);
      assert forall e :: e in AllIn(f, at) <==> e in Subtree(n, k, at) || e in AllIn(r, at + |Subtree(n, k, at)|);
  }

  lemma CleanParts(n: Label, k: Content, r: Content)
    ensures Clean(Cons(n, k, r)) <==> Clean(Cons(n, k, Nil)) && Clean(r)
  {
    hide Excluded;
  }

  lemma {:induction false} CleanSubtree(n: Label, k: Content, at: nat)
    ensures Clean(Cons(n, k, Nil)) <==> forall e :: e in Subtree(n, k, at) ==> !IsLeftOut(e)
    decreases k, 1
  {
    CleanExactly(k, if n.Element? then at + 1 else at);
    if n.Element? {
      LeftOutExactly(Item(at, n, k));
    }
    hide IsLeftOut, HasQrId, AllIn;
  }

  lemma LeftOutExactly(e: Elem)
    ensures Excluded(e.says, e.kids) <==> IsLeftOut(e)
  {
    QrIdIsFirst(e);
    hide HasQrId, SaysFirst, Children;
  }

  /** The text of siblings is their texts in order: what text nodes say and elements hold, and nothing of comments. */
  lemma {:induction false} TextInOrder(f: Content, g: Content)
    ensures TextOf(Self, Append(f, g)) == TextOf(Self, f) + TextOf(Self, g)
    ensures forall s, k :: TextOf(Self, Cons(Text(s), k, Nil)) == s
    ensures forall n: Label :: n.Element? ==> TextOf(Self, Cons(n, f, Nil)) == TextOf(Self, f)
    ensures TextOf(Self, Cons(Other, f, Nil)) == ""
  {
    if f.Cons? {
      TextInOrder(f.rest, g);
    }
  }

  /** A text found by name: that of the only such element, and empty when there is none or more than one. */
  ghost predicate SaysOnly(some: seq<Elem>, namespace: string, localName: string, text: string) {
    if exists e :: IsOnly(some, e, namespace, localName)
    then exists e :: IsOnly(some, e, namespace, localName) && text == TextIn(Some(e))
    else text == ""
  }

  /** That of the first such element, and empty when there is none. */
  ghost predicate SaysFirst(some: seq<Elem>, namespace: string, localName: string, text: string) {
    if exists e :: IsFirst(some, e, namespace, localName)
    then exists e :: IsFirst(some, e, namespace, localName) && text == TextIn(Some(e))
    else text == ""
  }

  lemma SaysOneText(some: seq<Elem>, namespace: string, localName: string, a: string, b: string)
    requires InOrder(some)
    ensures SaysOnly(some, namespace, localName, a) && SaysOnly(some, namespace, localName, b) ==> a == b
    ensures SaysFirst(some, namespace, localName, a) && SaysFirst(some, namespace, localName, b) ==> a == b
  {
    forall e, x | IsFirst(some, e, namespace, localName) && IsFirst(some, x, namespace, localName)
      ensures e == x
    {
      OneFirst(some, e, x, namespace, localName);
    }
    hide TextIn, IsFirst;
  }

  lemma OneFirst(some: seq<Elem>, e: Elem, x: Elem, namespace: string, localName: string)
    requires InOrder(some) && IsFirst(some, e, namespace, localName) && IsFirst(some, x, namespace, localName)
    ensures e == x
  {
    var i :| 0 <= i < |some| && some[i] == e;
    var k :| 0 <= k < |some| && some[k] == x;
  }

  /** The document element is the first one at the top. */
  lemma {:induction false} RootIsFirst(f: Content, at: nat)
    ensures Root(f, at) == if Children(f, at) == [] then None else Some(Children(f, at)[0])
  {
    match f
    case Nil =>
    case Cons(n, k, r) =>
      if !n.Element? {
        RootIsFirst(r, at + Count(k));
      }
  }

  lemma DescendantSays(parent: Elem, namespace: string, localName: string)
    ensures SaysOnly(AllIn(parent.kids, parent.at + 1), namespace, localName, TextIn(Descendant(Some(parent), namespace, localName)))
  {
    var found := Descendant(Some(parent), namespace, localName);
    forall e: Elem
      ensures found == Some(e) <==> IsOnly(AllIn(parent.kids, parent.at + 1), e, namespace, localName)
    {
      DescendantIsOnly(parent, namespace, localName, e);
    }
    hide Descendant, IsOnly, AllIn, Trim, TextOf;
    if found.Some? {
      assert IsOnly(AllIn(parent.kids, parent.at + 1), found.value, namespace, localName);
    }
  }

  lemma DirectSays(parent: Elem, namespace: string, localName: string)
    ensures SaysFirst(Children(parent.kids, parent.at + 1), namespace, localName, TextIn(Direct(Some(parent), namespace, localName)))
  {
    var found := Direct(Some(parent), namespace, localName);
    forall e: Elem
      ensures found == Some(e) <==> IsFirst(Children(parent.kids, parent.at + 1), e, namespace, localName)
    {
      DirectIsFirst(parent, namespace, localName, e);
    }
    hide Direct, IsFirst, Children, Trim, TextOf;
    if found.Some? {
      assert IsFirst(Children(parent.kids, parent.at + 1), found.value, namespace, localName);
    }
  }

  // ---- attributes and ids

  /** `getAttribute`: empty when there is none. */
  function AttributeValue(attributes: seq<Attribute>, qualifiedName: string): string {
    if attributes == [] then ""
    else if attributes[0].qualifiedName == qualifiedName then attributes[0].value
    else AttributeValue(attributes[1..], qualifiedName)
  }

  function Get(e: Elem, qualifiedName: string): string {
    AttributeValue(e.says.attributes, qualifiedName)
  }

  predicate IsIdAttribute(a: Attribute) {
    a.localName == "Id" || a.localName == "ID" || a.localName == "id"
  }

  /** The values of one element's id attributes. */
  function IdsOf(attributes: seq<Attribute>): seq<string> {
    if attributes == [] then []
    else IdsOf(attributes[..|attributes| - 1])
         + (if IsIdAttribute(attributes[|attributes| - 1]) then [attributes[|attributes| - 1].value] else [])
  }

  /** The values of all id attributes, one entry for every attribute that has one. */
  function IdValues(all: seq<Elem>): seq<string> {
    if all == [] then [] else IdValues(all[..|all| - 1]) + IdsOf(all[|all| - 1].says.attributes)
  }

  /** The ids are the values of the attributes that are called `Id`, `ID` or `id`. */
  lemma {:induction false} IdsAreValues(all: seq<Elem>, v: string)
    ensures v in IdValues(all)
       <==> exists e, a :: e in all && a in e.says.attributes && a.value == v && (a.localName == "Id" || a.localName == "ID" || a.localName == "id")
  {
    if all != [] {
      var n := |all| - 1;
      IdsAreValues(all[..n], v);
      OwnIdsAreValues(all[n].says.attributes, v);
      assert all == all[..n] + [all[n]];
      hide IdsOf;
    }
  }

  lemma {:induction false} OwnIdsAreValues(attributes: seq<Attribute>, v: string)
    ensures v in IdsOf(attributes)
       <==> exists a :: a in attributes && a.value == v && (a.localName == "Id" || a.localName == "ID" || a.localName == "id")
  {
    if attributes != [] {
      var n := |attributes| - 1;
      OwnIdsAreValues(attributes[..n], v);
      assert attributes == attributes[..n] + [attributes[n]];
    }
  }

  predicate NoRepeats(values: seq<string>) {
    forall i, j :: 0 <= i < j < |values| ==> values[i] != values[j]
  }

  /** `hasDuplicateIds`: two id attributes share a value, wherever they stand. */
  method HasDuplicateIds(all: seq<Elem>) returns (duplicate: bool)
    ensures duplicate <==> !NoRepeats(IdValues(all))
  {
    var ids: set<string> := {};
    for i := 0 to |all|
      invariant NoRepeats(IdValues(all[..i]))
      invariant forall v :: v in ids <==> v in IdValues(all[..i])
    {
      var attrs := all[i].says.attributes;
      assert all[..i + 1][..i] == all[..i];
      for j := 0 to |attrs|
        invariant NoRepeats(IdValues(all[..i]) + IdsOf(attrs[..j]))
        invariant forall v :: v in ids <==> v in IdValues(all[..i]) + IdsOf(attrs[..j])
      {
        assert attrs[..j + 1][..j] == attrs[..j];
        ghost var seen := IdValues(all[..i]) + IdsOf(attrs[..j]);
        if IsIdAttribute(attrs[j]) {
          assert IdValues(all[..i]) + IdsOf(attrs[..j + 1]) == seen + [attrs[j].value];
          NoRepeatsAppend(seen, attrs[j].value);
          if attrs[j].value in ids {
            RepeatStays(all, i, j);
            return true;
          }
          ids := ids + {attrs[j].value};
        } else {
          assert IdsOf(attrs[..j + 1]) == IdsOf(attrs[..j]);
        }
      }
      assert attrs[..|attrs|] == attrs;
    }
    assert all[..|all|] == all;
    return false;
  }

  lemma NoRepeatsAppend(values: seq<string>, v: string)
    ensures NoRepeats(values + [v]) <==> NoRepeats(values) && v !in values
  {
    if NoRepeats(values + [v]) {
      assert forall i :: 0 <= i < |values| ==> (values + [v])[i] == values[i] && (values + [v])[|values|] == v;
    }
  }

  /** A repetition among the ids read so far is one among all of them. */
  lemma RepeatStays(all: seq<Elem>, i: nat, j: nat)
    requires i < |all| && j < |all[i].says.attributes|
    requires !NoRepeats(IdValues(all[..i]) + IdsOf(all[i].says.attributes[..j + 1]))
    ensures !NoRepeats(IdValues(all))
  {
    IdsPrefix(all[i].says.attributes, j + 1);
    assert all[..i + 1][..i] == all[..i];
    var seen := IdValues(all[..i]) + IdsOf(all[i].says.attributes[..j + 1]);
    assert seen <= IdValues(all[..i + 1]);
    IdValuesPrefix(all, i + 1);
    var a, b :| 0 <= a < b < |seen| && seen[a] == seen[b];
    assert IdValues(all)[a] == IdValues(all)[b];
  }

  lemma {:induction false} IdsPrefix(attributes: seq<Attribute>, n: nat)
    requires n <= |attributes|
    ensures IdsOf(attributes[..n]) <= IdsOf(attributes)
  {
    if n < |attributes| {
      IdsPrefix(attributes[..|attributes| - 1], n);
      assert attributes[..|attributes| - 1][..n] == attributes[..n];
    } else {
      assert attributes[..n] == attributes;
    }
  }

  lemma {:induction false} IdValuesPrefix(all: seq<Elem>, n: nat)
    requires n <= |all|
    ensures IdValues(all[..n]) <= IdValues(all)
  {
    if n < |all| {
      IdValuesPrefix(all[..|all| - 1], n);
      assert all[..|all| - 1][..n] == all[..n];
    } else {
      assert all[..n] == all;
    }
  }

  /** A namespace-aware parser gives an attribute without a prefix its whole name as local name. */
  predicate NamespaceAware(all: seq<Elem>) {
    forall i, j :: 0 <= i < |all| && 0 <= j < |all[i].says.attributes| && all[i].says.attributes[j].qualifiedName == "Id" ==>
                     all[i].says.attributes[j].localName == "Id"
  }

  /** `uniqueIdElement`: the one candidate with this id, or nothing if there are none or several. */
  method UniqueIdElement(candidates: seq<Elem>, id: string) returns (found: Option<Elem>)
    ensures found == OnlyWithId(candidates, id)
  {
    found := None;
    for i := 0 to |candidates|
      invariant WithId(candidates[..i], id) == if found.None? then [] else [found.value]
    {
      assert candidates[..i + 1][..i] == candidates[..i];
      if id == Get(candidates[i], "Id") {
        if found != None {
          assert |WithId(candidates[..i + 1], id)| == 2;
          MoreWithId(candidates, i + 1, id);
          return None;
        }
        found := Some(candidates[i]);
      }
    }
    assert candidates[..|candidates|] == candidates;
  }

  /** The candidates with this id. */
  function WithId(candidates: seq<Elem>, id: string): (some: seq<Elem>)
    ensures forall e :: e in some <==> e in candidates && Get(e, "Id") == id
  {
    if candidates == [] then []
    else WithId(candidates[..|candidates| - 1], id)
         + (if Get(candidates[|candidates| - 1], "Id") == id then [candidates[|candidates| - 1]] else [])
  }

  function OnlyWithId(candidates: seq<Elem>, id: string): Option<Elem> {
    Only(WithId(candidates, id))
  }

  lemma {:induction false} MoreWithId(candidates: seq<Elem>, n: nat, id: string)
    requires n <= |candidates|
    ensures |WithId(candidates[..n], id)| <= |WithId(candidates, id)|
  {
    if n < |candidates| {
      MoreWithId(candidates[..|candidates| - 1], n, id);
      assert candidates[..|candidates| - 1][..n] == candidates[..n];
    } else {
      assert candidates[..n] == candidates;
    }
  }

  /** After `hasDuplicateIds` said no, a non-empty id names at most one element of the document. */
  lemma IdNamesOneElement(all: seq<Elem>, id: string, i: nat, k: nat)
    requires NamespaceAware(all) && NoRepeats(IdValues(all)) && id != ""
    requires i < |all| && k < |all| && Get(all[i], "Id") == id && Get(all[k], "Id") == id
    ensures i == k
  {
    if i < k {
      SameIdTwice(all, id, i, k);
    } else if k < i {
      SameIdTwice(all, id, k, i);
    }
  }

  lemma SameIdTwice(all: seq<Elem>, id: string, lo: nat, hi: nat)
    requires NamespaceAware(all) && id != "" && lo < hi < |all|
    requires Get(all[lo], "Id") == id && Get(all[hi], "Id") == id
    ensures !NoRepeats(IdValues(all))
  {
    hide IdValues, IdsOf;
    var a := IdOccurs(all[lo].says.attributes, id);
    var b := IdOccurs(all[hi].says.attributes, id);
    var x := |IdValues(all[..lo])| + a;
    var y := |IdValues(all[..hi])| + b;
    PlaceOfId(all, lo, a);
    PlaceOfId(all, hi, b);
    PlaceOfId(all[..hi], lo, a);
    assert all[..hi][..lo] == all[..lo];
    assert x < y;
  }

  lemma {:induction false} IdOccurs(attributes: seq<Attribute>, id: string) returns (place: nat)
    requires AttributeValue(attributes, "Id") == id && id != ""
    requires forall j :: 0 <= j < |attributes| && attributes[j].qualifiedName == "Id" ==> attributes[j].localName == "Id"
    ensures place < |IdsOf(attributes)| && IdsOf(attributes)[place] == id
  {
    var j := FirstId(attributes, id);
    assert attributes[..j + 1][..j] == attributes[..j];
    place := |IdsOf(attributes[..j])|;
    IdsPrefix(attributes, j + 1);
    assert IdsOf(attributes[..j + 1])[place] == id;
  }

  lemma {:induction false} FirstId(attributes: seq<Attribute>, id: string) returns (j: nat)
    requires AttributeValue(attributes, "Id") == id && id != ""
    ensures j < |attributes| && attributes[j].qualifiedName == "Id" && attributes[j].value == id
  {
    if attributes[0].qualifiedName == "Id" {
      j := 0;
    } else {
      j := FirstId(attributes[1..], id);
      j := j + 1;
    }
  }

  lemma PlaceOfId(all: seq<Elem>, i: nat, place: nat)
    requires i < |all| && place < |IdsOf(all[i].says.attributes)|
    ensures |IdValues(all[..i])| + place < |IdValues(all)|
    ensures IdValues(all)[|IdValues(all[..i])| + place] == IdsOf(all[i].says.attributes)[place]
  {
    IdValuesPrefix(all, i + 1);
    assert all[..i + 1][..i] == all[..i];
    assert IdValues(all[..i + 1])[|IdValues(all[..i])| + place] == IdsOf(all[i].says.attributes)[place];
  }

  /**
   * So with unique ids the exit of `uniqueIdElement` for a second match is taken only for the empty
   * id, which every element without an `Id` attribute answers to; any other id is found exactly when
   * a candidate has it.
   */
  lemma FoundExactlyWhenThere(content: Content, namespace: string, localName: string, id: string)
    requires NamespaceAware(AllIn(content, 0)) && NoRepeats(IdValues(AllIn(content, 0))) && id != ""
    ensures var candidates := Select(AllIn(content, 0), namespace, localName);
            && (OnlyWithId(candidates, id).Some? <==> exists e :: e in candidates && Get(e, "Id") == id)
            && |WithId(candidates, id)| <= 1
  {
    var candidates := Select(AllIn(content, 0), namespace, localName);
    var some := WithId(candidates, id);
    AtMostOneWithId(AllIn(content, 0), namespace, localName, id);
    hide IdValues, NoRepeats, NamespaceAware, Select, AllIn;
    if e :| e in candidates && Get(e, "Id") == id {
      assert e in some;
    }
    if |some| == 1 {
      assert some[0] in candidates && Get(some[0], "Id") == id;
    }
  }

  lemma AtMostOneWithId(all: seq<Elem>, namespace: string, localName: string, id: string)
    requires InOrder(all) && NamespaceAware(all) && NoRepeats(IdValues(all)) && id != ""
    ensures |WithId(Select(all, namespace, localName), id)| <= 1
  {
    SelectedPlaces(all, namespace, localName);
    WithIdPlaces(Select(all, namespace, localName), id);
    var some := WithId(Select(all, namespace, localName), id);
    hide IdValues, NoRepeats, NamespaceAware;
    if |some| >= 2 {
      assert some[0] in all && some[1] in all;
      var i :| 0 <= i < |all| && all[i] == some[0];
      var k :| 0 <= k < |all| && all[k] == some[1];
      IdNamesOneElement(all, id, i, k);
    }
  }

  predicate InOrder(some: seq<Elem>) {
    forall i, k :: 0 <= i < k < |some| ==> some[i].at < some[k].at
  }

  lemma {:induction false} SelectedPlaces(all: seq<Elem>, namespace: string, localName: string)
    requires InOrder(all)
    ensures InOrder(Select(all, namespace, localName))
  {
    if all != [] {
      var before := all[..|all| - 1];
      SelectedPlaces(before, namespace, localName);
      var selected := Select(before, namespace, localName);
      assert forall i :: 0 <= i < |selected| ==> selected[i] in before;
    }
  }

  lemma {:induction false} WithIdPlaces(candidates: seq<Elem>, id: string)
    requires InOrder(candidates)
    ensures InOrder(WithId(candidates, id))
  {
    if candidates != [] {
      var before := candidates[..|candidates| - 1];
      WithIdPlaces(before, id);
      var some := WithId(before, id);
      assert forall i :: 0 <= i < |some| ==> some[i] in before;
    }
  }
}
