/** The document the helper edits in place: `removeExcludedNodes`, `removeAll`, `remove`, `direct`, `text`. */
module Dom {
  import opened Wrappers
  import opened Xml
  import opened LiveList

  type NodeId = nat

  /** The document node itself, the parent of the top-level nodes. */
  const DOCUMENT: NodeId := 0

  type Siblings = Forest<NodeId>

  /** The links between nodes: every node's children, and its parent unless it is detached. */
  datatype Links = Links(childrenOf: map<NodeId, seq<NodeId>>, parentOf: map<NodeId, NodeId>) {
    function Children(n: NodeId): seq<NodeId> {
      if n in childrenOf then childrenOf[n] else []
    }

    predicate HasParent(n: NodeId, p: NodeId) {
      n in parentOf && parentOf[n] == p
    }
  }

  function View(says: map<NodeId, Label>): NodeId -> Label {
    n => if n in says then says[n] else Other
  }

  function Heads(f: Siblings): seq<NodeId> {
    match f
    case Nil => []
    case Cons(n, k, r) => [n] + Heads(r)
  }

  /** The nodes are linked as `f` says, under `owner`. */
  ghost predicate Linked(links: Links, owner: NodeId, f: Siblings)
    decreases f
  {
    match f
    case Nil => true
    case Cons(n, k, r) =>
      && links.HasParent(n, owner) && links.Children(n) == Heads(k)
      && Linked(links, n, k) && Linked(links, owner, r)
  }

  /** What the nodes say, without which nodes they are. */
  function ContentOf(view: NodeId -> Label, f: Siblings): Content {
    match f
    case Nil => Nil
    case Cons(n, k, r) => Cons(view(n), ContentOf(view, k), ContentOf(view, r))
  }

  /** `list` with the first occurrence of `x` left out: what `removeChild` does to the children. */
  function Without(list: seq<NodeId>, x: NodeId): seq<NodeId> {
    if list == [] then []
    else if list[0] == x then list[1..]
    else [list[0]] + Without(list[1..], x)
  }

  function Unlink(links: Links, x: NodeId): Links
    requires x in links.parentOf
  {
    var p := links.parentOf[x];
    Links(links.childrenOf[p := Without(links.Children(p), x)], links.parentOf - {x})
  }

  lemma {:induction false} HeadsAreNodes(f: Siblings)
    ensures forall n :: n in Heads(f) ==> n in Nodes(f)
  {
    match f
    case Nil =>
    case Cons(n, k, r) => HeadsAreNodes(r);
  }

  lemma {:induction false} WithoutAbsent(list: seq<NodeId>, x: NodeId)
    requires x !in list
    ensures Without(list, x) == list
  {
    if list != [] {
      WithoutAbsent(list[1..], x);
    }
  }

  /** Unlinking `x` leaves the nodes linked exactly as the tree without its subtree. */
  lemma {:induction false} CutIsLinked(links: Links, owner: NodeId, f: Siblings, x: NodeId)
    requires Linked(links, owner, f) && Distinct(f) && owner !in Nodes(f)
    requires x in links.parentOf && x != owner
    ensures Linked(Unlink(links, x), owner, Cut(f, x))
    ensures Heads(Cut(f, x)) == if links.parentOf[x] == owner then Without(Heads(f), x) else Heads(f)
    decreases f
  {
    match f
    case Nil =>
    case Cons(n, k, r) =>
      HeadsAreNodes(k);
      HeadsAreNodes(r);
      CutIsLinked(links, owner, r, x);
      if n == x {
        CutAbsent(r, x);
      } else {
        CutIsLinked(links, n, k, x);
      }
  }

  lemma {:induction false} ParentInTree(links: Links, owner: NodeId, f: Siblings, x: NodeId)
    requires Linked(links, owner, f) && x in Nodes(f)
    ensures x in links.parentOf && (links.parentOf[x] == owner || links.parentOf[x] in Nodes(f))
    decreases f
  {
    match f
    case Cons(n, k, r) =>
      if x != n {
        if x in Nodes(k) {
          ParentInTree(links, n, k, x);
        } else {
          ParentInTree(links, owner, r, x);
        }
      }
  }

  lemma {:induction false} CutStaysDistinct(f: Siblings, x: NodeId)
    requires Distinct(f)
    ensures Distinct(Cut(f, x)) && Nodes(Cut(f, x)) <= Nodes(f)
  {
    match f
    case Nil =>
    case Cons(n, k, r) =>
      CutStaysDistinct(k, x);
      CutStaysDistinct(r, x);
  }

  lemma {:induction false} KidsAreLinked(links: Links, owner: NodeId, f: Siblings, x: NodeId)
    requires Linked(links, owner, f) && x in Nodes(f)
    ensures links.Children(x) == Heads(KidsOf(f, x)) && Linked(links, x, KidsOf(f, x))
    decreases f
  {
    match f
    case Cons(n, k, r) =>
      if x != n {
        if x in Nodes(k) {
          KidsAreLinked(links, n, k, x);
        } else {
          KidsAreLinked(links, owner, r, x);
        }
      }
  }

  /** Forgetting which nodes they are commutes with pruning. */
  lemma {:induction false} ContentOfPruned(view: NodeId -> Label, rule: Rule, f: Siblings)
    ensures ContentOf(view, Prune(view, rule, f)) == Prune(Self, rule, ContentOf(view, f))
  {
    match f
    case Nil =>
    case Cons(n, k, r) =>
      ContentOfPruned(view, rule, k);
      ContentOfPruned(view, rule, r);
      QrIdOfContent(view, Prune(view, rule, k));
  }

  lemma {:induction false} QrIdOfContent(view: NodeId -> Label, f: Siblings)
    ensures HasQrId(Self, ContentOf(view, f)) == HasQrId(view, f)
  {
    match f
    case Nil =>
    case Cons(n, k, r) =>
      QrIdOfContent(view, r);
      TextOfContent(view, k);
  }

  lemma {:induction false} TextOfContent(view: NodeId -> Label, f: Siblings)
    ensures TextOf(Self, ContentOf(view, f)) == TextOf(view, f)
  {
    match f
    case Nil =>
    case Cons(n, k, r) =>
      TextOfContent(view, k);
      TextOfContent(view, r);
  }

  class XmlDocument {
    const says: map<NodeId, Label>
    var links: Links
    ghost var shape: Siblings

    /** The links form a tree: `shape` under the document node. */
    ghost predicate Valid()
      reads this
    {
      && Linked(links, DOCUMENT, shape) && links.Children(DOCUMENT) == Heads(shape)
      && Distinct(shape) && DOCUMENT !in Nodes(shape) && DOCUMENT !in links.parentOf
    }

    /** Everything the document says, in order. */
    ghost function Content(): Content
      reads this
    {
      ContentOf(View(says), shape)
    }

    /** `cloneNode(true)`: a document of its own, with the same content. */
    constructor Clone(original: XmlDocument)
      requires original.Valid()
      ensures Valid() && Content() == original.Content()
    {
      says := original.says;
      links := original.links;
      shape := original.shape;
    }

    /** The live list's members as the links are now. */
    function Members(rule: Rule): (list: seq<NodeId>)
      requires Valid()
      reads this
      ensures list == Live(View(says), rule, shape)
    {
      MembersBelow(DOCUMENT, links.Children(DOCUMENT), rule, shape)
    }

    function MembersBelow(owner: NodeId, children: seq<NodeId>, rule: Rule, ghost f: Siblings): (list: seq<NodeId>)
      requires children == Heads(f) && Linked(links, owner, f)
      reads this
      ensures list == Live(View(says), rule, f)
      decreases f
    {
      if children == [] then [] else
      var first := children[0];
      (if rule.Selects(View(says)(first)) then [first] else [])
      + MembersBelow(first, links.Children(first), rule, f.kids)
      + MembersBelow(owner, children[1..], rule, f.rest)
    }

    /** `getTextContent` of `owner`. */
    function TextContent(owner: NodeId, children: seq<NodeId>, ghost f: Siblings): (text: string)
      requires children == Heads(f) && Linked(links, owner, f)
      reads this
      ensures text == TextOf(View(says), f)
      decreases f
    {
      if children == [] then "" else
      var first := children[0];
      (match View(says)(first)
       case Text(s) => s
       case Element(_, _, _) => TextContent(first, links.Children(first), f.kids)
       case Other => "") + TextContent(owner, children[1..], f.rest)
    }

    /** The content as it is read off the links. */
    function Reading(): (content: Content)
      requires Valid()
      reads this
      ensures content == Content()
    {
      ContentBelow(DOCUMENT, links.Children(DOCUMENT), shape)
    }

    function ContentBelow(owner: NodeId, children: seq<NodeId>, ghost f: Siblings): (content: Content)
      requires children == Heads(f) && Linked(links, owner, f)
      reads this
      ensures content == ContentOf(View(says), f)
      decreases f
    {
      if children == [] then Nil else
      var first := children[0];
      Cons(View(says)(first), ContentBelow(first, links.Children(first), f.kids), ContentBelow(owner, children[1..], f.rest))
    }

    /** `direct`, by its loop over the following siblings. */
    method Direct(owner: NodeId, namespace: string, localName: string, ghost f: Siblings)
      returns (found: bool, child: NodeId, ghost kids: Siblings)
      requires links.Children(owner) == Heads(f) && Linked(links, owner, f)
      ensures found <==> DirectKids(View(says), f, namespace, localName).Some?
      ensures found ==> DirectKids(View(says), f, namespace, localName) == Some(kids)
      ensures found ==> links.Children(child) == Heads(kids) && Linked(links, child, kids)
    {
      var node := links.Children(owner);
      kids := Nil;
      ghost var rest := f;
      while node != []
        invariant node == Heads(rest) && Linked(links, owner, rest)
        invariant DirectKids(View(says), f, namespace, localName) == DirectKids(View(says), rest, namespace, localName)
        decreases rest
      {
        if Named(View(says)(node[0]), namespace, localName) {
          return true, node[0], rest.kids;
        }
        node := node[1..];
        rest := rest.rest;
      }
      return false, 0, Nil;
    }

    /** `remove`: unlink the node from its parent, if it still has one. */
    method Remove(node: NodeId)
      requires Valid() && node in Nodes(shape)
      modifies this
      ensures Valid() && shape == Cut(old(shape), node)
    {
      ParentInTree(links, DOCUMENT, shape, node);
      CutIsLinked(links, DOCUMENT, shape, node);
      CutStaysDistinct(shape, node);
      if node in links.parentOf {
        links := Unlink(links, node);
        shape := Cut(shape, node);
      }
    }

    /**
     * `removeAll`, and the loop over the references in `removeExcludedNodes`: visit the live
     * list from its end, asking it anew for the member at each index.
     */
    method RemoveMembers(rule: Rule)
      requires Valid()
      modifies this
      ensures Valid() && shape == Prune(View(says), rule, old(shape))
    {
      ghost var was := shape;
      var i: int := |Members(rule)| - 1;
      PruneFromEnd(View(says), rule, was);
      while i >= 0
        invariant -1 <= i < |Live(View(says), rule, was)|
        invariant Valid() && shape == PruneFrom(View(says), rule, was, i + 1)
      {
        MemberStays(View(says), rule, was, i + 1, i);
        VisitMember(View(says), rule, was, i + 1);
        var item := Members(rule)[i];
        KidsAreLinked(links, DOCUMENT, shape, item);
        var doomed := true;
        if rule.onlyQr {
          var found, id, kids := Direct(item, CBC_NS, "ID", KidsOf(shape, item));
          doomed := found && Trim(TextContent(id, links.Children(id), kids)) == "QR";
        }
        if doomed {
          Remove(item);
        }
        i := i - 1;
      }
      PruneFromStart(View(says), rule, was);
    }

    /** `removeExcludedNodes`. */
    method RemoveExcludedNodes()
      requires Valid()
      modifies this
      ensures Valid() && Content() == PruneExcluded(old(Content()))
    {
      ghost var view := View(says);
      ghost var f0 := shape;
      RemoveMembers(EXTENSIONS);
      ghost var f1 := shape;
      RemoveMembers(SIGNATURES);
      ghost var f2 := shape;
      RemoveMembers(QR_REFERENCES);
      ContentOfPruned(view, EXTENSIONS, f0);
      ContentOfPruned(view, SIGNATURES, f1);
      ContentOfPruned(view, QR_REFERENCES, f2);
      ThreePassesAreOne(ContentOf(view, f0));
    }
  }

  /** The verifier prunes a clone: its content is the hash input, and the original is untouched. */
  method UnsignedCopy(document: XmlDocument) returns (copy: XmlDocument)
    requires document.Valid()
    ensures fresh(copy) && copy.Valid() && copy.Content() == PruneExcluded(document.Content())
    ensures unchanged(document)
  {
    copy := new XmlDocument.Clone(document);
    copy.RemoveExcludedNodes();
  }
}
