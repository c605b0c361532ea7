/**
 * Why walking a live node list backwards while removing its members is safe. A list is live:
 * it is the current tree's matching elements in document order (section 1.1.1 of W3C DOM Level 3
 * Core). These are the facts about trees; `Dom` has the objects and the loops.
 */
module LiveList {
  import opened Xml

  /** The nodes of the siblings and of everything below them. */
  ghost function Nodes<N>(f: Forest<N>): set<N> {
    match f
    case Nil => {}
    case Cons(n, k, r) => {n} + Nodes(k) + Nodes(r)
  }

  ghost predicate Distinct<N>(f: Forest<N>) {
    match f
    case Nil => true
    case Cons(n, k, r) =>
      && n !in Nodes(k) && n !in Nodes(r) && Nodes(k) !! Nodes(r)
      && Distinct(k) && Distinct(r)
  }

  /** The members of the live list for a rule's element name, in document order. */
  function Live<N>(view: N -> Label, rule: Rule, f: Forest<N>): seq<N> {
    match f
    case Nil => []
    case Cons(n, k, r) =>
      (if rule.Selects(view(n)) then [n] else []) + Live(view, rule, k) + Live(view, rule, r)
  }

  lemma {:induction false} MemberIsNode<N>(view: N -> Label, rule: Rule, f: Forest<N>, i: nat)
    requires i < |Live(view, rule, f)|
    ensures Live(view, rule, f)[i] in Nodes(f) && rule.Selects(view(Live(view, rule, f)[i]))
  {
    match f
    case Cons(n, k, r) =>
      var below := (if rule.Selects(view(n)) then 1 else 0);
      var before := below + |Live(view, rule, k)|;
      if i >= before {
        MemberIsNode(view, rule, r, i - before);
      } else if i >= below {
        MemberIsNode(view, rule, k, i - below);
      }
  }

  /** The siblings with node `x` and its subtree taken out. */
  ghost function Cut<N>(f: Forest<N>, x: N): Forest<N> {
    match f
    case Nil => Nil
    case Cons(n, k, r) => if n == x then r else Cons(n, Cut(k, x), Cut(r, x))
  }

  /** The children of node `x`. */
  ghost function KidsOf<N>(f: Forest<N>, x: N): (kids: Forest<N>)
    requires x in Nodes(f)
  {
    match f
    case Cons(n, k, r) => if n == x then k else if x in Nodes(k) then KidsOf(k, x) else KidsOf(r, x)
  }

  /** The tree once the members with index `from` and above have been visited. */
  ghost function PruneFrom<N>(view: N -> Label, rule: Rule, f: Forest<N>, from: nat): Forest<N> {
    match f
    case Nil => Nil
    case Cons(n, k, r) =>
      var below := (if rule.Selects(view(n)) then 1 else 0);
      var before := below + |Live(view, rule, k)|;
      if from > before then Cons(n, k, PruneFrom(view, rule, r, from - before))
      else if from >= below then Cons(n, PruneFrom(view, rule, k, from - below), Prune(view, rule, r))
      else Prune(view, rule, f)
  }

  lemma {:induction false} PruneFromEnd<N>(view: N -> Label, rule: Rule, f: Forest<N>)
    ensures PruneFrom(view, rule, f, |Live(view, rule, f)|) == f
  {
    match f
    case Nil =>
    case Cons(n, k, r) =>
      PruneFromEnd(view, rule, k);
      PruneFromEnd(view, rule, r);
      if Live(view, rule, r) == [] {
        NothingToPrune(view, rule, r);
      }
  }

  lemma {:induction false} NothingToPrune<N>(view: N -> Label, rule: Rule, f: Forest<N>)
    requires Live(view, rule, f) == []
    ensures Prune(view, rule, f) == f
  {
    match f
    case Nil =>
    case Cons(n, k, r) =>
      NothingToPrune(view, rule, k);
      NothingToPrune(view, rule, r);
  }

  lemma {:induction false} PruneFromStart<N>(view: N -> Label, rule: Rule, f: Forest<N>)
    ensures PruneFrom(view, rule, f, 0) == Prune(view, rule, f)
  {
    match f
    case Nil =>
    case Cons(n, k, r) =>
      PruneFromStart(view, rule, k);
  }

  lemma {:induction false} PruneKeepsNodes<N>(view: N -> Label, rule: Rule, f: Forest<N>)
    ensures Nodes(Prune(view, rule, f)) <= Nodes(f)
  {
    match f
    case Nil =>
    case Cons(n, k, r) =>
      PruneKeepsNodes(view, rule, k);
      PruneKeepsNodes(view, rule, r);
  }

  lemma {:induction false} PruneFromKeepsNodes<N>(view: N -> Label, rule: Rule, f: Forest<N>, from: nat)
    ensures Nodes(PruneFrom(view, rule, f, from)) <= Nodes(f)
  {
    match f
    case Nil =>
    case Cons(n, k, r) =>
      PruneKeepsNodes(view, rule, f);
      PruneKeepsNodes(view, rule, r);
      forall i: nat { PruneFromKeepsNodes(view, rule, k, i); }
      forall i: nat { PruneFromKeepsNodes(view, rule, r, i); }
  }

  /**
   * When index `from - 1` is visited, the members up to it are still the original ones: whatever
   * was removed before follows them in document order, and so does all that went with it.
   */
  lemma {:induction false} MemberStays<N>(view: N -> Label, rule: Rule, f: Forest<N>, from: nat, i: nat)
    requires i < from <= |Live(view, rule, f)|
    ensures var now := Live(view, rule, PruneFrom(view, rule, f, from));
            i < |now| && now[i] == Live(view, rule, f)[i]
  {
    hide Rule.Dooms, Rule.Selects, Prune;
    match f
    case Cons(n, k, r) =>
      var below := (if rule.Selects(view(n)) then 1 else 0);
      var before := below + |Live(view, rule, k)|;
      if from > before {
        if i >= before {
          MemberStays(view, rule, r, from - before, i - before);
        }
      } else if i >= below {
        MemberStays(view, rule, k, from - below, i - below);
      }
  }

  lemma {:induction false} CutAbsent<N>(f: Forest<N>, x: N)
    requires x !in Nodes(f)
    ensures Cut(f, x) == f
  {
    match f
    case Nil =>
    case Cons(n, k, r) =>
      CutAbsent(k, x);
      CutAbsent(r, x);
  }

  /** Visiting one more member either removes it or leaves the tree alone. */
  lemma {:induction false} VisitMember<N>(view: N -> Label, rule: Rule, f: Forest<N>, from: nat)
    requires Distinct(f) && 0 < from <= |Live(view, rule, f)|
    ensures var x := Live(view, rule, f)[from - 1];
            var now := PruneFrom(view, rule, f, from);
            && x in Nodes(now)
            && PruneFrom(view, rule, f, from - 1) == if rule.Dooms(view, KidsOf(now, x)) then Cut(now, x) else now
    decreases f, 1
  {
    match f
    case Cons(n, k, r) =>
      var below := (if rule.Selects(view(n)) then 1 else 0);
      var lk := Live(view, rule, k);
      var x := Live(view, rule, f)[from - 1];
      if from > below + |lk| + 1 {
        VisitInRest(view, rule, f, from);
      } else if from == below + |lk| + 1 {
        assert x == Live(view, rule, r)[0];
        VisitInRest(view, rule, f, from);
        PruneFromStart(view, rule, r);
        PruneFromEnd(view, rule, k);
      } else if from > below {
        assert x == lk[from - 1 - below];
        MemberIsNode(view, rule, k, from - 1 - below);
        VisitMember(view, rule, k, from - below);
        PruneKeepsNodes(view, rule, r);
        CutAbsent(Prune(view, rule, r), x);
      } else {
        PruneFromStart(view, rule, k);
      }
  }

  lemma {:induction false} VisitInRest<N>(view: N -> Label, rule: Rule, f: Forest<N>, from: nat)
    requires Distinct(f) && f.Cons? && from <= |Live(view, rule, f)|
    requires from > |Live(view, rule, f)| - |Live(view, rule, f.rest)|
    ensures var x := Live(view, rule, f)[from - 1];
            var before := |Live(view, rule, f)| - |Live(view, rule, f.rest)|;
            var now := PruneFrom(view, rule, f, from);
            && x in Nodes(now)
            && (if rule.Dooms(view, KidsOf(now, x)) then Cut(now, x) else now)
               == Cons(f.node, f.kids, PruneFrom(view, rule, f.rest, from - before - 1))
    decreases f, 0
  {
    var before := |Live(view, rule, f)| - |Live(view, rule, f.rest)|;
    var x := Live(view, rule, f)[from - 1];
    assert x == Live(view, rule, f.rest)[from - before - 1];
    MemberIsNode(view, rule, f.rest, from - before - 1);
    VisitMember(view, rule, f.rest, from - before);
    CutAbsent(f.kids, x);
  }
}
