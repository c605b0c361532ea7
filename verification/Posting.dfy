/** The journal lines that documents, payments, refunds and settlements post. */
module Posting {
  import opened Sums

  /** Amounts are in units of 0.0001, the precision of every money column. */
  type Money = nat

  /** The subledger: customers against account 120, or suppliers against account 210. */
  datatype Side = Receivable | Payable

  /**
   * The chart of accounts as far as posting looks at it: the control account of the side, its
   * VAT account (220 or 230), the realized-FX accounts, other assets, and everything else.
   */
  datatype Account = Control | Vat | FxGain | FxLoss | Asset(id: nat) | Ordinary(id: nat)

  /** The guard "active posting ASSET account" on paid-through and refund accounts. */
  predicate MayHoldCash(side: Side, a: Account) {
    a.Asset? || (side == Receivable && a == Control) || (side == Payable && a == Vat)
  }

  datatype Line = Line(account: Account, debit: Money, credit: Money)

  function DebitOf(): Line -> int {
    (l: Line) => l.debit
  }

  function CreditOf(): Line -> int {
    (l: Line) => l.credit
  }

  /** What a line adds to account `a`, counted the way the side's control account is: debits up for receivables, credits up for payables. */
  function Effect(side: Side, a: Account): Line -> int {
    (l: Line) => if l.account != a then 0 else if side == Receivable then l.debit - l.credit else l.credit - l.debit
  }

  function Net(side: Side, a: Account, lines: seq<Line>): int {
    SumOf(lines, Effect(side, a))
  }

  predicate Balanced(lines: seq<Line>) {
    SumOf(lines, DebitOf()) == SumOf(lines, CreditOf())
  }

  /** `assertBalancedJournal`: at least two lines, each one-sided and not zero, and balanced. */
  predicate Postable(lines: seq<Line>) {
    && |lines| >= 2
    && (forall i :: 0 <= i < |lines| ==> (lines[i].debit > 0) != (lines[i].credit > 0))
    && Balanced(lines)
  }

  /** `createReversalLines`. */
  function Reversed(lines: seq<Line>): seq<Line> {
    seq(|lines|, i requires 0 <= i < |lines| => Line(lines[i].account, lines[i].credit, lines[i].debit))
  }

  lemma {:induction false} ReversalCancels(side: Side, a: Account, lines: seq<Line>)
    ensures Net(side, a, Reversed(lines)) == -Net(side, a, lines)
    ensures SumOf(Reversed(lines), DebitOf()) == SumOf(lines, CreditOf())
    ensures SumOf(Reversed(lines), CreditOf()) == SumOf(lines, DebitOf())
  {
    if lines != [] {
      var n := |lines| - 1;
      ReversalCancels(side, a, lines[..n]);
      assert Reversed(lines)[..n] == Reversed(lines[..n]);
    }
  }

  lemma ReversalIsPostable(lines: seq<Line>)
    requires Postable(lines)
    ensures Postable(Reversed(lines)) && Reversed(Reversed(lines)) == lines
  {
    ReversalCancels(Receivable, Control, lines);
  }

  /** A document line: what it charges to its account, and the tax on it. */
  datatype DocumentLine = DocumentLine(account: Account, taxable: Money, tax: Money)

  function LineTotal(): DocumentLine -> int {
    (l: DocumentLine) => l.taxable + l.tax
  }

  function LineTax(): DocumentLine -> int {
    (l: DocumentLine) => l.tax
  }

  function LineTaxable(): DocumentLine -> int {
    (l: DocumentLine) => l.taxable
  }

  function TaxableOn(a: Account): DocumentLine -> int {
    (l: DocumentLine) => if l.account == a then l.taxable else 0
  }

  function Total(lines: seq<DocumentLine>): (total: Money) {
    TotalsAdd(lines);
    SumOf(lines, LineTotal())
  }

  function TaxTotal(lines: seq<DocumentLine>): (tax: Money) {
    TotalsAdd(lines);
    SumOf(lines, LineTax())
  }

  lemma {:induction false} TotalsAdd(lines: seq<DocumentLine>)
    ensures SumOf(lines, LineTotal()) == SumOf(lines, LineTaxable()) + SumOf(lines, LineTax())
    ensures SumOf(lines, LineTaxable()) >= 0 && SumOf(lines, LineTax()) >= 0
  {
    if lines != [] {
      TotalsAdd(lines[..|lines| - 1]);
    }
  }

  /** One entry of the map that groups taxable amounts by account, in insertion order. */
  datatype Group = Group(account: Account, amount: Money)

  function AmountOf(): Group -> int {
    (g: Group) => g.amount
  }

  function AmountOn(a: Account): Group -> int {
    (g: Group) => if g.account == a then g.amount else 0
  }

  predicate OnePerAccount(groups: seq<Group>) {
    forall i, j :: 0 <= i < j < |groups| ==> groups[i].account != groups[j].account
  }

  /** `map.get(account)` or a new entry: the loop body of every journal builder. */
  function AddToGroup(groups: seq<Group>, a: Account, amount: Money): seq<Group> {
    if groups == [] then [Group(a, amount)]
    else if groups[0].account == a then [groups[0].(amount := groups[0].amount + amount)] + groups[1..]
    else [groups[0]] + AddToGroup(groups[1..], a, amount)
  }

  function Grouped(lines: seq<DocumentLine>): seq<Group> {
    if lines == [] then []
    else AddToGroup(Grouped(lines[..|lines| - 1]), lines[|lines| - 1].account, lines[|lines| - 1].taxable)
  }

  /** The lines of the groups and the VAT line, on the debit or on the credit side; zero amounts are left out. */
  function BodyLine(debit: bool, a: Account, amount: Money): seq<Line> {
    if amount == 0 then [] else [if debit then Line(a, amount, 0) else Line(a, 0, amount)]
  }

  function GroupLines(debit: bool, groups: seq<Group>): seq<Line> {
    if groups == [] then []
    else GroupLines(debit, groups[..|groups| - 1]) + BodyLine(debit, groups[|groups| - 1].account, groups[|groups| - 1].amount)
  }

  function Body(debit: bool, lines: seq<DocumentLine>): seq<Line> {
    GroupLines(debit, Grouped(lines)) + BodyLine(debit, Vat, TaxTotal(lines))
  }

  /** Debit lines come before credit lines in every builder. */
  function WithControl(controlOnDebit: bool, total: Money, body: seq<Line>): seq<Line> {
    if controlOnDebit then [Line(Control, total, 0)] + body else body + [Line(Control, 0, total)]
  }

  /** What finalizing an invoice or a bill posts. */
  function DocumentEntry(side: Side, lines: seq<DocumentLine>): seq<Line> {
    WithControl(side == Receivable, Total(lines), Body(side == Payable, lines))
  }

  /** What finalizing a credit note or a debit note posts. */
  function NoteEntry(side: Side, lines: seq<DocumentLine>): seq<Line> {
    WithControl(side == Payable, Total(lines), Body(side == Receivable, lines))
  }

  lemma {:induction false} AddToGroupAdds(groups: seq<Group>, a: Account, amount: Money, value: Group -> int)
    requires value == AmountOf() || exists b :: value == AmountOn(b)
    ensures SumOf(AddToGroup(groups, a, amount), value) == SumOf(groups, value) + value(Group(a, amount))
  {
    if groups == [] {
      assert AddToGroup(groups, a, amount) == [] + [Group(a, amount)];
      SumOfParts([], [Group(a, amount)], value);
    } else {
      var rest := if groups[0].account == a then groups[1..] else AddToGroup(groups[1..], a, amount);
      var head := if groups[0].account == a then groups[0].(amount := groups[0].amount + amount) else groups[0];
      assert groups == [groups[0]] + groups[1..];
      SumOfParts([groups[0]], groups[1..], value);
      SumOfParts([head], rest, value);
      AddToGroupAdds(groups[1..], a, amount, value);
    }
  }

  /** Grouping loses nothing: each account gets the taxable amounts of its lines, and all of them add up. */
  lemma {:induction false} GroupedAmounts(lines: seq<DocumentLine>, a: Account)
    ensures SumOf(Grouped(lines), AmountOn(a)) == SumOf(lines, TaxableOn(a))
    ensures SumOf(Grouped(lines), AmountOf()) == SumOf(lines, LineTaxable())
  {
    if lines != [] {
      var n := |lines| - 1;
      GroupedAmounts(lines[..n], a);
      AddToGroupAdds(Grouped(lines[..n]), lines[n].account, lines[n].taxable, AmountOn(a));
      AddToGroupAdds(Grouped(lines[..n]), lines[n].account, lines[n].taxable, AmountOf());
    }
  }

  lemma {:induction false} GroupedOnce(lines: seq<DocumentLine>)
    ensures OnePerAccount(Grouped(lines))
    ensures forall g :: g in Grouped(lines) ==> exists l :: l in lines && l.account == g.account
  {
    if lines != [] {
      var n := |lines| - 1;
      GroupedOnce(lines[..n]);
      AddedOnce(Grouped(lines[..n]), lines[n].account, lines[n].taxable);
      forall g | g in Grouped(lines)
        ensures exists l :: l in lines && l.account == g.account
      {
        if exists h :: h in Grouped(lines[..n]) && h.account == g.account {
          var h :| h in Grouped(lines[..n]) && h.account == g.account;
          var l :| l in lines[..n] && l.account == h.account;
          assert l in lines;
        } else {
          assert lines[n] in lines;
        }
      }
    }
  }

  lemma {:induction false} AddedOnce(groups: seq<Group>, a: Account, amount: Money)
    requires OnePerAccount(groups)
    ensures OnePerAccount(AddToGroup(groups, a, amount))
    ensures forall g :: g in AddToGroup(groups, a, amount) ==> g.account == a || g in groups
  {
    if groups != [] {
      AddedOnce(groups[1..], a, amount);
    }
  }

  function AccountsOf(groups: seq<Group>): seq<Account> {
    seq(|groups|, i requires 0 <= i < |groups| => groups[i].account)
  }

  lemma {:induction false} AddedAtTheEnd(groups: seq<Group>, a: Account, amount: Money)
    ensures AccountsOf(groups) <= AccountsOf(AddToGroup(groups, a, amount))
  {
    if groups != [] {
      AddedAtTheEnd(groups[1..], a, amount);
      assert AccountsOf(groups) == [groups[0].account] + AccountsOf(groups[1..]);
      assert AccountsOf([groups[0]] + AddToGroup(groups[1..], a, amount)) == [groups[0].account] + AccountsOf(AddToGroup(groups[1..], a, amount));
    }
  }

  /** Groups stand in the order in which their accounts first occur. */
  lemma {:induction false} GroupedInOrder(lines: seq<DocumentLine>, k: nat)
    requires k <= |lines|
    ensures AccountsOf(Grouped(lines[..k])) <= AccountsOf(Grouped(lines))
  {
    if k < |lines| {
      var n := |lines| - 1;
      GroupedInOrder(lines[..n], k);
      assert lines[..n][..k] == lines[..k];
      AddedAtTheEnd(Grouped(lines[..n]), lines[n].account, lines[n].taxable);
    } else {
      assert lines[..k] == lines;
    }
  }

  lemma {:induction false} GroupLinesOnce(debit: bool, groups: seq<Group>)
    requires OnePerAccount(groups)
    ensures forall l :: l in GroupLines(debit, groups) ==> exists g :: g in groups && g.account == l.account
    ensures forall i, j :: 0 <= i < j < |GroupLines(debit, groups)| ==> GroupLines(debit, groups)[i].account != GroupLines(debit, groups)[j].account
  {
    if groups != [] {
      var n := |groups| - 1;
      GroupLinesOnce(debit, groups[..n]);
      var before := GroupLines(debit, groups[..n]);
      assert groups == groups[..n] + [groups[n]];
      forall l | l in before
        ensures l.account != groups[n].account
      {
        var g :| g in groups[..n] && g.account == l.account;
      }
    }
  }

  /** An account other than the VAT account has one line in the entry's body at most, however many of the document's lines it has. */
  lemma BodyLinesOnce(debit: bool, lines: seq<DocumentLine>)
    ensures var body := Body(debit, lines);
            forall i, j :: 0 <= i < j < |body| && body[i].account == body[j].account ==> body[i].account == Vat
  {
    GroupedOnce(lines);
    GroupLinesOnce(debit, Grouped(lines));
    hide Grouped, GroupLines;
  }

  lemma {:induction false} GroupLineSums(debit: bool, groups: seq<Group>, side: Side, a: Account)
    ensures SumOf(GroupLines(debit, groups), if debit then DebitOf() else CreditOf()) == SumOf(groups, AmountOf())
    ensures SumOf(GroupLines(debit, groups), if debit then CreditOf() else DebitOf()) == 0
    ensures Net(side, a, GroupLines(debit, groups))
         == if debit == (side == Receivable) then SumOf(groups, AmountOn(a)) else -SumOf(groups, AmountOn(a))
    ensures forall i :: 0 <= i < |GroupLines(debit, groups)| ==> OneSided(debit, GroupLines(debit, groups)[i])
  {
    if groups != [] {
      var n := |groups| - 1;
      GroupLineSums(debit, groups[..n], side, a);
      var before, last := GroupLines(debit, groups[..n]), BodyLine(debit, groups[n].account, groups[n].amount);
      BodyLineSums(debit, groups[n], side, a);
      SumOfParts(before, last, DebitOf());
      SumOfParts(before, last, CreditOf());
      SumOfParts(before, last, Effect(side, a));
      hide BodyLine, Effect, DebitOf, CreditOf;
      assert GroupLines(debit, groups) == before + last;
    }
  }

  lemma BodyLineSums(debit: bool, g: Group, side: Side, a: Account)
    ensures var line := BodyLine(debit, g.account, g.amount);
            && SumOf(line, if debit then DebitOf() else CreditOf()) == g.amount
            && SumOf(line, if debit then CreditOf() else DebitOf()) == 0
            && SumOf(line, Effect(side, a)) == (if debit == (side == Receivable) then AmountOn(a)(g) else -AmountOn(a)(g))
            && forall i :: 0 <= i < |line| ==> OneSided(debit, line[i])
  {
  }

  predicate OneSided(debit: bool, l: Line) {
    if debit then l.debit > 0 && l.credit == 0 else l.debit == 0 && l.credit > 0
  }

  /** The body holds every line's taxable amount under its account and the tax under VAT, all on one side. */
  lemma BodySums(debit: bool, lines: seq<DocumentLine>, side: Side, a: Account)
    ensures SumOf(Body(debit, lines), if debit then DebitOf() else CreditOf()) == Total(lines)
    ensures SumOf(Body(debit, lines), if debit then CreditOf() else DebitOf()) == 0
    ensures var amount := SumOf(lines, TaxableOn(a)) + if a == Vat then TaxTotal(lines) else 0;
            Net(side, a, Body(debit, lines)) == if debit == (side == Receivable) then amount else -amount
    ensures forall i :: 0 <= i < |Body(debit, lines)| ==> OneSided(debit, Body(debit, lines)[i])
  {
    var tax := BodyLine(debit, Vat, TaxTotal(lines));
    TotalsAdd(lines);
    GroupedAmounts(lines, a);
    GroupLineSums(debit, Grouped(lines), side, a);
    SumOfParts(GroupLines(debit, Grouped(lines)), tax, DebitOf());
    SumOfParts(GroupLines(debit, Grouped(lines)), tax, CreditOf());
    SumOfParts(GroupLines(debit, Grouped(lines)), tax, Effect(side, a));
    BodyLineSums(debit, Group(Vat, TaxTotal(lines)), side, a);
    hide GroupLines, Grouped, BodyLine;
  }

  /** What the side's books gain on account `a` when a document is finalized. */
  function DocumentEffect(lines: seq<DocumentLine>, a: Account): int {
    (if a == Control then Total(lines) else 0)
    - SumOf(lines, TaxableOn(a)) - (if a == Vat then TaxTotal(lines) else 0)
  }

  /** The finalization journal balances, is accepted, and charges each account exactly its share. */
  lemma DocumentEntryIsRight(side: Side, lines: seq<DocumentLine>, a: Account)
    requires Total(lines) > 0
    ensures Postable(DocumentEntry(side, lines))
    ensures Net(side, a, DocumentEntry(side, lines)) == DocumentEffect(lines, a)
  {
    WithControlIsRight(side == Receivable, side == Payable, lines, side, a);
  }

  /** A credit or debit note posts the mirror image of a document with the same lines. */
  lemma NoteEntryIsMirrored(side: Side, lines: seq<DocumentLine>, a: Account)
    requires Total(lines) > 0
    ensures Postable(NoteEntry(side, lines))
    ensures Net(side, a, NoteEntry(side, lines)) == -DocumentEffect(lines, a)
  {
    WithControlIsRight(side == Payable, side == Receivable, lines, side, a);
  }

  /** Debit lines followed by credit lines of the same total are accepted. */
  lemma DebitsThenCredits(debits: seq<Line>, credits: seq<Line>, total: nat)
    requires total > 0
    requires forall i :: 0 <= i < |debits| ==> OneSided(true, debits[i])
    requires forall i :: 0 <= i < |credits| ==> OneSided(false, credits[i])
    requires SumOf(debits, DebitOf()) == total == SumOf(credits, CreditOf())
    requires SumOf(debits, CreditOf()) == 0 == SumOf(credits, DebitOf())
    ensures Postable(debits + credits)
  {
    SumOfParts(debits, credits, DebitOf());
    SumOfParts(debits, credits, CreditOf());
  }

  lemma SumOne<T>(x: T, value: T -> int)
    ensures SumOf([x], value) == value(x)
  {
  }

  lemma WithControlIsRight(controlOnDebit: bool, bodyOnDebit: bool, lines: seq<DocumentLine>, side: Side, a: Account)
    requires Total(lines) > 0 && controlOnDebit == !bodyOnDebit
    ensures var entry := WithControl(controlOnDebit, Total(lines), Body(bodyOnDebit, lines));
            && Postable(entry)
            && Net(side, a, entry) == if controlOnDebit == (side == Receivable) then DocumentEffect(lines, a) else -DocumentEffect(lines, a)
  {
    hide Body, Total, TaxTotal;
    var total := Total(lines);
    var body := Body(bodyOnDebit, lines);
    var control := if controlOnDebit then Line(Control, total, 0) else Line(Control, 0, total);
    BodySums(bodyOnDebit, lines, side, a);
    SumOne(control, DebitOf());
    SumOne(control, CreditOf());
    SumOne(control, Effect(side, a));
    if controlOnDebit {
      DebitsThenCredits([control], body, total);
      SumOfParts([control], body, Effect(side, a));
    } else {
      DebitsThenCredits(body, [control], total);
      SumOfParts(body, [control], Effect(side, a));
    }
  }

  // ---- bills in inventory-clearing mode

  /** The tracked lines of a bill are charged to the clearing account instead of their own. */
  function Redirected(lines: seq<DocumentLine>, tracked: seq<bool>, clearing: Account): seq<DocumentLine>
    requires |tracked| == |lines|
  {
    seq(|lines|, i requires 0 <= i < |lines| => if tracked[i] then lines[i].(account := clearing) else lines[i])
  }

  function TaxableWhere(lines: seq<DocumentLine>, tracked: seq<bool>, which: bool, a: Account): int
    requires |tracked| == |lines|
  {
    if lines == [] then 0 else
    var n := |lines| - 1;
    TaxableWhere(lines[..n], tracked[..n], which, a) + if tracked[n] == which && (which || lines[n].account == a) then lines[n].taxable else 0
  }

  /** Redirection keeps the total and the tax, and moves exactly the tracked amounts to the clearing account. */
  lemma {:induction false} RedirectionMoves(lines: seq<DocumentLine>, tracked: seq<bool>, clearing: Account, a: Account)
    requires |tracked| == |lines|
    ensures var r := Redirected(lines, tracked, clearing);
            && Total(r) == Total(lines) && TaxTotal(r) == TaxTotal(lines)
            && SumOf(r, TaxableOn(a)) == TaxableWhere(lines, tracked, false, a) + if a == clearing then TaxableWhere(lines, tracked, true, a) else 0
  {
    if lines != [] {
      var n := |lines| - 1;
      RedirectionMoves(lines[..n], tracked[..n], clearing, a);
      assert Redirected(lines, tracked, clearing)[..n] == Redirected(lines[..n], tracked[..n], clearing);
    }
  }

  /** So the redirected bill posts a balanced entry too, and the clearing account holds the tracked lines. */
  lemma RedirectedEntryIsRight(lines: seq<DocumentLine>, tracked: seq<bool>, clearing: Account)
    requires |tracked| == |lines| && Total(lines) > 0 && clearing != Control && clearing != Vat
    ensures var entry := DocumentEntry(Payable, Redirected(lines, tracked, clearing));
            && Postable(entry)
            && Net(Payable, clearing, entry) == -TaxableWhere(lines, tracked, false, clearing) - TaxableWhere(lines, tracked, true, clearing)
            && (TaxableWhere(lines, tracked, false, Control) == 0 ==> Net(Payable, Control, entry) == Total(lines))
  {
    var r := Redirected(lines, tracked, clearing);
    RedirectionMoves(lines, tracked, clearing, clearing);
    RedirectionMoves(lines, tracked, clearing, Control);
    DocumentEntryIsRight(Payable, r, clearing);
    DocumentEntryIsRight(Payable, r, Control);
  }
}
