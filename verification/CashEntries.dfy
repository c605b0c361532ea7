/** What payments, refunds and settlement adjustments post, and how a payment moves its documents. */
module CashEntries {
  import opened Wrappers
  import opened Sums
  import opened Posting
  import opened Books
  import opened BooksInvariant

  lemma {:induction false} ControlAmountSums(direct: seq<Direct>, a: Account)
    ensures SumOf(ControlAmounts(direct), AmountOf()) == SumOf(direct, DirectAmount())
    ensures SumOf(ControlAmounts(direct), AmountOn(a)) == if a == Control then SumOf(direct, DirectAmount()) else 0
  {
    if direct != [] {
      ControlAmountSums(direct[..|direct| - 1], a);
      assert ControlAmounts(direct)[..|direct| - 1] == ControlAmounts(direct[..|direct| - 1]);
    }
  }

  lemma ControlPartSums(debit: bool, p: Payment, side: Side, a: Account)
    requires SumOf(p.direct, DirectAmount()) <= p.received
    ensures SumOf(ControlPart(debit, p), if debit then DebitOf() else CreditOf()) == p.received
    ensures SumOf(ControlPart(debit, p), if debit then CreditOf() else DebitOf()) == 0
    ensures var amount: int := if a == Control then p.received else 0;
            Net(side, a, ControlPart(debit, p)) == if debit == (side == Receivable) then amount else -amount
    ensures forall i :: 0 <= i < |ControlPart(debit, p)| ==> OneSided(debit, ControlPart(debit, p)[i])
  {
    var lines := DirectLines(debit, p.direct);
    var rest := BodyLine(debit, Control, DirectRest(p));
    ControlAmountSums(p.direct, a);
    GroupLineSums(debit, ControlAmounts(p.direct), side, a);
    hide GroupLines, ControlAmounts;
    SumOfParts(lines, rest, DebitOf());
    SumOfParts(lines, rest, CreditOf());
    SumOfParts(lines, rest, Effect(side, a));
  }

  lemma {:induction false} AllGroupLines(debit: bool, groups: seq<Group>)
    requires forall i :: 0 <= i < |groups| ==> groups[i].amount > 0
    ensures |GroupLines(debit, groups)| == |groups|
    ensures forall i :: 0 <= i < |groups| ==>
              GroupLines(debit, groups)[i] == if debit then Line(groups[i].account, groups[i].amount, 0) else Line(groups[i].account, 0, groups[i].amount)
  {
    if groups != [] {
      AllGroupLines(debit, groups[..|groups| - 1]);
    }
  }

  /** A payment's entry has the cash line, a control-account line for every allocation, in order, and one for the rest if there is one. */
  lemma PaymentEntryLines(side: Side, p: Payment)
    requires forall k :: 0 <= k < |p.direct| ==> p.direct[k].amount > 0
    requires SumOf(p.direct, DirectAmount()) <= p.received
    ensures var entry, rest := PaymentEntry(side, p), p.received - SumOf(p.direct, DirectAmount());
            && |entry| == |p.direct| + 1 + (if rest > 0 then 1 else 0)
            && (side == Receivable ==> entry[0] == Line(p.account, p.received, 0))
            && (side == Payable ==> entry[|entry| - 1] == Line(p.account, 0, p.received))
            && forall k :: 0 <= k < |p.direct| ==>
                 if side == Receivable then entry[k + 1] == Line(Control, 0, p.direct[k].amount) else entry[k] == Line(Control, p.direct[k].amount, 0)
  {
    AllGroupLines(side == Payable, ControlAmounts(p.direct));
    hide SumOf, GroupLines;
  }

  /** A payment takes its amount from the control account and puts it on the cash account. */
  lemma PaymentEntryIsRight(side: Side, p: Payment, a: Account)
    requires p.received > 0 && SumOf(p.direct, DirectAmount()) <= p.received
    ensures Postable(PaymentEntry(side, p))
    ensures Net(side, a, PaymentEntry(side, p)) == (if a == p.account then p.received else 0) - (if a == Control then p.received else 0)
  {
    var debit := side == Payable;
    ControlPartSums(debit, p, side, a);
    hide ControlPart, DirectRest, Postable;
    CashPosts(!debit, p.account, p.received, ControlPart(debit, p));
    CashMoves(side, p.account, p.received, ControlPart(debit, p), a);
    hide WithCash, Net;
  }

  /** With the cash on one side and as much on the other, the entry is accepted. */
  lemma CashPosts(cashOnDebit: bool, account: Account, amount: Money, others: seq<Line>)
    requires amount > 0 && forall i :: 0 <= i < |others| ==> OneSided(!cashOnDebit, others[i])
    requires SumOf(others, if cashOnDebit then CreditOf() else DebitOf()) == amount
    requires SumOf(others, if cashOnDebit then DebitOf() else CreditOf()) == 0
    ensures Postable(WithCash(cashOnDebit, account, amount, others))
  {
    var cash := if cashOnDebit then Line(account, amount, 0) else Line(account, 0, amount);
    SumOne(cash, DebitOf());
    SumOne(cash, CreditOf());
    hide Postable, SumOf;
    if cashOnDebit {
      DebitsThenCredits([cash], others, amount);
    } else {
      DebitsThenCredits(others, [cash], amount);
    }
  }

  lemma CashMoves(side: Side, account: Account, amount: Money, others: seq<Line>, a: Account)
    ensures Net(side, a, WithCash(side == Receivable, account, amount, others)) == Net(side, a, others) + if a == account then amount else 0
  {
    var cash := if side == Receivable then Line(account, amount, 0) else Line(account, 0, amount);
    SumOne(cash, Effect(side, a));
    SumOfParts([cash], others, Effect(side, a));
    SumOfParts(others, [cash], Effect(side, a));
    hide SumOf;
  }

  lemma TwoLines(x: Line, y: Line, value: Line -> int)
    ensures SumOf([x, y], value) == value(x) + value(y)
  {
    SumOne(x, value);
    assert [x, y][..1] == [x];
  }

  lemma RefundEntryIsRight(side: Side, account: Account, amount: Money, a: Account)
    requires amount > 0
    ensures Postable(RefundEntry(side, account, amount))
    ensures Net(side, a, RefundEntry(side, account, amount)) == (if a == Control then amount else 0) - (if a == account then amount else 0)
  {
    var lines := RefundEntry(side, account, amount);
    TwoLines(lines[0], lines[1], DebitOf());
    TwoLines(lines[0], lines[1], CreditOf());
    TwoLines(lines[0], lines[1], Effect(side, a));
  }

  /**
   * An adjustment moves the control account by what was taken beyond what was settled, against the gain
   * account when a customer gave more than the document had left or a supplier got less, and the loss
   * account otherwise.
   */
  lemma AdjustmentEntryIsRight(side: Side, excess: int, a: Account)
    requires excess != 0
    ensures Postable(AdjustmentEntry(side, excess))
    ensures Net(side, a, AdjustmentEntry(side, excess))
         == (if a == Control then excess else 0)
            - (if a == FxGain && (if side == Receivable then excess > 0 else excess < 0) then excess else 0)
            - (if a == FxLoss && (if side == Receivable then excess < 0 else excess > 0) then excess else 0)
  {
    var lines := AdjustmentEntry(side, excess);
    TwoLines(lines[0], lines[1], DebitOf());
    TwoLines(lines[0], lines[1], CreditOf());
    TwoLines(lines[0], lines[1], Effect(side, a));
  }

  // ---- how a payment moves its documents

  lemma {:induction false} AllocatedAt(documents: seq<Document>, direct: seq<Direct>, sign: int, i: nat)
    requires i < |documents|
    ensures Allocated(documents, direct, sign)[i] == documents[i].(
              balance := documents[i].balance + sign * SumOf(direct, OnTarget(i)),
              txBalance := documents[i].txBalance + sign * SumOf(direct, OnTarget(i)))
  {
    if direct != [] {
      AllocatedAt(documents, direct[..|direct| - 1], sign, i);
    }
  }

  /** Nothing but the balances moves. */
  lemma AllocatedUnseen(documents: seq<Document>, direct: seq<Direct>, sign: int)
    ensures forall side, a :: SumOf(Allocated(documents, direct, sign), LiveDocument(side, a)) == SumOf(documents, LiveDocument(side, a))
    ensures forall who :: SumOf(Allocated(documents, direct, sign), Billed(who)) == SumOf(documents, Billed(who))
  {
    var after := Allocated(documents, direct, sign);
    forall i | 0 <= i < |documents|
      ensures after[i].status == documents[i].status && after[i].lines == documents[i].lines && after[i].contact == documents[i].contact
    {
      AllocatedAt(documents, direct, sign, i);
    }
    forall side, a
      ensures SumOf(after, LiveDocument(side, a)) == SumOf(documents, LiveDocument(side, a))
    {
      SumUnseen(documents, after, LiveDocument(side, a));
    }
    forall who
      ensures SumOf(after, Billed(who)) == SumOf(documents, Billed(who))
    {
      SumUnseen(documents, after, Billed(who));
    }
  }

  lemma {:induction false} AllocatedOpenBalance(documents: seq<Document>, direct: seq<Direct>, sign: int, contact: nat, who: Option<nat>)
    requires sign == 1 || sign == -1
    requires forall k :: 0 <= k < |direct| ==>
               && direct[k].document < |documents|
               && documents[direct[k].document].status == Finalized && documents[direct[k].document].contact == contact
    ensures SumOf(Allocated(documents, direct, sign), OpenBalance(who))
         == SumOf(documents, OpenBalance(who)) + if Concerns(who, contact) then sign * SumOf(direct, DirectAmount()) else 0
  {
    if direct != [] {
      var n := |direct| - 1;
      var before := Allocated(documents, direct[..n], sign);
      AllocatedOpenBalance(documents, direct[..n], sign, contact, who);
      AllocatedAt(documents, direct[..n], sign, direct[n].document);
      SumUpdate(before, direct[n].document, Allocated(documents, direct, sign)[direct[n].document]);
    }
  }

  /** With each document named once, the sum on one document is one allocation. */
  lemma {:induction false} OneTarget(direct: seq<Direct>, i: nat, most: int)
    requires DistinctDocuments(direct) && most >= 0
    requires forall k :: 0 <= k < |direct| && direct[k].document == i ==> direct[k].amount <= most
    ensures SumOf(direct, OnTarget(i)) <= most
  {
    if direct != [] {
      var n := |direct| - 1;
      OneTarget(direct[..n], i, most);
      if direct[n].document == i {
        SumZero(direct[..n], OnTarget(i));
      }
    }
  }

  /** An accepted plan takes a positive amount from each document, and never more than its base balance. */
  lemma {:induction false} PlanCovers(documents: seq<Document>, direct: seq<Direct>, openTx: int, openBase: int)
    requires forall k :: 0 <= k < |direct| ==> direct[k].document < |documents|
    requires PlanPostable(documents, direct, openTx, openBase)
    ensures forall k :: 0 <= k < |direct| ==> 0 < direct[k].amount <= documents[direct[k].document].balance
  {
    if direct != [] {
      var d := documents[direct[0].document];
      PlanCovers(documents, direct[1..], openTx - direct[0].amount,
                 openBase - Allocate(direct[0].amount, d.txBalance, d.balance, openTx, openBase).onPayment);
      forall k | 0 <= k < |direct|
        ensures 0 < direct[k].amount <= documents[direct[k].document].balance
      {
        if k > 0 {
          assert direct[k] == direct[1..][k - 1];
        }
      }
    }
  }
}
