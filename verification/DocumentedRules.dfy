/**
 * The README's rules for applying unapplied credit, and where the services keep them. Payments move
 * a row's base and transaction balances together, while refunds and credit notes move only the base
 * one; the guards of a later application look at the transaction balances.
 */
module DocumentedRules {
  import opened Wrappers
  import opened Sums
  import opened Posting
  import opened Books
  import opened BooksInvariant
  import opened CashEntries
  import opened SettlementCalls
  import opened BooksTheorems
  import opened Reconciliation

  /** The documented conditions: same contact, posted, finalized, a positive amount within both open balances. */
  predicate MayApply(b: Books, p: nat, i: nat, amount: Money) {
    && amount > 0 && p < |b.payments| && i < |b.documents|
    && b.payments[p].posted && b.documents[i].status == Finalized && b.documents[i].contact == b.payments[p].contact
    && amount <= b.payments[p].unapplied && amount <= b.documents[i].balance
  }

  /** The documented outcome: both open balances drop by the amount, and nothing is posted. */
  function AppliedPlainly(b: Books, p: nat, i: nat, amount: Money): Books
    requires p < |b.payments| && i < |b.documents|
  {
    var payment, d := b.payments[p], b.documents[i];
    b.(payments := b.payments[p := payment.(unapplied := payment.unapplied - amount, txUnapplied := payment.txUnapplied - amount)],
       documents := b.documents[i := d.(balance := d.balance - amount, txBalance := d.txBalance - amount)],
       applications := b.applications + [Application(p, payment.contact, i, amount, amount, amount, true, None)])
  }

  /** The call does what the rules say: apply plainly when it may, refuse when it may not. */
  predicate AppliesAsDocumented(b: Books, p: nat, i: nat, amount: Money) {
    ApplyUnapplied(b, p, i, amount) == if MayApply(b, p, i, amount) then Done(AppliedPlainly(b, p, i, amount)) else Refused
  }

  function Min(x: int, y: int): int {
    if x <= y then x else y
  }

  /**
   * When that happens, read off the four open amounts. Within the base balances the amount must also
   * be within the transaction balances, and may close one only if its base balance is the same.
   * Beyond them something must refuse it: a transaction balance, the document's base balance when
   * the amount does not close it, or a missing gain or loss account.
   */
  predicate OpenAmountsAgree(b: Books, p: nat, i: nat, amount: Money)
    requires p < |b.payments| && i < |b.documents|
  {
    var U, txU := b.payments[p].unapplied, b.payments[p].txUnapplied;
    var B, txB := b.documents[i].balance, b.documents[i].txBalance;
    if amount <= U && amount <= B then
      amount <= txU && amount <= txB && (amount == txB ==> B == txB) && (amount == txU ==> U == txU)
    else
      || amount > txU || amount > txB || (amount < txB && amount > B)
      || !AdjustmentConfigured(b, (if amount == txU then U else Min(amount, U)) - (if amount == txB then B else amount))
  }

  lemma DocumentedExactlyWhen(b: Books, p: nat, i: nat, amount: Money)
    requires Inv(b) && amount > 0 && p < |b.payments| && i < |b.documents|
    requires b.payments[p].posted && b.documents[i].status == Finalized && b.documents[i].contact == b.payments[p].contact
    ensures AppliesAsDocumented(b, p, i, amount) <==> OpenAmountsAgree(b, p, i, amount)
  {
    assert PaymentBalances(b.payments[p], p, b.applications, b.refunds, true);
    assert DocumentBalances(b.documents[i], i, b.payments, b.applications, b.uses, true);
    hide Inv, PaymentBalances, DocumentBalances;
    PlainOutcome(b, p, i, amount);
    RefusedOutcome(b, p, i, amount);
    hide ApplyUnapplied, AppliedPlainly;
  }

  /** The call applies plainly when the settlement takes just the amount from both sides. */
  lemma PlainOutcome(b: Books, p: nat, i: nat, amount: Money)
    requires p < |b.payments| && i < |b.documents| && amount > 0
    requires b.payments[p].posted && b.documents[i].status == Finalized && b.documents[i].contact == b.payments[p].contact
    ensures var payment, d := b.payments[p], b.documents[i];
            ApplyUnapplied(b, p, i, amount) == Done(AppliedPlainly(b, p, i, amount))
            <==> Allocate(amount, d.txBalance, d.balance, payment.txUnapplied, payment.unapplied) == Settled(amount, amount)
  {
    var payment, d := b.payments[p], b.documents[i];
    var plain := AppliedPlainly(b, p, i, amount);
    assert plain.applications[|b.applications|].onDocument == amount == plain.applications[|b.applications|].onPayment;
    var s := Allocate(amount, d.txBalance, d.balance, payment.txUnapplied, payment.unapplied);
    if s.Settled? {
      SettledWithin(amount, d.txBalance, d.balance, payment.txUnapplied, payment.unapplied);
      hide Allocate, AdjustmentEntry;
      if ApplyUnapplied(b, p, i, amount).Done? {
        var a := ApplyUnapplied(b, p, i, amount).books.applications[|b.applications|];
        assert a.onDocument == s.onDocument && a.onPayment == s.onPayment;
      }
    }
  }

  /** It is refused by a settlement that does not fit, or for want of a gain or loss account. */
  lemma RefusedOutcome(b: Books, p: nat, i: nat, amount: Money)
    requires p < |b.payments| && i < |b.documents| && amount > 0
    requires b.payments[p].posted && b.documents[i].status == Finalized && b.documents[i].contact == b.payments[p].contact
    ensures var payment, d := b.payments[p], b.documents[i];
            var s := Allocate(amount, d.txBalance, d.balance, payment.txUnapplied, payment.unapplied);
            ApplyUnapplied(b, p, i, amount) == Refused <==> s.SettlementRefused? || !AdjustmentConfigured(b, s.onPayment - s.onDocument)
  {
  }

  // ---- a payment's own allocations

  /** The documented conditions of a payment: distinct finalized invoices of the customer, each allocation within its balance, and all within the payment. */
  predicate MayPay(b: Books, contact: nat, account: Account, received: Money, direct: seq<Direct>) {
    && received > 0 && (b.side == Receivable ==> direct != []) && MayHoldCash(b.side, account)
    && SumOf(direct, DirectAmount()) <= received && DistinctDocuments(direct)
    && forall k :: 0 <= k < |direct| ==>
         && direct[k].amount > 0 && direct[k].document < |b.documents|
         && var d := b.documents[direct[k].document];
           d.contact == contact && d.status == Finalized && direct[k].amount <= d.balance
  }

  /** An allocation settles evenly when the transaction balance covers it too, and is closed only together with the base balance. */
  predicate Even(d: Document, amount: Money) {
    amount <= d.balance && amount <= d.txBalance && (amount == d.txBalance ==> d.balance == d.txBalance)
  }

  predicate AllEven(documents: seq<Document>, direct: seq<Direct>)
    requires forall k :: 0 <= k < |direct| ==> direct[k].document < |documents|
  {
    forall k :: 0 <= k < |direct| ==> Even(documents[direct[k].document], direct[k].amount)
  }

  lemma EvenSettles(d: Document, amount: Money, open: int)
    requires 0 < amount <= open && d.balance >= 0 && d.txBalance >= 0
    ensures var s := Allocate(amount, d.txBalance, d.balance, open, open);
            && (s.Settled? && s.onDocument == amount <==> Even(d, amount))
            && (Even(d, amount) ==> s == Settled(amount, amount))
  {
  }

  lemma AllEvenFromFront(documents: seq<Document>, direct: seq<Direct>)
    requires direct != [] && forall k :: 0 <= k < |direct| ==> direct[k].document < |documents|
    ensures AllEven(documents, direct) <==> Even(documents[direct[0].document], direct[0].amount) && AllEven(documents, direct[1..])
  {
    assert forall k :: 0 < k < |direct| ==> direct[k] == direct[1..][k - 1];
  }

  lemma {:induction false} PlanExactly(documents: seq<Document>, direct: seq<Direct>, open: int)
    requires forall k :: 0 <= k < |direct| ==>
               && direct[k].amount > 0 && direct[k].document < |documents|
               && documents[direct[k].document].balance >= 0 && documents[direct[k].document].txBalance >= 0
    requires SumOf(direct, DirectAmount()) <= open
    ensures PlanPostable(documents, direct, open, open) <==> AllEven(documents, direct)
  {
    if direct != [] {
      var rest := direct[1..];
      assert direct == [direct[0]] + rest;
      SumOfParts([direct[0]], rest, DirectAmount());
      SumOne(direct[0], DirectAmount());
      SumAtLeast(rest, DirectAmount());
      EvenSettles(documents[direct[0].document], direct[0].amount, open);
      AllEvenFromFront(documents, direct);
      hide Allocate, Even, AllEven;
      PlanExactly(documents, rest, open - direct[0].amount);
    }
  }

  /** Allocations of some positive amount to finalized documents. */
  predicate ToFinalized(documents: seq<Document>, direct: seq<Direct>) {
    forall k :: 0 <= k < |direct| ==>
      direct[k].amount > 0 && direct[k].document < |documents| && documents[direct[k].document].status == Finalized
  }

  lemma PlanOfFinalized(b: Books, direct: seq<Direct>, received: Money)
    requires Inv(b) && ToFinalized(b.documents, direct) && SumOf(direct, DirectAmount()) <= received
    ensures PlanPostable(b.documents, direct, received, received) <==> AllEven(b.documents, direct)
  {
    forall k | 0 <= k < |direct|
      ensures b.documents[direct[k].document].balance >= 0 && b.documents[direct[k].document].txBalance >= 0
    {
      assert DocumentBalances(b.documents[direct[k].document], direct[k].document, b.payments, b.applications, b.uses, true);
    }
    hide Inv, PlanPostable, AllEven;
    PlanExactly(b.documents, direct, received);
  }

  /** A documented payment is accepted exactly when its allocations are even; no other payment is. */
  lemma PaymentAcceptedExactlyWhen(b: Books, contact: nat, account: Account, received: Money, direct: seq<Direct>)
    requires Inv(b)
    ensures CreatePayment(b, contact, account, received, direct).Done?
       <==> MayPay(b, contact, account, received, direct) && AllEven(b.documents, direct)
  {
    hide Inv;
    AcceptedByGuards(b, contact, account, received, direct);
    if ToFinalized(b.documents, direct) && SumOf(direct, DirectAmount()) <= received {
      PlanOfFinalized(b, direct, received);
    }
    hide CreatePayment, PlanPostable, DistinctDocuments, DirectAmount, MayHoldCash;
    if CreatePayment(b, contact, account, received, direct).Done? {
      assert ToFinalized(b.documents, direct);
    }
    if MayPay(b, contact, account, received, direct) {
      assert ToFinalized(b.documents, direct);
    }
  }

  lemma AcceptedByGuards(b: Books, contact: nat, account: Account, received: Money, direct: seq<Direct>)
    ensures CreatePayment(b, contact, account, received, direct).Done?
       <==> && received > 0 && (b.side == Receivable ==> direct != []) && MayHoldCash(b.side, account)
            && SumOf(direct, DirectAmount()) <= received
            && ValidDirect(b, contact, direct) && PlanPostable(b.documents, direct, received, received)
  {
    hide Allocated, PaymentEntry, MayHoldCash;
    if ValidDirect(b, contact, direct) && PlanPostable(b.documents, direct, received, received) {
      PlanCovers(b.documents, direct, received, received);
    }
    hide PlanPostable;
  }

  // ---- without refunds and credits the two balances stay together

  ghost predicate InStep(b: Books) {
    && b.uses == [] && b.refunds == []
    && (forall i :: 0 <= i < |b.documents| ==> b.documents[i].balance == b.documents[i].txBalance)
    && (forall p :: 0 <= p < |b.payments| ==> b.payments[p].unapplied == b.payments[p].txUnapplied)
    && (forall k :: 0 <= k < |b.applications| ==> b.applications[k].onDocument == b.applications[k].onPayment == b.applications[k].txAmount)
  }

  /** In step, a settlement takes its amount from both sides. */
  lemma SettlesEvenly(amount: int, documentOpen: int, paymentOpen: int)
    requires 0 < amount <= documentOpen && amount <= paymentOpen
    ensures Allocate(amount, documentOpen, documentOpen, paymentOpen, paymentOpen) == Settled(amount, amount)
  {
  }

  lemma CallKeepsInStep(b: Books, c: Call)
    requires InStep(b) && !c.DoApplyNote? && !c.DoCreateRefund?
    ensures InStep(After(b, c))
  {
    hide Total, PlanPostable, ValidDirect, Restorable, PaymentInUse, NoteInUse, PaidDirectly, PaidLater, Credited, OriginalAccepts,
      DocumentEntry, NoteEntry, PaymentEntry, AdjustmentEntry, Reverse;
    match c
    case DoCreatePayment(contact, account, received, direct) =>
      AllocatedInStep(b.documents, direct, -1);
      hide Allocated;
    case DoVoidPayment(p) =>
      if p < |b.payments| {
        AllocatedInStep(b.documents, b.payments[p].direct, 1);
      }
      hide Allocated;
    case _ =>
  }

  lemma {:induction false} AllocatedInStep(documents: seq<Document>, direct: seq<Direct>, sign: int)
    requires forall i :: 0 <= i < |documents| ==> documents[i].balance == documents[i].txBalance
    ensures forall i :: 0 <= i < |documents| ==> Allocated(documents, direct, sign)[i].balance == Allocated(documents, direct, sign)[i].txBalance
  {
    if direct != [] {
      AllocatedInStep(documents, direct[..|direct| - 1], sign);
    }
  }

  /** So in a run without refunds and credit applications every later application is as documented. */
  lemma {:induction false} DocumentedWithoutRefundsAndCredits(side: Side, gainAccount: bool, lossAccount: bool, calls: seq<Call>, p: nat, i: nat, amount: Money)
    requires forall k :: 0 <= k < |calls| ==> !calls[k].DoApplyNote? && !calls[k].DoCreateRefund?
    ensures InStep(Run(Opened(side, gainAccount, lossAccount), calls))
    ensures AppliesAsDocumented(Run(Opened(side, gainAccount, lossAccount), calls), p, i, amount)
  {
    var b := Run(Opened(side, gainAccount, lossAccount), calls);
    if calls != [] {
      var before := calls[..|calls| - 1];
      DocumentedWithoutRefundsAndCredits(side, gainAccount, lossAccount, before, p, i, amount);
      CallKeepsInStep(Run(Opened(side, gainAccount, lossAccount), before), calls[|calls| - 1]);
    }
    EveryRunKeepsInvariant(side, gainAccount, lossAccount, calls);
    DocumentedInStep(b, p, i, amount);
  }

  lemma DocumentedInStep(b: Books, p: nat, i: nat, amount: Money)
    requires Inv(b) && InStep(b)
    ensures AppliesAsDocumented(b, p, i, amount)
  {
    hide Inv;
    if amount > 0 && p < |b.payments| && i < |b.documents| && b.payments[p].posted && b.documents[i].status == Finalized
       && b.documents[i].contact == b.payments[p].contact {
      DocumentedExactlyWhen(b, p, i, amount);
    }
  }

  // ---- a refund first

  function OneLine(amount: Money): seq<DocumentLine> {
    [DocumentLine(Ordinary(0), amount, 0)]
  }

  lemma OneLineTotal(amount: Money)
    ensures Total(OneLine(amount)) == amount
  {
    SumOne(OneLine(amount)[0], LineTotal());
  }

  /** An overpayment of 50, refunded in full, beside an open invoice of 50. */
  function RefundedRun(): seq<Call> {
    [DoCreateDocument(0, OneLine(100)), DoFinalizeDocument(0), DoCreateDocument(0, OneLine(50)), DoFinalizeDocument(1),
     DoCreatePayment(0, Asset(0), 150, [Direct(0, 100)]), DoCreateRefund(0, FromPayment(0), Asset(0), 50)]
  }

  lemma AfterCreate(b: Books, amount: Money)
    ensures After(b, DoCreateDocument(0, OneLine(amount)))
         == b.(documents := b.documents + [Document(0, Draft, OneLine(amount), amount, amount, None, None)])
  {
    OneLineTotal(amount);
  }

  lemma AfterFinalize(b: Books, i: nat, amount: Money)
    requires amount > 0 && i < |b.documents| && b.documents[i] == Document(0, Draft, OneLine(amount), amount, amount, None, None)
    ensures After(b, DoFinalizeDocument(i))
         == b.(documents := b.documents[i := Document(0, Finalized, OneLine(amount), amount, amount, Some(|b.journal|), None)],
               journal := Post(b.journal, OfDocument(i), DocumentEntry(b.side, OneLine(amount))))
  {
    OneLineTotal(amount);
  }

  /** An invoice of 100 and one of 50, both finalized. */
  lemma InvoicesRun(b: Books)
    requires b.documents == [] && b.journal == []
    ensures var after := Run(b, RefundedRun()[..4]);
            && after == b.(documents := after.documents, journal := after.journal) && |after.journal| == 2
            && after.documents == [Document(0, Finalized, OneLine(100), 100, 100, Some(0), None), Document(0, Finalized, OneLine(50), 50, 50, Some(1), None)]
  {
    var calls := RefundedRun();
    hide After, DocumentEntry;
    AfterCreate(b, 100);
    var b1 := After(b, calls[0]);
    AfterFinalize(b1, 0, 100);
    var b2 := After(b1, calls[1]);
    AfterCreate(b2, 50);
    var b3 := After(b2, calls[2]);
    AfterFinalize(b3, 1, 50);
    assert calls[..4][..3] == calls[..3] && calls[..3][..2] == calls[..2] && calls[..2][..1] == calls[..1] && calls[..1][..0] == [];
    assert Run(b, calls[..1]) == b1;
    assert Run(b, calls[..2]) == b2;
    assert Run(b, calls[..3]) == b3;
  }

  lemma AfterPayment(b: Books)
    requires b.side == Receivable && b.payments == [] && |b.documents| == 2
    requires b.documents[0] == Document(0, Finalized, OneLine(100), 100, 100, Some(0), None)
    ensures var after := After(b, RefundedRun()[4]);
            && after == b.(documents := after.documents, payments := after.payments, journal := after.journal)
            && after.documents == [Document(0, Finalized, OneLine(100), 0, 0, Some(0), None), b.documents[1]]
            && after.payments == [Payment(0, true, Asset(0), 150, [Direct(0, 100)], 50, 50, |b.journal|, None)]
            && |after.journal| == |b.journal| + 1
  {
    var direct := [Direct(0, 100)];
    SumOne(direct[0], DirectAmount());
    assert direct[1..] == [] == direct[..0];
    hide PaymentEntry;
    assert ValidDirect(b, 0, direct);
    assert PlanPostable(b.documents, direct, 150, 150);
    assert Allocated(b.documents, direct[..0], -1) == b.documents;
  }

  lemma RefundedState(lossAccount: bool)
    ensures var b := Run(Opened(Receivable, false, lossAccount), RefundedRun());
            && b.side == Receivable && !b.gainAccount && b.lossAccount == lossAccount && b.applications == []
            && b.payments == [Payment(0, true, Asset(0), 150, [Direct(0, 100)], 0, 50, 2, None)]
            && |b.documents| == 2 && b.documents[1] == Document(0, Finalized, OneLine(50), 50, 50, Some(1), None)
  {
    var b0 := Opened(Receivable, false, lossAccount);
    var calls := RefundedRun();
    InvoicesRun(b0);
    var invoiced := Run(b0, calls[..4]);
    AfterPayment(invoiced);
    assert calls[..5][..4] == calls[..4];
    var paid := Run(b0, calls[..5]);
    assert paid == After(invoiced, calls[4]);
    hide After;
    assert calls[..6] == calls && calls[..6][..5] == calls[..5];
    assert Run(b0, calls) == After(paid, calls[5]);
    hide Run;
    AfterRefund(paid);
  }

  lemma AfterRefund(b: Books)
    requires |b.payments| == 1 && b.side == Receivable && b.payments[0] == Payment(0, true, Asset(0), 150, [Direct(0, 100)], 50, 50, 2, None)
    ensures var after := After(b, RefundedRun()[5]);
            && after == b.(payments := after.payments, refunds := after.refunds, journal := after.journal)
            && after.payments == [Payment(0, true, Asset(0), 150, [Direct(0, 100)], 0, 50, 2, None)]
  {
    hide RefundEntry;
  }

  /** The refunded credit can be applied once more: the invoice is then closed against the loss account. */
  lemma RefundedCreditIsAppliedAgain(lossAccount: bool)
    ensures var b := Run(Opened(Receivable, false, lossAccount), RefundedRun());
            && |b.payments| == 1 && |b.documents| == 2
            && b.payments[0].unapplied == 0 && b.documents[1].balance == 50
            && !MayApply(b, 0, 1, 50)
            && (AppliesAsDocumented(b, 0, 1, 50) <==> !lossAccount)
            && (lossAccount ==>
                  && ApplyUnapplied(b, 0, 1, 50).Done?
                  && ApplyUnapplied(b, 0, 1, 50).books.documents[1].balance == 0
                  && ApplyUnapplied(b, 0, 1, 50).books.journal == b.journal + [Entry(OfApplication(0), [Line(FxLoss, 50, 0), Line(Control, 0, 50)], None)])
  {
    RefundedState(lossAccount);
    hide Run;
  }

  // ---- a payment through the control account

  function ThroughControlRun(): seq<Call> {
    [DoCreateDocument(0, OneLine(100)), DoFinalizeDocument(0), DoCreatePayment(0, Control, 100, [Direct(0, 100)])]
  }

  /** Account 120 is itself an active posting asset account: a payment may be paid through it, and then nothing is owed but 100 is still on it. */
  lemma PaidThroughControl()
    ensures var b := Run(Opened(Receivable, false, false), ThroughControlRun());
            AccountBalance(b, Control) == 100 && Outstanding(b, None) == 0
  {
    var b := Run(Opened(Receivable, false, false), ThroughControlRun());
    EveryRunKeepsInvariant(Receivable, false, false, ThroughControlRun());
    ThroughControlState();
    hide *;
    ControlAccountReconciles(b);
    OpenOfThroughControl(b);
  }

  lemma OpenOfThroughControl(b: Books)
    requires b.documents == [Document(0, Finalized, OneLine(100), 0, 0, Some(0), None)]
    requires b.payments == [Payment(0, true, Control, 100, [Direct(0, 100)], 0, 0, 1, None)]
    requires b.notes == [] && b.refunds == []
    ensures Outstanding(b, None) == 0 && CashThroughControl(b) == 100
  {
    SumOne(b.payments[0], CashIn());
    SumOne(b.documents[0], OpenBalance(None));
    SumOne(b.payments[0], PaymentCredit(None));
  }

  lemma ThroughControlState()
    ensures var b := Run(Opened(Receivable, false, false), ThroughControlRun());
            && b.documents == [Document(0, Finalized, OneLine(100), 0, 0, Some(0), None)]
            && b.payments == [Payment(0, true, Control, 100, [Direct(0, 100)], 0, 0, 1, None)]
            && b.notes == [] && b.refunds == []
  {
    var b0 := Opened(Receivable, false, false);
    var calls := ThroughControlRun();
    assert calls[..2][..1] == calls[..1] && calls[..1][..0] == [];
    var b1, b2 := Run(b0, calls[..1]), Run(b0, calls[..2]);
    hide After;
    assert Run(b0, calls[..0]) == b0;
    assert b1 == After(b0, calls[0]) && b2 == After(b1, calls[1]);
    AfterCreate(b0, 100);
    AfterFinalize(b1, 0, 100);
    assert calls[..3] == calls && calls[..3][..2] == calls[..2];
    assert Run(b0, calls) == After(b2, calls[2]);
    hide Run;
    AfterControlPayment(b2);
  }

  lemma AfterControlPayment(b: Books)
    requires b.side == Receivable && b.payments == []
    requires b.documents == [Document(0, Finalized, OneLine(100), 100, 100, Some(0), None)]
    ensures var after := After(b, ThroughControlRun()[2]);
            && after == b.(documents := after.documents, payments := after.payments, journal := after.journal)
            && after.documents == [Document(0, Finalized, OneLine(100), 0, 0, Some(0), None)]
            && after.payments == [Payment(0, true, Control, 100, [Direct(0, 100)], 0, 0, |b.journal|, None)]
  {
    var direct := [Direct(0, 100)];
    SumOne(direct[0], DirectAmount());
    assert direct[1..] == [] == direct[..0];
    hide PaymentEntry;
    assert ValidDirect(b, 0, direct);
    assert PlanPostable(b.documents, direct, 100, 100);
    assert Allocated(b.documents, direct[..0], -1) == b.documents;
  }
}
