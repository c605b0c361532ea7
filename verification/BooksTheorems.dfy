/** The laws of the subledger over every run. */
module BooksTheorems {
  import opened Sums
  import opened Posting
  import opened Books
  import opened BooksInvariant
  import opened CashEntries
  import opened DocumentCalls
  import opened NoteCalls
  import opened PaymentCalls
  import opened SettlementCalls

  /** The rows a void gives up have no uses, which its counts are to find out. */
  predicate Unused(b: Books, c: Call) {
    match c
    case DoVoidNote(n) => n < |b.notes| && b.notes[n].status == Finalized ==> !NoteInUse(b, n)
    case DoVoidPayment(p) => !PaymentInUse(b, p)
    case _ => true
  }

  /** A new note leaves its original document credited within its total. */
  predicate ReferenceFits(b: Books, c: Call) {
    c.DoCreateNote? ==> LinkedTotalFits(b, c.original, Total(c.lines))
  }

  /**
   * Once a call's claims have succeeded it keeps links, balances, journals and accounts, whatever
   * else it should have looked at. The counts of a void are what keeps closed rows unused and
   * contacts reconciled, and the check of the reference is what keeps notes within their documents.
   */
  lemma ClaimedKeeps(b: Books, c: Call, plan: Settlement, b': Books, strict: bool)
    requires Links(b) && Balances(b, strict) && Journals(b) && AccountsReconcile(b) && Claimed(b, c, plan) == Done(b')
    requires strict ==> Unused(b, c)
    ensures Links(b') && Balances(b', strict) && Journals(b') && AccountsReconcile(b')
    ensures strict && ContactsReconcile(b) ==> ContactsReconcile(b')
    ensures NotesWithin(b) ==> (NotesWithin(b') <==> ReferenceFits(b, c))
  {
    hide Links, NotesWithin, DocumentsBalance, PaymentsBalance, NotesBalance, RecordsPosted, Paired, EntriesOwned, AccountsReconcile, ContactsReconcile,
      LinkedTotalFits, PaymentInUse, NoteInUse, Total,
      CreateDocument, FinalizeDocument, VoidDocument, CreateNoteClaimed, FinalizeNoteClaimed, VoidNoteClaimed, ApplyNote, ReverseUse,
      CreatePaymentClaimed, VoidPaymentClaimed, ApplySettled, ReverseApplication, CreateRefund, VoidRefund;
    match c
    case DoCreateDocument(contact, lines) =>
      CreateDocumentLinks(b, contact, lines, b');
      CreateDocumentBalances(b, contact, lines, b', strict);
      CreateDocumentJournals(b, contact, lines, b');
      CreateDocumentTotals(b, contact, lines, b');
    case DoFinalizeDocument(i) =>
      FinalizeDocumentLinks(b, i, b');
      FinalizeDocumentBalances(b, i, b', strict);
      FinalizeDocumentJournals(b, i, b');
      FinalizeDocumentTotals(b, i, b');
    case DoVoidDocument(i) =>
      VoidDocumentLinks(b, i, b');
      VoidDocumentBalances(b, i, b', strict);
      VoidDocumentJournals(b, i, b');
      VoidDocumentTotals(b, i, b');
    case DoCreateNote(contact, lines, original) =>
      CreateNoteLinks(b, contact, lines, original, b');
      CreateNoteBalances(b, contact, lines, original, b', strict);
      CreateNoteJournals(b, contact, lines, original, b');
      CreateNoteTotals(b, contact, lines, original, b');
      if NotesWithin(b) {
        CreateNoteWithin(b, contact, lines, original, b');
      }
    case DoFinalizeNote(i) =>
      FinalizeNoteLinks(b, i, b');
      FinalizeNoteBalances(b, i, b', strict);
      FinalizeNoteJournals(b, i, b');
      FinalizeNoteTotals(b, i, b');
    case DoVoidNote(i) =>
      VoidNoteInRange(b, i);
      VoidNoteLinks(b, i, b');
      VoidNoteBalances(b, i, b', strict);
      VoidNoteJournals(b, i, b');
      VoidNoteTotals(b, i, b');
    case DoApplyNote(n, i, amount) =>
      ApplyNoteLinks(b, n, i, amount, b');
      ApplyNoteBalances(b, n, i, amount, b', strict);
      ApplyNoteJournals(b, n, i, amount, b');
      ApplyNoteTotals(b, n, i, amount, b');
    case DoReverseUse(k) =>
      ReverseUseLinks(b, k, b');
      ReverseUseBalances(b, k, b', strict);
      ReverseUseJournals(b, k, b');
      ReverseUseTotals(b, k, b');
    case DoCreatePayment(contact, account, received, direct) =>
      CreatePaymentLinks(b, contact, account, received, direct, b');
      CreatePaymentBalances(b, contact, account, received, direct, b', strict);
      CreatePaymentJournals(b, contact, account, received, direct, b');
      CreatePaymentTotals(b, contact, account, received, direct, b');
    case DoVoidPayment(i) =>
      VoidPaymentLinks(b, i, b');
      VoidPaymentBalances(b, i, b', strict);
      VoidPaymentJournals(b, i, b');
      VoidPaymentTotals(b, i, b');
    case DoApplyUnapplied(p, i, amount) =>
      ApplyUnappliedLinks(b, p, i, amount, plan.onDocument, plan.onPayment, b');
      ApplyUnappliedBalances(b, p, i, amount, plan.onDocument, plan.onPayment, b', strict);
      ApplyUnappliedJournals(b, p, i, amount, plan.onDocument, plan.onPayment, b');
      ApplyUnappliedTotals(b, p, i, amount, plan.onDocument, plan.onPayment, b');
    case DoReverseApplication(k) =>
      ReverseApplicationLinks(b, k, b');
      ReverseApplicationBalances(b, k, b', strict);
      ReverseApplicationJournals(b, k, b');
      ReverseApplicationTotals(b, k, b');
    case DoCreateRefund(contact, source, account, amount) =>
      CreateRefundLinks(b, contact, source, account, amount, b');
      CreateRefundBalances(b, contact, source, account, amount, b', strict);
      CreateRefundJournals(b, contact, source, account, amount, b');
      CreateRefundTotals(b, contact, source, account, amount, b');
    case DoVoidRefund(r) =>
      VoidRefundLinks(b, r, b');
      VoidRefundBalances(b, r, b', strict);
      VoidRefundJournals(b, r, b');
      VoidRefundTotals(b, r, b');
  }

  lemma VoidNoteInRange(b: Books, i: nat)
    requires VoidNoteClaimed(b, i).Done?
    ensures i < |b.notes|
  {
  }

  /** The settlement a call works out from the tables as they are. */
  function PlanFor(b: Books, c: Call): Settlement {
    if c.DoApplyUnapplied? && c.payment < |b.payments| && c.document < |b.documents| then
      var d, payment := b.documents[c.document], b.payments[c.payment];
      Allocate(c.amount, d.txBalance, d.balance, payment.txUnapplied, payment.unapplied)
    else SettlementRefused
  }

  /** An accepted call has no effect, or is its own claims with those checks made. */
  lemma AcceptedIsClaimed(b: Books, c: Call, b': Books)
    requires Try(b, c) == Done(b')
    ensures b' == b || (Claimed(b, c, PlanFor(b, c)) == Done(b') && Unused(b, c) && ReferenceFits(b, c))
  {
    hide Total, Allocate, LinkedTotalFits, PaymentInUse, NoteInUse, CreateDocument, FinalizeDocument, VoidDocument, CreateNoteClaimed, FinalizeNoteClaimed,
      VoidNoteClaimed, ApplyNote, ReverseUse, CreatePaymentClaimed, VoidPaymentClaimed, ApplySettled, ReverseApplication, CreateRefund, VoidRefund, PlanPostable;
  }

  /** Whatever call is made, with whatever arguments, the invariant survives it. */
  lemma CallKeepsInvariant(b: Books, c: Call)
    requires Inv(b)
    ensures Inv(After(b, c))
  {
    hide Links, NotesWithin, Balances, Journals, AccountsReconcile, ContactsReconcile, Try, Claimed, Unused, ReferenceFits;
    if Try(b, c).Done? {
      var b' := Try(b, c).books;
      AcceptedIsClaimed(b, c, b');
      if b' != b {
        ClaimedKeeps(b, c, PlanFor(b, c), b', true);
      }
    }
  }

  /** Whatever is claimed, on whatever plan, the safe part survives it. */
  lemma ClaimedKeepsSafe(b: Books, c: Call, plan: Settlement, b': Books)
    requires Safe(b) && Claimed(b, c, plan) == Done(b')
    ensures Safe(b')
  {
    hide Links, Balances, Journals, AccountsReconcile, Claimed;
    ClaimedKeeps(b, c, plan, b', false);
  }

  lemma InvIsSafe(b: Books)
    requires Inv(b)
    ensures Safe(b)
  {
    hide Links, NotesWithin, Journals, AccountsReconcile, ContactsReconcile, Total;
  }

  /** So it holds in every state of every run from empty books. */
  lemma {:induction false} EveryRunKeepsInvariant(side: Side, gainAccount: bool, lossAccount: bool, calls: seq<Call>)
    ensures Inv(Run(Opened(side, gainAccount, lossAccount), calls))
  {
    var b := Opened(side, gainAccount, lossAccount);
    if calls == [] {
    } else {
      EveryRunKeepsInvariant(side, gainAccount, lossAccount, calls[..|calls| - 1]);
      CallKeepsInvariant(Run(b, calls[..|calls| - 1]), calls[|calls| - 1]);
    }
  }

  lemma DirectOnIsNonNegative(i: nat)
    ensures NonNegative(DirectOn(i))
  {
    forall p: Payment
      ensures DirectOn(i)(p) >= 0
    {
      SumAtLeast(p.direct, OnTarget(i));
    }
  }

  /** No balance leaves the range from zero to the amount it started from. */
  lemma BalancesStayWithin(b: Books)
    requires Balances(b, false)
    ensures forall i :: 0 <= i < |b.documents| && b.documents[i].status == Finalized ==>
              0 <= b.documents[i].balance <= Total(b.documents[i].lines) && 0 <= b.documents[i].txBalance <= Total(b.documents[i].lines)
    ensures forall p :: 0 <= p < |b.payments| && b.payments[p].posted ==>
              0 <= b.payments[p].unapplied <= b.payments[p].received && 0 <= b.payments[p].txUnapplied <= b.payments[p].received
    ensures forall n :: 0 <= n < |b.notes| && b.notes[n].status == Finalized ==> 0 <= b.notes[n].unapplied <= Total(b.notes[n].lines)
  {
    hide Total;
    forall i | 0 <= i < |b.documents| && b.documents[i].status == Finalized
      ensures 0 <= b.documents[i].balance <= Total(b.documents[i].lines) && 0 <= b.documents[i].txBalance <= Total(b.documents[i].lines)
    {
      assert DocumentBalances(b.documents[i], i, b.payments, b.applications, b.uses, false);
      hide Balances;
      DirectOnIsNonNegative(i);
      SumAtLeast(b.payments, DirectOn(i));
      SumAtLeast(b.applications, AppliedOn(i));
      SumAtLeast(b.applications, TxOn(i));
      SumAtLeast(b.uses, CreditedOn(i));
    }
    forall p | 0 <= p < |b.payments| && b.payments[p].posted
      ensures 0 <= b.payments[p].unapplied <= b.payments[p].received && 0 <= b.payments[p].txUnapplied <= b.payments[p].received
    {
      assert PaymentBalances(b.payments[p], p, b.applications, b.refunds, false);
      hide Balances;
      SumAtLeast(b.payments[p].direct, DirectAmount());
      SumAtLeast(b.applications, AppliedFrom(p));
      SumAtLeast(b.applications, TxFrom(p));
      SumAtLeast(b.refunds, RefundedFrom(FromPayment(p)));
    }
    forall n | 0 <= n < |b.notes| && b.notes[n].status == Finalized
      ensures 0 <= b.notes[n].unapplied <= Total(b.notes[n].lines)
    {
      assert NoteBalances(b.notes[n], n, b.uses, b.refunds, false);
      hide Balances;
      SumAtLeast(b.uses, UsedOf(n));
      SumAtLeast(b.refunds, RefundedFrom(FromNote(n)));
    }
  }

  /** No two entries were posted for the same record, and no two reverse the same entry. */
  lemma OneEntryPerOrigin(b: Books, e: nat, f: nat)
    requires Journals(b) && e < |b.journal| && f < |b.journal| && b.journal[e].origin == b.journal[f].origin
    ensures e == f
  {
    hide RecordsPosted, Postable;
    assert EntryPaired(b.journal, e) && EntryPaired(b.journal, f);
  }
}
