/**
 * Everything can be undone: from every reachable state the reversals and voids, taken in the order
 * the guards ask for, are all accepted and leave every account and every contact at zero.
 */
module Unwinding {
  import opened Sums
  import opened Posting
  import opened Books
  import opened BooksInvariant
  import opened CashEntries
  import opened BooksTheorems
  import opened PaymentCalls

  predicate NoActiveApplication(b: Books) {
    forall k :: 0 <= k < |b.applications| ==> !b.applications[k].active
  }

  predicate NoActiveUse(b: Books) {
    forall k :: 0 <= k < |b.uses| ==> !b.uses[k].active
  }

  predicate NoPostedRefund(b: Books) {
    forall r :: 0 <= r < |b.refunds| ==> !b.refunds[r].posted
  }

  predicate NoPostedPayment(b: Books) {
    forall p :: 0 <= p < |b.payments| ==> !b.payments[p].posted
  }

  predicate AllNotesVoided(b: Books) {
    forall n :: 0 <= n < |b.notes| ==> b.notes[n].status == Voided
  }

  predicate AllDocumentsVoided(b: Books) {
    forall i :: 0 <= i < |b.documents| ==> b.documents[i].status == Voided
  }

  predicate Unwound(b: Books) {
    NoActiveApplication(b) && NoActiveUse(b) && NoPostedRefund(b) && NoPostedPayment(b) && AllNotesVoided(b) && AllDocumentsVoided(b)
  }

  predicate Undoes(c: Call) {
    c.DoReverseApplication? || c.DoReverseUse? || c.DoVoidRefund? || c.DoVoidPayment? || c.DoVoidNote? || c.DoVoidDocument?
  }

  // ---- the guards let each of them through

  /** An active application's payment and document are in force. */
  lemma ApplicationIsOpen(b: Books, k: nat)
    requires Links(b) && Balances(b, true) && k < |b.applications| && b.applications[k].active
    ensures var a := b.applications[k];
            && ApplicationLinked(a, b.payments, b.documents)
            && b.payments[a.payment].posted && b.documents[a.document].status == Finalized
  {
    hide Total;
    var a := b.applications[k];
    SumAtLeast(b.applications, TxFrom(a.payment));
    SumAtLeast(b.applications, TxOn(a.document));
    assert TxFrom(a.payment)(a) > 0 && TxOn(a.document)(a) > 0;
    assert PaymentBalances(b.payments[a.payment], a.payment, b.applications, b.refunds, true);
    assert DocumentBalances(b.documents[a.document], a.document, b.payments, b.applications, b.uses, true);
  }

  lemma ApplicationFits(b: Books, k: nat)
    requires Links(b) && Balances(b, true) && k < |b.applications| && b.applications[k].active
    requires ApplicationLinked(b.applications[k], b.payments, b.documents)
    requires b.payments[b.applications[k].payment].posted && b.documents[b.applications[k].document].status == Finalized
    ensures var a := b.applications[k];
            var payment, d := b.payments[a.payment], b.documents[a.document];
            && payment.unapplied <= payment.received - a.onPayment && payment.txUnapplied <= payment.received - a.txAmount
            && d.balance <= Total(d.lines) - a.onDocument && d.txBalance <= Total(d.lines) - a.txAmount
  {
    hide Total;
    var a := b.applications[k];
    assert PaymentBalances(b.payments[a.payment], a.payment, b.applications, b.refunds, true);
    assert DocumentBalances(b.documents[a.document], a.document, b.payments, b.applications, b.uses, true);
    hide Links, DocumentsBalance, PaymentsBalance, NotesBalance;
    SumAtLeast(b.applications, TxFrom(a.payment));
    SumAtLeast(b.applications, AppliedFrom(a.payment));
    SumAtLeast(b.refunds, RefundedFrom(FromPayment(a.payment)));
    SumAtLeast(b.payments[a.payment].direct, DirectAmount());
    assert TxFrom(a.payment)(a) == a.txAmount && AppliedFrom(a.payment)(a) == a.onPayment;
    SumAtLeast(b.applications, TxOn(a.document));
    SumAtLeast(b.applications, AppliedOn(a.document));
    SumAtLeast(b.uses, CreditedOn(a.document));
    DirectOnIsNonNegative(a.document);
    SumAtLeast(b.payments, DirectOn(a.document));
    assert TxOn(a.document)(a) == a.txAmount && AppliedOn(a.document)(a) == a.onDocument;
  }

  lemma CanReverseApplication(b: Books, k: nat)
    requires Inv(b) && k < |b.applications| && b.applications[k].active
    ensures ReverseApplication(b, k).Done?
  {
    ApplicationIsOpen(b, k);
    ApplicationFits(b, k);
    assert ApplicationPosted(b.applications[k], k, b.side, b.journal);
    hide Inv, Total, Reverse;
  }

  lemma CanReverseUse(b: Books, k: nat)
    requires Inv(b) && k < |b.uses| && b.uses[k].active
    ensures ReverseUse(b, k).Done?
  {
    hide Total, NotesWithin, Journals, AccountsReconcile, ContactsReconcile;
    var u := b.uses[k];
    assert UseLinked(u, b.notes, b.documents);
    assert NoteBalances(b.notes[u.note], u.note, b.uses, b.refunds, true);
    assert DocumentBalances(b.documents[u.document], u.document, b.payments, b.applications, b.uses, true);
    hide Inv;
    SumAtLeast(b.uses, UsedOf(u.note));
    SumAtLeast(b.uses, CreditedOn(u.document));
    assert UsedOf(u.note)(u) == u.amount && CreditedOn(u.document)(u) == u.amount;
    SumAtLeast(b.refunds, RefundedFrom(FromNote(u.note)));
    SumAtLeast(b.applications, AppliedOn(u.document));
    DirectOnIsNonNegative(u.document);
    SumAtLeast(b.payments, DirectOn(u.document));
  }

  lemma CanVoidRefund(b: Books, r: nat)
    requires Inv(b) && r < |b.refunds| && b.refunds[r].posted
    ensures VoidRefund(b, r).Done?
  {
    hide Total, NotesWithin, Balances, EntriesOwned, Paired, AccountsReconcile, ContactsReconcile, RefundEntry, Reverse, SourceTakesBack;
    assert RefundLinked(b.refunds[r], b.side, b.payments, b.notes) && RefundPosted(b.refunds[r], r, b.side, b.journal);
    SourceHasRoom(b, r);
    hide Inv;
  }

  lemma SourceHasRoom(b: Books, r: nat)
    requires Balances(b, true) && r < |b.refunds| && b.refunds[r].posted && RefundLinked(b.refunds[r], b.side, b.payments, b.notes)
    ensures SourceTakesBack(b, b.refunds[r].source, b.refunds[r].amount)
  {
    hide Total, DocumentsBalance;
    var x := b.refunds[r];
    SumAtLeast(b.refunds, RefundedFrom(x.source));
    assert RefundedFrom(x.source)(x) == x.amount;
    match x.source
    case FromPayment(p) =>
      assert PaymentBalances(b.payments[p], p, b.applications, b.refunds, true);
      SumAtLeast(b.applications, AppliedFrom(p));
      SumAtLeast(b.payments[p].direct, DirectAmount());
    case FromNote(n) =>
      assert NoteBalances(b.notes[n], n, b.uses, b.refunds, true);
      SumAtLeast(b.uses, UsedOf(n));
  }

  lemma CanVoidPayment(b: Books, p: nat)
    requires Inv(b) && p < |b.payments| && b.payments[p].posted && NoActiveApplication(b) && NoPostedRefund(b)
    ensures VoidPayment(b, p).Done?
  {
    assert PaymentPosted(b.payments[p], p, b.side, b.journal);
    CanRestore(b, p);
    hide Inv, Restorable, Allocated, Reverse, ReversalId, PaymentEntry;
  }

  lemma CanRestore(b: Books, p: nat)
    requires Links(b) && DocumentsBalance(b, true) && p < |b.payments| && b.payments[p].posted
    ensures Restorable(b, b.payments[p].direct)
  {
    var direct := b.payments[p].direct;
    assert DirectLinked(b.payments[p], b.side, b.documents);
    hide Links, Total, DistinctDocuments, MayHoldCash;
    forall k | 0 <= k < |direct|
      ensures var d := b.documents[direct[k].document];
              d.status == Finalized && d.balance <= Total(d.lines) - direct[k].amount && d.txBalance <= Total(d.lines) - direct[k].amount
    {
      var i := direct[k].document;
      assert DocumentBalances(b.documents[i], i, b.payments, b.applications, b.uses, true);
      hide DocumentBalances, DirectLinked, DocumentsBalance;
      SpentFits(b, p, k);
    }
  }

  lemma SpentFits(b: Books, p: nat, k: nat)
    requires p < |b.payments| && b.payments[p].posted && k < |b.payments[p].direct| && b.payments[p].direct[k].amount > 0
    requires b.payments[p].direct[k].document < |b.documents|
    requires var i := b.payments[p].direct[k].document; DocumentBalances(b.documents[i], i, b.payments, b.applications, b.uses, true)
    ensures var direct := b.payments[p].direct[k];
            var d := b.documents[direct.document];
            d.status == Finalized && d.balance <= Total(d.lines) - direct.amount && d.txBalance <= Total(d.lines) - direct.amount
  {
    hide Total;
    var i := b.payments[p].direct[k].document;
    SpentOn(b, p, k);
    SumAtLeast(b.applications, AppliedOn(i));
    SumAtLeast(b.applications, TxOn(i));
    SumAtLeast(b.uses, CreditedOn(i));
  }

  lemma SpentOn(b: Books, p: nat, k: nat)
    requires p < |b.payments| && b.payments[p].posted && k < |b.payments[p].direct|
    ensures b.payments[p].direct[k].amount <= SumOf(b.payments, DirectOn(b.payments[p].direct[k].document))
  {
    var payment := b.payments[p];
    var i := payment.direct[k].document;
    SumAtLeast(payment.direct, OnTarget(i));
    assert OnTarget(i)(payment.direct[k]) == payment.direct[k].amount;
    DirectOnIsNonNegative(i);
    SumAtLeast(b.payments, DirectOn(i));
    assert DirectOn(i)(payment) <= SumOf(b.payments, DirectOn(i));
  }

  lemma CanVoidNote(b: Books, n: nat)
    requires Inv(b) && n < |b.notes| && NoActiveUse(b) && NoPostedRefund(b)
    ensures VoidNote(b, n).Done?
  {
    assert NotePosted(b.notes[n], n, b.side, b.journal);
    hide Inv, Total, Reverse;
  }

  lemma CanVoidDocument(b: Books, i: nat)
    requires Inv(b) && i < |b.documents| && NoActiveUse(b) && NoActiveApplication(b) && NoPostedPayment(b)
    ensures VoidDocument(b, i).Done?
  {
    assert DocumentPosted(b.documents[i], i, b.side, b.journal);
    hide Inv, Total, Reverse;
  }

  // ---- how much is left to undo

  function ActiveApplication(): Application -> int {
    (a: Application) => if a.active then 1 else 0
  }

  function ActiveUse(): CreditUse -> int {
    (u: CreditUse) => if u.active then 1 else 0
  }

  function PostedRefund(): Refund -> int {
    (r: Refund) => if r.posted then 1 else 0
  }

  function PostedPayment(): Payment -> int {
    (p: Payment) => if p.posted then 1 else 0
  }

  function NoteInForce(): Note -> int {
    (n: Note) => if n.status == Voided then 0 else 1
  }

  function DocumentInForce(): Document -> int {
    (d: Document) => if d.status == Voided then 0 else 1
  }

  function Left(b: Books): int {
    SumOf(b.applications, ActiveApplication()) + SumOf(b.uses, ActiveUse()) + SumOf(b.refunds, PostedRefund())
    + SumOf(b.payments, PostedPayment()) + SumOf(b.notes, NoteInForce()) + SumOf(b.documents, DocumentInForce())
  }

  lemma LeftIsNatural(b: Books)
    ensures Left(b) >= 0
  {
    SumAtLeast(b.applications, ActiveApplication());
    SumAtLeast(b.uses, ActiveUse());
    SumAtLeast(b.refunds, PostedRefund());
    SumAtLeast(b.payments, PostedPayment());
    SumAtLeast(b.notes, NoteInForce());
    SumAtLeast(b.documents, DocumentInForce());
  }

  /** Whatever is in force, something can be undone next, and then less is. */
  lemma NextUndo(b: Books) returns (c: Call)
    requires Inv(b) && !Unwound(b)
    ensures Undoes(c) && Try(b, c).Done? && Left(After(b, c)) == Left(b) - 1
  {
    hide Inv, Left, ReverseApplication, ReverseUse, VoidRefund, VoidPayment, VoidNote, VoidDocument;
    if k :| 0 <= k < |b.applications| && b.applications[k].active {
      CanReverseApplication(b, k);
      c := DoReverseApplication(k);
      ReversedApplicationLeft(b, k);
    } else if k :| 0 <= k < |b.uses| && b.uses[k].active {
      CanReverseUse(b, k);
      c := DoReverseUse(k);
      ReversedUseLeft(b, k);
    } else if r :| 0 <= r < |b.refunds| && b.refunds[r].posted {
      CanVoidRefund(b, r);
      c := DoVoidRefund(r);
      VoidedRefundLeft(b, r);
    } else if p :| 0 <= p < |b.payments| && b.payments[p].posted {
      CanVoidPayment(b, p);
      c := DoVoidPayment(p);
      VoidedPaymentLeft(b, p);
    } else if n :| 0 <= n < |b.notes| && b.notes[n].status != Voided {
      CanVoidNote(b, n);
      c := DoVoidNote(n);
      VoidedNoteLeft(b, n);
    } else {
      var i :| 0 <= i < |b.documents| && b.documents[i].status != Voided;
      CanVoidDocument(b, i);
      c := DoVoidDocument(i);
      VoidedDocumentLeft(b, i);
    }
  }

  lemma ReversedApplicationLeft(b: Books, k: nat)
    requires ReverseApplication(b, k).Done?
    ensures Left(ReverseApplication(b, k).books) == Left(b) - 1
  {
    hide Total, Reverse;
    var a := b.applications[k];
    var b' := ReverseApplication(b, k).books;
    SumUpdate(b.applications, k, b'.applications[k]);
    SumUpdate(b.payments, a.payment, b'.payments[a.payment]);
    SumUpdate(b.documents, a.document, b'.documents[a.document]);
  }

  lemma ReversedUseLeft(b: Books, k: nat)
    requires ReverseUse(b, k).Done?
    ensures Left(ReverseUse(b, k).books) == Left(b) - 1
  {
    hide Total;
    var u := b.uses[k];
    var b' := ReverseUse(b, k).books;
    SumUpdate(b.uses, k, b'.uses[k]);
    SumUpdate(b.notes, u.note, b'.notes[u.note]);
    SumUpdate(b.documents, u.document, b'.documents[u.document]);
  }

  lemma VoidedRefundLeft(b: Books, r: nat)
    requires r < |b.refunds| && b.refunds[r].posted && VoidRefund(b, r).Done?
    ensures Left(VoidRefund(b, r).books) == Left(b) - 1
  {
    hide Total, Reverse, ReversalId;
    var b' := VoidRefund(b, r).books;
    SumUpdate(b.refunds, r, b'.refunds[r]);
    match b.refunds[r].source
    case FromPayment(p) => SumUpdate(b.payments, p, b'.payments[p]);
    case FromNote(n) => SumUpdate(b.notes, n, b'.notes[n]);
  }

  lemma VoidedPaymentLeft(b: Books, p: nat)
    requires p < |b.payments| && b.payments[p].posted && VoidPayment(b, p).Done?
    ensures Left(VoidPayment(b, p).books) == Left(b) - 1
  {
    hide Total, Reverse, ReversalId, PaymentInUse, Restorable;
    var b' := VoidPayment(b, p).books;
    SumUpdate(b.payments, p, b'.payments[p]);
    forall i | 0 <= i < |b.documents|
      ensures b'.documents[i].status == b.documents[i].status
    {
      AllocatedAt(b.documents, b.payments[p].direct, 1, i);
    }
    SumUnseen(b.documents, b'.documents, DocumentInForce());
  }

  lemma VoidedNoteLeft(b: Books, n: nat)
    requires n < |b.notes| && b.notes[n].status != Voided && VoidNote(b, n).Done?
    ensures Left(VoidNote(b, n).books) == Left(b) - 1
  {
    hide Total, Reverse, ReversalId, NoteInUse;
    SumUpdate(b.notes, n, VoidNote(b, n).books.notes[n]);
  }

  lemma VoidedDocumentLeft(b: Books, i: nat)
    requires i < |b.documents| && b.documents[i].status != Voided && VoidDocument(b, i).Done?
    ensures Left(VoidDocument(b, i).books) == Left(b) - 1
  {
    hide Total, Reverse, ReversalId, PaidDirectly, PaidLater, Credited;
    SumUpdate(b.documents, i, VoidDocument(b, i).books.documents[i]);
  }

  // ---- the whole unwinding

  /** Every call of the sequence is accepted when its turn comes. */
  predicate Accepted(b: Books, calls: seq<Call>)
    decreases |calls|
  {
    calls == [] || (Try(b, calls[0]).Done? && Accepted(After(b, calls[0]), calls[1..]))
  }

  lemma {:induction false} RunFromFront(b: Books, c: Call, rest: seq<Call>)
    ensures Run(b, [c] + rest) == Run(After(b, c), rest)
  {
    hide After;
    var calls := [c] + rest;
    if rest == [] {
      assert calls[..0] == [] && Run(b, calls[..0]) == b;
    } else {
      RunFromFront(b, c, rest[..|rest| - 1]);
      assert calls[..|calls| - 1] == [c] + rest[..|rest| - 1];
    }
  }

  /** From every state that satisfies the invariant there is an unwinding that no guard blocks. */
  lemma Unwind(b: Books) returns (calls: seq<Call>)
    requires Inv(b)
    ensures Accepted(b, calls) && forall k :: 0 <= k < |calls| ==> Undoes(calls[k])
    ensures |calls| == Left(b)
    ensures Inv(Run(b, calls)) && Unwound(Run(b, calls))
    decreases Left(b)
  {
    hide Inv;
    LeftIsNatural(b);
    if Unwound(b) {
      calls := [];
      NothingLeft(b);
      assert Run(b, calls) == b;
    } else {
      var c := NextUndo(b);
      CallKeepsInvariant(b, c);
      LeftIsNatural(After(b, c));
      var rest := Unwind(After(b, c));
      calls := [c] + rest;
      assert calls[0] == c && calls[1..] == rest;
      hide Try, After, Left;
      RunFromFront(b, c, rest);
    }
  }

  lemma NothingLeft(b: Books)
    requires Unwound(b)
    ensures Left(b) == 0
  {
    SumZero(b.applications, ActiveApplication());
    SumZero(b.uses, ActiveUse());
    SumZero(b.refunds, PostedRefund());
    SumZero(b.payments, PostedPayment());
    SumZero(b.notes, NoteInForce());
    SumZero(b.documents, DocumentInForce());
  }

  /** Unwound books net to zero on every account and for every contact. */
  lemma UnwoundIsFlat(b: Books)
    requires Inv(b) && Unwound(b)
    ensures forall a :: AccountBalance(b, a) == 0
    ensures forall who :: Outstanding(b, who) == 0 && Excess(b, who) == 0
  {
    hide Links, NotesWithin, Balances, Journals, ContactsReconcile, Total, Net, DocumentEntry, NoteEntry, PaymentEntry, RefundEntry, AdjustmentEntry;
    forall a
      ensures AccountBalance(b, a) == 0
    {
      assert AccountBalance(b, a) == LiveEffect(b, a);
      SumZero(b.documents, LiveDocument(b.side, a));
      SumZero(b.notes, LiveNote(b.side, a));
      SumZero(b.payments, LivePayment(b.side, a));
      SumZero(b.applications, LiveApplication(b.side, a));
      SumZero(b.refunds, LiveRefund(b.side, a));
    }
    forall who
      ensures Outstanding(b, who) == 0 && Excess(b, who) == 0
    {
      SumZero(b.documents, OpenBalance(who));
      SumZero(b.payments, PaymentCredit(who));
      SumZero(b.notes, NoteCredit(who));
      SumZero(b.applications, ExcessOf(who));
    }
  }

  /** The documented promise, for every run: it can be unwound to nothing. */
  lemma EveryRunUnwinds(side: Side, gainAccount: bool, lossAccount: bool, made: seq<Call>) returns (undone: seq<Call>)
    ensures var b := Run(Opened(side, gainAccount, lossAccount), made);
            && Accepted(b, undone) && (forall k :: 0 <= k < |undone| ==> Undoes(undone[k]))
            && (forall a :: AccountBalance(Run(b, undone), a) == 0)
            && (forall who :: Outstanding(Run(b, undone), who) == 0)
  {
    var b := Run(Opened(side, gainAccount, lossAccount), made);
    EveryRunKeepsInvariant(side, gainAccount, lossAccount, made);
    hide *;
    undone := Unwind(b);
    UnwoundIsFlat(Run(b, undone));
  }

  // ---- repeating a call

  /** Finalizing or voiding once more is accepted and changes nothing. */
  lemma RepeatingChangesNothing(b: Books, c: Call)
    requires c.DoFinalizeDocument? || c.DoFinalizeNote? || c.DoVoidDocument? || c.DoVoidNote? || c.DoVoidPayment? || c.DoVoidRefund?
    requires Try(b, c).Done?
    ensures Try(After(b, c), c) == Done(After(b, c))
  {
    hide Total, Reverse, ReversalId, PaymentInUse, Restorable, NoteInUse, PaidDirectly, PaidLater, Credited, OriginalAccepts, DocumentEntry, NoteEntry;
  }
}
