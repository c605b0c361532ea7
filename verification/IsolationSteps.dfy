/** A step that goes on keeps what its transaction knows, and claims only rows that nobody else holds. */
module IsolationSteps {
  import opened Wrappers
  import opened Sums
  import opened Posting
  import opened Books
  import opened BooksInvariant
  import opened Transactions
  import opened Isolation

  ghost predicate Unlocked(c: Claims, locks: Locks) {
    && c.documents.Keys !! locks.documents && c.notes.Keys !! locks.notes && c.payments.Keys !! locks.payments
    && c.applications.Keys !! locks.applications && c.uses.Keys !! locks.uses && c.refunds.Keys !! locks.refunds
  }

  /** Claims that are in order: as committed, tame, and nobody else's. */
  ghost predicate InOrder(b: Books, locks: Locks, c: Claims) {
    Anchored(b, c) && Tame(c) && Unlocked(c, locks)
  }

  lemma TookDocument(b: Books, locks: Locks, c: Claims, i: nat, d: Document)
    requires InOrder(b, locks, c) && i < |b.documents| && i !in locks.documents && DocumentMayBecome(b.documents[i], d)
    ensures InOrder(b, locks, c.(documents := c.documents[i := Version(b.documents[i], d)]))
  {
  }

  lemma TookNote(b: Books, locks: Locks, c: Claims, n: nat, note: Note)
    requires InOrder(b, locks, c) && n < |b.notes| && n !in locks.notes && NoteMayBecome(b.notes[n], note)
    ensures InOrder(b, locks, c.(notes := c.notes[n := Version(b.notes[n], note)]))
  {
  }

  lemma TookPayment(b: Books, locks: Locks, c: Claims, p: nat, payment: Payment)
    requires InOrder(b, locks, c) && p < |b.payments| && p !in locks.payments && PaymentMayBecome(b.payments[p], payment)
    ensures InOrder(b, locks, c.(payments := c.payments[p := Version(b.payments[p], payment)]))
  {
  }

  lemma TookApplication(b: Books, locks: Locks, c: Claims, k: nat, a: Application)
    requires InOrder(b, locks, c) && k < |b.applications| && k !in locks.applications && ApplicationMayBecome(b.applications[k], a)
    ensures InOrder(b, locks, c.(applications := c.applications[k := Version(b.applications[k], a)]))
  {
  }

  lemma TookUse(b: Books, locks: Locks, c: Claims, k: nat, u: CreditUse)
    requires InOrder(b, locks, c) && k < |b.uses| && k !in locks.uses && UseMayBecome(b.uses[k], u)
    ensures InOrder(b, locks, c.(uses := c.uses[k := Version(b.uses[k], u)]))
  {
  }

  lemma TookRefund(b: Books, locks: Locks, c: Claims, r: nat, refund: Refund)
    requires InOrder(b, locks, c) && r < |b.refunds| && r !in locks.refunds && RefundMayBecome(b.refunds[r], refund)
    ensures InOrder(b, locks, c.(refunds := c.refunds[r := Version(b.refunds[r], refund)]))
  {
  }

  lemma AsFoundNote(b: Books, locks: Locks, c: Claims, n: nat)
    requires InOrder(b, locks, c) && n in c.notes
    ensures n < |b.notes| && c.notes[n].before == b.notes[n]
  {
  }

  lemma AsFoundPayment(b: Books, locks: Locks, c: Claims, p: nat)
    requires InOrder(b, locks, c) && p in c.payments
    ensures p < |b.payments| && c.payments[p].before == b.payments[p]
  {
  }

  lemma AsFoundApplication(b: Books, locks: Locks, c: Claims, k: nat)
    requires InOrder(b, locks, c) && k in c.applications
    ensures k < |b.applications| && c.applications[k].before == b.applications[k]
  {
  }

  lemma AsFoundUse(b: Books, locks: Locks, c: Claims, k: nat)
    requires InOrder(b, locks, c) && k in c.uses
    ensures k < |b.uses| && c.uses[k].before == b.uses[k]
  {
  }

  lemma AsFoundRefund(b: Books, locks: Locks, c: Claims, r: nat)
    requires InOrder(b, locks, c) && r in c.refunds
    ensures r < |b.refunds| && c.refunds[r].before == b.refunds[r]
  {
  }

  /** Where a step leads from and to. */
  ghost predicate Goes(b: Books, locks: Locks, t: Transaction, step: Progress, t': Transaction) {
    t.Running? && InOrder(b, locks, t.claims) && step == Go(t')
  }

  ghost predicate Arrives(b: Books, locks: Locks, t: Transaction, t': Transaction) {
    t.Running? && t'.Running? && t'.call == t.call && InOrder(b, locks, t'.claims)
  }

  lemma FinalizeDocumentGoes(b: Books, locks: Locks, t: Transaction, t': Transaction, i: nat)
    requires t.Running? && Goes(b, locks, t, FinalizeDocumentStep(b, locks, t, i), t') && FinalizeDocumentShaped(t, i) && (t.at >= 1 ==> i < |b.documents| && Total(b.documents[i].lines) > 0)
    ensures Arrives(b, locks, t, t') && FinalizeDocumentShaped(t', i) && (t'.at >= 1 ==> i < |b.documents| && Total(b.documents[i].lines) > 0)
  {
    hide InOrder, Publish, Post, Reverse, ReversalId, Total;
    if t.at == 1 {
      TookDocument(b, locks, t.claims, i, t'.claims.documents[i].after);
    }
  }

  lemma VoidDocumentGoes(b: Books, locks: Locks, t: Transaction, t': Transaction, i: nat)
    requires t.Running? && Goes(b, locks, t, VoidDocumentStep(b, locks, t, i), t') && VoidDocumentShaped(b.side, t, i) && (t.at == 4 || (t.at == 3 && b.side == Payable) ==> UnusedDocumentRow(b, i))
    ensures Arrives(b, locks, t, t') && VoidDocumentShaped(b.side, t', i) && (t'.at == 4 || (t'.at == 3 && b.side == Payable) ==> UnusedDocumentRow(b, i))
  {
    hide InOrder, Publish, Post, Reverse, ReversalId, Total, PaidDirectly, PaidLater, Credited;
    if t'.claims != t.claims {
      TookDocument(b, locks, t.claims, i, t'.claims.documents[i].after);
    }
  }

  lemma FinalizeNoteGoes(b: Books, locks: Locks, t: Transaction, t': Transaction, n: nat)
    requires t.Running? && Goes(b, locks, t, FinalizeNoteStep(b, locks, t, n), t') && FinalizeNoteShaped(t, n) && (t.at >= 1 ==> n < |b.notes| && Total(b.notes[n].lines) > 0)
    ensures Arrives(b, locks, t, t') && FinalizeNoteShaped(t', n) && (t'.at >= 1 ==> n < |b.notes| && Total(b.notes[n].lines) > 0)
  {
    hide InOrder, Publish, Post, Reverse, ReversalId, Total, OriginalAccepts;
    if t.at == 1 {
      TookNote(b, locks, t.claims, n, t'.claims.notes[n].after);
    }
  }

  lemma VoidNoteGoes(b: Books, locks: Locks, t: Transaction, t': Transaction, n: nat)
    requires t.Running? && Goes(b, locks, t, VoidNoteStep(b, locks, t, n), t') && VoidNoteShaped(b.side, t, n) && (t.at == 3 && b.side == Receivable ==> !NoteInUse(b, n))
    ensures Arrives(b, locks, t, t') && VoidNoteShaped(b.side, t', n) && (t'.at == 3 && b.side == Receivable ==> !NoteInUse(b, n))
  {
    hide InOrder, Publish, Post, Reverse, ReversalId, Total, NoteInUse;
    if t'.claims != t.claims {
      TookNote(b, locks, t.claims, n, t'.claims.notes[n].after);
    }
  }

  lemma ApplyNoteGoes(b: Books, locks: Locks, t: Transaction, t': Transaction, n: nat, i: nat, amount: Money)
    requires t.Running? && Goes(b, locks, t, ApplyNoteStep(b, locks, t, n, i, amount), t') && ApplyNoteShaped(t, n, i, amount)
    ensures Arrives(b, locks, t, t') && ApplyNoteShaped(t', n, i, amount)
  {
    hide InOrder, Publish, Post, Reverse, ReversalId, Total;
    if t.at >= 2 {
      AsFoundNote(b, locks, t.claims, n);
    }
    if t.at == 1 {
      TookNote(b, locks, t.claims, n, t'.claims.notes[n].after);
    } else if t.at == 2 {
      TookDocument(b, locks, t.claims, i, t'.claims.documents[i].after);
    }
  }

  lemma ReverseUseGoes(b: Books, locks: Locks, t: Transaction, t': Transaction, k: nat)
    requires t.Running? && Goes(b, locks, t, ReverseUseStep(b, locks, t, k), t') && ReverseUseShaped(t, k)
    ensures Arrives(b, locks, t, t') && ReverseUseShaped(t', k)
  {
    hide InOrder, Publish, Post, Reverse, ReversalId, Total;
    var u := b.uses[k];
    if t.at >= 2 {
      AsFoundUse(b, locks, t.claims, k);
    }
    if t.at == 1 {
      TookUse(b, locks, t.claims, k, t'.claims.uses[k].after);
    } else if t.at == 2 {
      TookNote(b, locks, t.claims, u.note, t'.claims.notes[u.note].after);
    } else if t.at == 3 {
      TookDocument(b, locks, t.claims, u.document, t'.claims.documents[u.document].after);
    }
  }

  lemma ApplyGoes(b: Books, locks: Locks, t: Transaction, t': Transaction, p: nat, i: nat, amount: Money)
    requires t.Running? && Goes(b, locks, t, ApplyStep(b, locks, t, p, i, amount), t') && ApplyShaped(t, p, i, amount) && (t.at >= 1 ==> t.plan.Settled? && AdjustmentConfigured(b, t.plan.onPayment - t.plan.onDocument))
    ensures Arrives(b, locks, t, t') && ApplyShaped(t', p, i, amount) && (t'.at >= 1 ==> t'.plan.Settled? && AdjustmentConfigured(b, t'.plan.onPayment - t'.plan.onDocument))
  {
    hide InOrder, Publish, Post, Reverse, ReversalId, Total, Allocate, AdjustmentConfigured;
    if t.at >= 2 {
      AsFoundPayment(b, locks, t.claims, p);
    }
    if t.at == 1 {
      TookPayment(b, locks, t.claims, p, t'.claims.payments[p].after);
    } else if t.at == 2 {
      TookDocument(b, locks, t.claims, i, t'.claims.documents[i].after);
    }
  }

  lemma ReverseApplicationGoes(b: Books, locks: Locks, t: Transaction, t': Transaction, k: nat)
    requires t.Running? && Goes(b, locks, t, ReverseApplicationStep(b, locks, t, k), t') && ReverseApplicationShaped(t, k)
    ensures Arrives(b, locks, t, t') && ReverseApplicationShaped(t', k)
  {
    hide InOrder, Publish, Post, Reverse, ReversalId, Total;
    var a := b.applications[k];
    if t.at >= 2 {
      AsFoundApplication(b, locks, t.claims, k);
    }
    if t.at == 1 {
      TookApplication(b, locks, t.claims, k, t'.claims.applications[k].after);
    } else if t.at == 2 {
      TookPayment(b, locks, t.claims, a.payment, t'.claims.payments[a.payment].after);
    } else if t.at == 3 {
      TookDocument(b, locks, t.claims, a.document, t'.claims.documents[a.document].after);
    }
  }

  // ---- payments claim one document after another

  lemma NamedOneMore(direct: seq<Direct>, k: nat)
    requires k < |direct|
    ensures Named(direct[..k + 1]) == Named(direct[..k]) + {direct[k].document}
  {
  }

  lemma MovingOneMore(own: map<nat, Version<Document>>, direct: seq<Direct>, k: nat, sign: int, v: Version<Document>)
    requires k < |direct| && DistinctDocuments(direct) && Moving(own, direct, k, sign)
    requires v.after == Moved(v.before, sign * direct[k].amount)
    ensures Moving(own[direct[k].document := v], direct, k + 1, sign)
  {
    hide Moved;
    NamedOneMore(direct, k);
  }

  lemma CreatePaymentGoes(b: Books, locks: Locks, t: Transaction, t': Transaction, contact: nat, account: Account, received: Money, direct: seq<Direct>)
    requires t.Running? && Goes(b, locks, t, CreatePaymentStep(b, locks, t, contact, account, received, direct), t') && CreatePaymentShaped(t, contact, direct) && (t.at >= 1 ==> PaymentAcceptable(b, account, received, direct))
    ensures Arrives(b, locks, t, t') && CreatePaymentShaped(t', contact, direct) && (t'.at >= 1 ==> PaymentAcceptable(b, account, received, direct))
  {
    hide InOrder, Publish, Post, Reverse, ReversalId, Total, PlanPostable, PaymentAcceptable;
    if t.at >= 1 {
      var i := direct[t.at - 1].document;
      TookDocument(b, locks, t.claims, i, t'.claims.documents[i].after);
      MovingOneMore(t.claims.documents, direct, t.at - 1, -1, t'.claims.documents[i]);
    } else {
      assert direct[..0] == [] && Named([]) == {};
    }
    hide Moving, DocumentSettles;
  }

  lemma VoidPaymentGoes(b: Books, locks: Locks, t: Transaction, t': Transaction, p: nat)
    requires t.Running? && Goes(b, locks, t, VoidPaymentStep(b, locks, t, p), t') && VoidPaymentShaped(b.side, t, p)
    requires p < |b.payments| ==> DistinctDocuments(b.payments[p].direct)
    ensures Arrives(b, locks, t, t') && VoidPaymentShaped(b.side, t', p)
  {
    hide InOrder, Publish, Post, Reverse, ReversalId, Total, PaymentInUse;
    if t.at >= 3 {
      AsFoundPayment(b, locks, t.claims, p);
    }
    if t.at == 2 {
      TookPayment(b, locks, t.claims, p, t'.claims.payments[p].after);
      assert b.payments[p].direct[..0] == [] && Named([]) == {};
    } else if t.at >= 3 {
      var direct := b.payments[p].direct;
      var i := direct[t.at - 3].document;
      TookDocument(b, locks, t.claims, i, t'.claims.documents[i].after);
      MovingOneMore(t.claims.documents, direct, t.at - 3, 1, t'.claims.documents[i]);
    }
    hide Moving, MayRestore, DistinctDocuments;
  }

  // ---- refunds

  lemma SourceGoes(b: Books, locks: Locks, t: Transaction, t': Transaction, source: RefundSource, may: bool, change: int)
    requires t.Running? && InOrder(b, locks, t.claims) && TakeSource(b, locks, t, source, may, change) == Go(t') && (may ==> SourceOpen(b, source))
    ensures t'.Running? && may && t' == t.(at := t.at + 1, claims := t'.claims) && InOrder(b, locks, t'.claims)
    ensures t.claims.payments == map[] && t.claims.notes == map[] ==> SourceClaimed(t'.claims, t.claims, source, change)
    ensures match source
            case FromPayment(p) => p < |b.payments| && t'.claims.payments[p].before == b.payments[p]
            case FromNote(n) => n < |b.notes| && t'.claims.notes[n].before == b.notes[n]
  {
    hide Publish, Post, Reverse, ReversalId, Total;
    match source
    case FromPayment(p) => TookPayment(b, locks, t.claims, p, t'.claims.payments[p].after);
    case FromNote(n) => TookNote(b, locks, t.claims, n, t'.claims.notes[n].after);
  }

  lemma CreateRefundGoes(b: Books, locks: Locks, t: Transaction, t': Transaction, contact: nat, source: RefundSource, account: Account, amount: Money)
    requires t.Running? && Goes(b, locks, t, CreateRefundStep(b, locks, t, contact, source, account, amount), t') && CreateRefundShaped(t, contact, source, amount) && (t.at >= 1 ==> amount > 0 && MayHoldCash(b.side, account))
    ensures Arrives(b, locks, t, t') && CreateRefundShaped(t', contact, source, amount) && (t'.at >= 1 ==> amount > 0 && MayHoldCash(b.side, account))
  {
    hide InOrder, Publish, Post, Reverse, ReversalId, Total, MayHoldCash;
    if t.at == 1 {
      SourceGoes(b, locks, t, t', source, SourceCovers(b, source, contact, amount), -(amount as int));
      hide TakeSource, SourceClaimed;
    }
  }

  lemma VoidRefundGoes(b: Books, locks: Locks, t: Transaction, t': Transaction, r: nat)
    requires t.Running? && Goes(b, locks, t, VoidRefundStep(b, locks, t, r), t') && VoidRefundShaped(t, r)
    ensures Arrives(b, locks, t, t') && VoidRefundShaped(t', r)
  {
    hide InOrder, Publish, Post, Reverse, ReversalId, Total;
    if t.at >= 2 {
      AsFoundRefund(b, locks, t.claims, r);
    }
    if t.at == 1 {
      TookRefund(b, locks, t.claims, r, t'.claims.refunds[r].after);
      hide TakeSource, SourceClaimed;
    } else if t.at == 2 {
      var refund := b.refunds[r];
      SourceGoes(b, locks, t, t', refund.source, SourceTakesBack(b, refund.source, refund.amount), refund.amount);
      hide TakeSource, SourceClaimed;
    }
  }

  /** Whatever the call, one step keeps what its transaction knows. */
  lemma StepGoes(b: Books, locks: Locks, t: Transaction, t': Transaction)
    requires t.Running? && InOrder(b, locks, t.claims) && Shaped(b.side, t) && Known(b, t) && Step(b, locks, t) == Go(t')
    requires forall p :: 0 <= p < |b.payments| ==> DistinctDocuments(b.payments[p].direct)
    ensures t'.Running? && InOrder(b, locks, t'.claims) && Shaped(b.side, t') && Known(b, t')
  {
    hide InOrder, FinalizeDocumentShaped, VoidDocumentShaped, FinalizeNoteShaped, VoidNoteShaped, ApplyNoteShaped, ReverseUseShaped,
      CreatePaymentShaped, VoidPaymentShaped, ApplyShaped, ReverseApplicationShaped, CreateRefundShaped, VoidRefundShaped, UnusedDocumentRow, NoteInUse,
      PaymentAcceptable, AdjustmentConfigured, MayHoldCash, ValidLines, Total, CreateDocumentStep, FinalizeDocumentStep, VoidDocumentStep, CreateNoteStep, FinalizeNoteStep, VoidNoteStep,
      ApplyNoteStep, ReverseUseStep, CreatePaymentStep, VoidPaymentStep, ApplyStep, ReverseApplicationStep, CreateRefundStep, VoidRefundStep, DistinctDocuments;
    match t.call
    case DoCreateDocument(contact, lines) => CreateDocumentEnds(b, contact, lines);
    case DoFinalizeDocument(i) => FinalizeDocumentGoes(b, locks, t, t', i);
    case DoVoidDocument(i) => VoidDocumentGoes(b, locks, t, t', i);
    case DoCreateNote(contact, lines, original) => CreateNoteGoes(b, locks, t, t', contact, lines, original);
    case DoFinalizeNote(n) => FinalizeNoteGoes(b, locks, t, t', n);
    case DoVoidNote(n) => VoidNoteGoes(b, locks, t, t', n);
    case DoApplyNote(n, i, amount) => ApplyNoteGoes(b, locks, t, t', n, i, amount);
    case DoReverseUse(k) => ReverseUseGoes(b, locks, t, t', k);
    case DoCreatePayment(contact, account, received, direct) => CreatePaymentGoes(b, locks, t, t', contact, account, received, direct);
    case DoVoidPayment(p) => VoidPaymentGoes(b, locks, t, t', p);
    case DoApplyUnapplied(p, i, amount) => ApplyGoes(b, locks, t, t', p, i, amount);
    case DoReverseApplication(k) => ReverseApplicationGoes(b, locks, t, t', k);
    case DoCreateRefund(contact, source, account, amount) => CreateRefundGoes(b, locks, t, t', contact, source, account, amount);
    case DoVoidRefund(r) => VoidRefundGoes(b, locks, t, t', r);
  }

  lemma StepKeepsHolding(b: Books, locks: Locks, t: Transaction, t': Transaction)
    requires t.Running? && Holds(b, t) && Unlocked(t.claims, locks) && Links(b) && Step(b, locks, t) == Go(t')
    ensures t'.Running? && Holds(b, t') && Unlocked(t'.claims, locks)
  {
    LinksPoint(b);
    hide Links, Anchored, Tame, Unlocked, Shaped, Known, Step, DistinctDocuments;
    StepGoes(b, locks, t, t');
  }

  lemma CreateDocumentEnds(b: Books, contact: nat, lines: seq<DocumentLine>)
    ensures !CreateDocumentStep(b, contact, lines).Go?
  {
  }

  lemma CreateNoteGoes(b: Books, locks: Locks, t: Transaction, t': Transaction, contact: nat, lines: seq<DocumentLine>, original: Option<nat>)
    requires t.Running? && Goes(b, locks, t, CreateNoteStep(b, t, contact, lines, original), t') && t.at <= 1 && t.claims == UNCLAIMED && (t.at == 1 ==> ValidLines(lines))
    ensures Arrives(b, locks, t, t') && t'.at <= 1 && t'.claims == UNCLAIMED && (t'.at == 1 ==> ValidLines(lines))
  {
    hide InOrder, OriginalAccepts, Total;
  }
}
