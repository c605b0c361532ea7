/**
 * What a transaction commits is what its call comes to on the tables as they are then, given that its
 * claims succeeded; and a commit touches no row that another transaction has claimed.
 */
module Commits {
  import opened Wrappers
  import opened Sums
  import opened Posting
  import opened Books
  import opened BooksInvariant
  import opened CashEntries
  import opened Transactions
  import opened Isolation

  // ---- publishing the versions

  lemma PublishedNone<T>(rows: seq<T>)
    ensures Published(rows, map[]) == rows
  {
  }

  lemma PublishedOne<T>(rows: seq<T>, i: nat, v: Version<T>)
    requires i < |rows|
    ensures Published(rows, map[i := v]) == rows[i := v.after]
  {
  }

  lemma PublishedNothing(b: Books)
    ensures Publish(b, UNCLAIMED) == b
  {
    PublishedNone(b.documents);
    PublishedNone(b.notes);
    PublishedNone(b.payments);
    PublishedNone(b.applications);
    PublishedNone(b.uses);
    PublishedNone(b.refunds);
  }

  predicate SameRows(c: Claims, c': Claims) {
    && c'.documents.Keys == c.documents.Keys && c'.notes.Keys == c.notes.Keys && c'.payments.Keys == c.payments.Keys
    && c'.applications.Keys == c.applications.Keys && c'.uses.Keys == c.uses.Keys && c'.refunds.Keys == c.refunds.Keys
  }

  /** Versions of claimed rows, and perhaps new rows after them. */
  ghost predicate Extends(published: Books, b': Books) {
    && b'.side == published.side && b'.gainAccount == published.gainAccount && b'.lossAccount == published.lossAccount
    && published.documents <= b'.documents && published.notes <= b'.notes && published.payments <= b'.payments
    && published.applications <= b'.applications && published.uses <= b'.uses && published.refunds <= b'.refunds
  }

  /** A commit of tame versions of claimed rows, with new rows that refer to claimed rows. */
  lemma PublishingIsFramed(b: Books, c: Claims, c': Claims, b': Books)
    requires Anchored(b, c') && Tame(c') && SameRows(c, c') && Extends(Publish(b, c'), b') && NewRowsFramed(b, b', c)
    ensures Framed(b, b', c)
  {
    hide NewRowsFramed, Published, KeptOutside, AnchoredIn;
    PublishedRows(b.documents, c.documents, c'.documents, b'.documents, (d, d') => DocumentMayBecome(d, d'));
    PublishedRows(b.notes, c.notes, c'.notes, b'.notes, (n, n') => NoteMayBecome(n, n'));
    PublishedRows(b.payments, c.payments, c'.payments, b'.payments, (p, p') => PaymentMayBecome(p, p'));
    PublishedRows(b.applications, c.applications, c'.applications, b'.applications, (a, a') => ApplicationMayBecome(a, a'));
    PublishedRows(b.uses, c.uses, c'.uses, b'.uses, (u, u') => UseMayBecome(u, u'));
    PublishedRows(b.refunds, c.refunds, c'.refunds, b'.refunds, (r, r') => RefundMayBecome(r, r'));
  }

  lemma PublishedRows<T(!new)>(rows: seq<T>, own: map<nat, Version<T>>, own': map<nat, Version<T>>, rows': seq<T>, may: (T, T) -> bool)
    requires AnchoredIn(rows, own') && own'.Keys == own.Keys && Published(rows, own') <= rows'
    requires (forall i :: i in own' ==> may(own'[i].before, own'[i].after)) && forall row: T :: may(row, row)
    ensures KeptOutside(rows, rows', own)
    ensures forall i :: 0 <= i < |rows| ==> may(rows[i], rows'[i])
  {
    var published := Published(rows, own');
    assert forall i :: 0 <= i < |rows| ==> rows'[i] == published[i];
  }

  // ---- documents and notes

  lemma CreateDocumentCommits(b: Books, t: Transaction, contact: nat, lines: seq<DocumentLine>, b': Books)
    requires t.Running? && t.claims == UNCLAIMED && CreateDocumentStep(b, contact, lines) == Commit(b')
    ensures CreateDocument(b, contact, lines) == Done(b') && Framed(b, b', t.claims)
  {
    hide Published, Framed, Total;
    PublishedNothing(b);
    PublishingIsFramed(b, t.claims, t.claims, b');
  }

  lemma FinalizeDocumentCommits(b: Books, locks: Locks, t: Transaction, i: nat, b': Books)
    requires t.Running? && Anchored(b, t.claims) && FinalizeDocumentShaped(t, i) && (t.at >= 1 ==> i < |b.documents| && Total(b.documents[i].lines) > 0)
    requires FinalizeDocumentStep(b, locks, t, i) == Commit(b')
    ensures b.documents[i].status == Draft && FinalizeDocument(b, i) == Done(b') && Framed(b, b', t.claims)
  {
    hide Published, Framed, Total, DocumentEntry;
    var d := b.documents[i];
    assert t.claims.documents[i].before == d;
    var v := Version(d, t.claims.documents[i].after.(entry := Some(|b.journal|)));
    assert t.claims.documents[i := v] == map[i := v];
    PublishedOne(b.documents, i, v);
    PublishedNothing(b);
    PublishingIsFramed(b, t.claims, t.claims.(documents := map[i := v]), b');
    hide Anchored, Tame;
  }

  lemma VoidDocumentCommits(b: Books, locks: Locks, t: Transaction, i: nat, b': Books)
    requires t.Running? && Anchored(b, t.claims) && VoidDocumentShaped(b.side, t, i) && (t.at == 4 ==> UnusedDocumentRow(b, i))
    requires VoidDocumentStep(b, locks, t, i) == Commit(b')
    ensures b.documents[i].status != Voided && VoidDocument(b, i) == Done(b') && Framed(b, b', t.claims)
  {
    hide Published, Framed, Total, PaidDirectly, PaidLater, Credited, Reverse, ReversalId;
    var d := b.documents[i];
    assert t.claims.documents[i].before == d;
    var own := t.claims.documents[i].after;
    var v := Version(d, if t.at == 4 then own.(reversal := Some(ReversalId(b.journal, d.entry.value))) else own);
    assert t.claims.documents[i := v] == map[i := v];
    PublishedOne(b.documents, i, v);
    PublishedNothing(b);
    PublishingIsFramed(b, t.claims, t.claims.(documents := map[i := v]), b');
    hide Anchored, Tame;
  }

  lemma CreateNoteCommits(b: Books, locks: Locks, t: Transaction, contact: nat, lines: seq<DocumentLine>, original: Option<nat>, b': Books)
    requires t.Running? && t.claims == UNCLAIMED && (t.at >= 1 ==> ValidLines(lines)) && CreateNoteStep(b, t, contact, lines, original) == Commit(b')
    ensures CreateNoteClaimed(b, contact, lines, original) == Done(b') && Framed(b, b', t.claims)
  {
    hide Published, Framed, Total, OriginalAccepts;
    PublishedNothing(b);
    PublishingIsFramed(b, t.claims, t.claims, b');
  }

  lemma FinalizeNoteCommits(b: Books, locks: Locks, t: Transaction, n: nat, b': Books)
    requires t.Running? && Anchored(b, t.claims) && FinalizeNoteShaped(t, n) && (t.at >= 1 ==> n < |b.notes| && Total(b.notes[n].lines) > 0)
    requires FinalizeNoteStep(b, locks, t, n) == Commit(b')
    ensures FinalizeNoteClaimed(b, n) == Done(b') && Framed(b, b', t.claims)
  {
    hide Published, Framed, Total, NoteEntry, OriginalAccepts;
    var note := b.notes[n];
    assert t.claims.notes[n].before == note;
    var v := Version(note, t.claims.notes[n].after.(entry := Some(|b.journal|)));
    assert t.claims.notes[n := v] == map[n := v];
    PublishedOne(b.notes, n, v);
    PublishedNothing(b);
    PublishingIsFramed(b, t.claims, t.claims.(notes := map[n := v]), b');
    hide Anchored, Tame;
  }

  lemma VoidNoteCommits(b: Books, locks: Locks, t: Transaction, n: nat, b': Books)
    requires t.Running? && Anchored(b, t.claims) && VoidNoteShaped(b.side, t, n) && VoidNoteStep(b, locks, t, n) == Commit(b')
    ensures VoidNoteClaimed(b, n) == Done(b') && Framed(b, b', t.claims)
  {
    hide Published, Framed, Total, NoteInUse, Reverse, ReversalId;
    var note := b.notes[n];
    assert t.claims.notes[n].before == note;
    var own := t.claims.notes[n].after;
    var v := Version(note, if t.at == 3 then own.(reversal := Some(ReversalId(b.journal, note.entry.value))) else own);
    assert t.claims.notes[n := v] == map[n := v];
    PublishedOne(b.notes, n, v);
    PublishedNothing(b);
    PublishingIsFramed(b, t.claims, t.claims.(notes := map[n := v]), b');
    hide Anchored, Tame;
  }

  lemma ApplyNoteCommits(b: Books, locks: Locks, t: Transaction, n: nat, i: nat, amount: Money, b': Books)
    requires t.Running? && Anchored(b, t.claims) && Tame(t.claims) && ApplyNoteShaped(t, n, i, amount) && ApplyNoteStep(b, locks, t, n, i, amount) == Commit(b')
    ensures ApplyNote(b, n, i, amount) == Done(b') && Framed(b, b', t.claims)
  {
    hide Published, Framed, Total;
    PublishedOne(b.notes, n, t.claims.notes[n]);
    PublishedOne(b.documents, i, t.claims.documents[i]);
    PublishedNothing(b);
    PublishingIsFramed(b, t.claims, t.claims, b');
    hide Anchored, Tame;
  }

  lemma ReverseUseCommits(b: Books, locks: Locks, t: Transaction, k: nat, b': Books)
    requires t.Running? && Anchored(b, t.claims) && Tame(t.claims) && ReverseUseShaped(t, k) && ReverseUseStep(b, locks, t, k) == Commit(b')
    ensures ReverseUse(b, k) == Done(b') && Framed(b, b', t.claims)
  {
    hide Published, Framed, Total;
    var u := b.uses[k];
    assert t.claims.uses[k].before == u;
    PublishedOne(b.uses, k, t.claims.uses[k]);
    PublishedOne(b.notes, u.note, t.claims.notes[u.note]);
    PublishedOne(b.documents, u.document, t.claims.documents[u.document]);
    PublishedNothing(b);
    PublishingIsFramed(b, t.claims, t.claims, b');
    hide Anchored, Tame;
  }

  // ---- payments

  /** Claiming every document once comes to the same as the payment's own list of allocations. */
  lemma MovedIsAllocated(documents: seq<Document>, own: map<nat, Version<Document>>, direct: seq<Direct>, sign: int)
    requires sign == 1 || sign == -1
    requires DistinctDocuments(direct) && AnchoredIn(documents, own) && Moving(own, direct, |direct|, sign)
    ensures Published(documents, own) == Allocated(documents, direct, sign)
  {
    assert direct[..|direct|] == direct;
    hide DistinctDocuments, Published, Allocated, Named, Moving, AnchoredIn;
    forall i | 0 <= i < |documents|
      ensures Published(documents, own)[i] == Allocated(documents, direct, sign)[i]
    {
      MovedAt(documents, own, direct, sign, i);
    }
  }

  lemma MovedAt(documents: seq<Document>, own: map<nat, Version<Document>>, direct: seq<Direct>, sign: int, i: nat)
    requires sign == 1 || sign == -1
    requires DistinctDocuments(direct) && AnchoredIn(documents, own) && Moving(own, direct, |direct|, sign) && i < |documents|
    ensures Published(documents, own)[i] == Allocated(documents, direct, sign)[i]
  {
    var moved := SumOf(direct, OnTarget(i));
    assert Allocated(documents, direct, sign)[i] == Moved(documents[i], sign * moved) by {
      AllocatedAt(documents, direct, sign, i);
    }
    hide *;
    NamedByAll(own, direct, sign);
    if i in own {
      var j := IndexOf(direct, i);
      TargetAmount(direct, j);
      MovedBy(own, direct, sign, j);
      PublishedOwn(documents, own, i);
    } else {
      NotNamed(direct, i);
      PublishedOther(documents, own, i);
    }
  }

  lemma PublishedOwn<T(!new)>(rows: seq<T>, own: map<nat, Version<T>>, i: nat)
    requires AnchoredIn(rows, own) && i in own
    ensures i < |rows| && own[i].before == rows[i] && Published(rows, own)[i] == own[i].after
  {
  }

  lemma PublishedOther<T>(rows: seq<T>, own: map<nat, Version<T>>, i: nat)
    requires i < |rows| && i !in own
    ensures Published(rows, own)[i] == rows[i]
  {
  }

  lemma NamedByAll(own: map<nat, Version<Document>>, direct: seq<Direct>, sign: int)
    requires Moving(own, direct, |direct|, sign)
    ensures own.Keys == Named(direct)
  {
    assert direct[..|direct|] == direct;
  }

  lemma MovedBy(own: map<nat, Version<Document>>, direct: seq<Direct>, sign: int, j: nat)
    requires Moving(own, direct, |direct|, sign) && j < |direct|
    ensures direct[j].document in own && own[direct[j].document].after == Moved(own[direct[j].document].before, sign * direct[j].amount)
  {
  }

  lemma IndexOf(direct: seq<Direct>, i: nat) returns (j: nat)
    requires i in Named(direct)
    ensures j < |direct| && direct[j].document == i
  {
    j :| 0 <= j < |direct| && direct[j].document == i;
  }

  lemma NotNamed(direct: seq<Direct>, i: nat)
    requires i !in Named(direct)
    ensures SumOf(direct, OnTarget(i)) == 0
  {
    SumZero(direct, OnTarget(i));
  }

  lemma {:induction false} TargetAmount(direct: seq<Direct>, j: nat)
    requires j < |direct| && DistinctDocuments(direct)
    ensures SumOf(direct, OnTarget(direct[j].document)) == direct[j].amount
  {
    var n := |direct| - 1;
    if j < n {
      TargetAmount(direct[..n], j);
    } else {
      SumZero(direct[..n], OnTarget(direct[j].document));
    }
  }

  lemma CreatePaymentCommits(b: Books, locks: Locks, t: Transaction, contact: nat, account: Account, received: Money, direct: seq<Direct>, b': Books)
    requires t.Running? && Anchored(b, t.claims) && Tame(t.claims) && CreatePaymentShaped(t, contact, direct)
    requires t.at >= 1 ==> PaymentAcceptable(b, account, received, direct)
    requires CreatePaymentStep(b, locks, t, contact, account, received, direct) == Commit(b')
    ensures CreatePaymentClaimed(b, contact, account, received, direct) == Done(b') && Framed(b, b', t.claims)
  {
    hide Published, Framed, Total, PlanPostable, ValidDirect;
    assert t.at == |direct| + 1 && direct[..|direct|] == direct;
    MovedIsAllocated(b.documents, t.claims.documents, direct, -1);
    SpentWereSpendable(b, t, contact, direct);
    PublishedNothing(b);
    hide Published, Allocated, AllSpendable, Anchored, Moving, PaymentEntry, DistinctDocuments;
    CreatePaymentFramed(b, t, direct, b');
    hide Framed, Tame;
  }

  lemma SpentWereSpendable(b: Books, t: Transaction, contact: nat, direct: seq<Direct>)
    requires t.Running? && Anchored(b, t.claims) && CreatePaymentShaped(t, contact, direct) && t.at == |direct| + 1
    ensures AllSpendable(b.documents, contact, direct)
  {
    hide Moving, DocumentSettles;
  }

  lemma CreatePaymentFramed(b: Books, t: Transaction, direct: seq<Direct>, b': Books)
    requires t.Running? && Anchored(b, t.claims) && Tame(t.claims) && t.claims == UNCLAIMED.(documents := t.claims.documents)
    requires Moving(t.claims.documents, direct, |direct|, -1)
    requires |b'.payments| == |b.payments| + 1 && b'.payments[|b.payments|].direct == direct
    requires b' == Publish(b, t.claims).(payments := b.payments + [b'.payments[|b.payments|]], journal := b'.journal)
    ensures Framed(b, b', t.claims)
  {
    assert direct[..|direct|] == direct;
    PublishedNothing(b);
    hide Published;
    PublishingIsFramed(b, t.claims, t.claims, b');
  }

  lemma VoidPaymentCommits(b: Books, locks: Locks, t: Transaction, p: nat, b': Books)
    requires t.Running? && Anchored(b, t.claims) && Tame(t.claims) && VoidPaymentShaped(b.side, t, p)
    requires VoidPaymentStep(b, locks, t, p) == Commit(b') && (p < |b.payments| ==> DistinctDocuments(b.payments[p].direct))
    ensures VoidPaymentClaimed(b, p) == Done(b') && Framed(b, b', t.claims)
  {
    hide Published, Framed, Total, Reverse, ReversalId, PaymentInUse, Restorable, Restoring, Moving, Allocated, DistinctDocuments, Tame;
    var payment := b.payments[p];
    assert t.claims.payments[p].before == payment;
    RestoredWereRestorable(b, t, p);
    MovedIsAllocated(b.documents, t.claims.documents, payment.direct, 1);
    var v := Version(payment, t.claims.payments[p].after.(reversal := Some(ReversalId(b.journal, payment.entry))));
    assert t.claims.payments[p := v] == map[p := v];
    PublishedOne(b.payments, p, v);
    PublishedNothing(b);
    VoidPaymentFramed(b, t, p, v, b');
  }

  lemma VoidPaymentFramed(b: Books, t: Transaction, p: nat, v: Version<Payment>, b': Books)
    requires t.Running? && Anchored(b, t.claims) && Tame(t.claims) && p in t.claims.payments
    requires v.before == t.claims.payments[p].before && v.after.direct == v.before.direct && (v.after.posted ==> v.before.posted)
    requires t.claims == UNCLAIMED.(documents := t.claims.documents, payments := t.claims.payments)
    requires b' == Publish(b, t.claims.(payments := t.claims.payments[p := v])).(journal := b'.journal)
    ensures Framed(b, b', t.claims)
  {
    hide Published, Framed;
    PublishingIsFramed(b, t.claims, t.claims.(payments := t.claims.payments[p := v]), b');
  }

  lemma RestoredWereRestorable(b: Books, t: Transaction, p: nat)
    requires t.Running? && Anchored(b, t.claims) && VoidPaymentShaped(b.side, t, p) && p in t.claims.payments && t.at >= |b.payments[p].direct| + 3
    ensures Restorable(b, b.payments[p].direct) && Moving(t.claims.documents, b.payments[p].direct, |b.payments[p].direct|, 1)
  {
    hide Moving, Total;
  }

  lemma ApplyCommits(b: Books, locks: Locks, t: Transaction, p: nat, i: nat, amount: Money, b': Books)
    requires t.Running? && Anchored(b, t.claims) && Tame(t.claims) && ApplyShaped(t, p, i, amount)
    requires t.at >= 1 && t.plan.Settled? ==> AdjustmentConfigured(b, t.plan.onPayment - t.plan.onDocument)
    requires ApplyStep(b, locks, t, p, i, amount) == Commit(b')
    ensures t.plan.Settled? && ApplySettled(b, p, i, amount, t.plan.onDocument, t.plan.onPayment) == Done(b') && Framed(b, b', t.claims)
  {
    hide Published, Framed, Total, Allocate, AdjustmentConfigured, AdjustmentEntry, Post;
    PublishedOne(b.payments, p, t.claims.payments[p]);
    PublishedOne(b.documents, i, t.claims.documents[i]);
    PublishedNothing(b);
    PublishingIsFramed(b, t.claims, t.claims, b');
    hide Anchored, Tame;
  }

  lemma ReverseApplicationCommits(b: Books, locks: Locks, t: Transaction, k: nat, b': Books)
    requires t.Running? && Anchored(b, t.claims) && Tame(t.claims) && ReverseApplicationShaped(t, k) && ReverseApplicationStep(b, locks, t, k) == Commit(b')
    ensures ReverseApplication(b, k) == Done(b') && Framed(b, b', t.claims)
  {
    hide Published, Framed, Total, Reverse;
    var a := b.applications[k];
    assert t.claims.applications[k].before == a;
    PublishedOne(b.applications, k, t.claims.applications[k]);
    PublishedOne(b.payments, a.payment, t.claims.payments[a.payment]);
    PublishedOne(b.documents, a.document, t.claims.documents[a.document]);
    PublishedNothing(b);
    PublishingIsFramed(b, t.claims, t.claims, b');
    hide Anchored, Tame;
  }

  // ---- refunds

  /** Publishing a refund's claimed source moves its unapplied amount. */
  lemma SourcePublished(b: Books, c: Claims, before: Claims, source: RefundSource, change: int)
    requires Anchored(b, c) && SourceClaimed(c, before, source, change) && before.payments == map[] && before.notes == map[]
    ensures SourceOpen(b, source)
    ensures Publish(b, c).payments == SourceMoved(b, source, change).payments && Publish(b, c).notes == SourceMoved(b, source, change).notes
    ensures match source
            case FromPayment(p) => c.payments[p].before == b.payments[p]
            case FromNote(n) => c.notes[n].before == b.notes[n]
  {
    PublishedNone(b.payments);
    PublishedNone(b.notes);
    match source
    case FromPayment(p) => PublishedOne(b.payments, p, c.payments[p]);
    case FromNote(n) => PublishedOne(b.notes, n, c.notes[n]);
  }

  lemma CreateRefundCommits(b: Books, locks: Locks, t: Transaction, contact: nat, source: RefundSource, account: Account, amount: Money, b': Books)
    requires t.Running? && Anchored(b, t.claims) && Tame(t.claims) && CreateRefundShaped(t, contact, source, amount)
    requires t.at >= 1 ==> amount > 0 && MayHoldCash(b.side, account)
    requires CreateRefundStep(b, locks, t, contact, source, account, amount) == Commit(b')
    ensures CreateRefund(b, contact, source, account, amount) == Done(b') && Framed(b, b', t.claims)
  {
    hide Published, Framed, Total, RefundEntry, MayHoldCash;
    SourcePublished(b, t.claims, UNCLAIMED, source, -(amount as int));
    PublishedNothing(b);
    PublishingIsFramed(b, t.claims, t.claims, b');
    hide Anchored, Tame;
  }

  lemma VoidRefundCommits(b: Books, locks: Locks, t: Transaction, r: nat, b': Books)
    requires t.Running? && Anchored(b, t.claims) && Tame(t.claims) && VoidRefundShaped(t, r) && VoidRefundStep(b, locks, t, r) == Commit(b')
    ensures b.refunds[r].posted && VoidRefund(b, r) == Done(b') && Framed(b, b', t.claims)
  {
    hide Published, Framed, Total, Reverse, ReversalId, Tame;
    var refund := b.refunds[r];
    assert t.claims.refunds[r].before == refund;
    SourcePublished(b, t.claims, UNCLAIMED.(refunds := t.claims.refunds), refund.source, refund.amount);
    var v := Version(refund, t.claims.refunds[r].after.(reversal := Some(ReversalId(b.journal, refund.entry))));
    assert t.claims.refunds[r := v] == map[r := v];
    PublishedOne(b.refunds, r, v);
    PublishedNothing(b);
    VoidRefundFramed(b, t, r, v, b');
  }

  lemma VoidRefundFramed(b: Books, t: Transaction, r: nat, v: Version<Refund>, b': Books)
    requires t.Running? && Anchored(b, t.claims) && Tame(t.claims) && r in t.claims.refunds
    requires v.before == t.claims.refunds[r].before && v.after.source == v.before.source && (v.after.posted ==> v.before.posted)
    requires b' == Publish(b, t.claims.(refunds := t.claims.refunds[r := v])).(journal := b'.journal)
    ensures Framed(b, b', t.claims)
  {
    hide Published, Framed;
    PublishingIsFramed(b, t.claims, t.claims.(refunds := t.claims.refunds[r := v]), b');
  }
}
