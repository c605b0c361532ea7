/**
 * What a transaction in progress knows: the rows it has claimed are committed as it found them, what
 * it read of the rest cannot change, and what it counted cannot grow. A commit of another takes none
 * of that away, and its own next step adds to it.
 */
module Isolation {
  import opened Wrappers
  import opened Sums
  import opened Posting
  import opened Books
  import opened BooksInvariant
  import opened Transactions

  // ---- claimed rows

  ghost predicate AnchoredIn<T(!new)>(rows: seq<T>, own: map<nat, Version<T>>) {
    forall i :: i in own ==> i < |rows| && rows[i] == own[i].before
  }

  /** Claimed rows are committed as they were when they were claimed. */
  ghost predicate Anchored(b: Books, c: Claims) {
    && AnchoredIn(b.documents, c.documents) && AnchoredIn(b.notes, c.notes) && AnchoredIn(b.payments, c.payments)
    && AnchoredIn(b.applications, c.applications) && AnchoredIn(b.uses, c.uses) && AnchoredIn(b.refunds, c.refunds)
  }

  /** Rows keep what they say, and nothing puts them back in force. */
  predicate DocumentMayBecome(d: Document, d': Document) {
    d'.lines == d.lines && (d.status != Draft ==> d'.status != Draft) && (d.status == Voided ==> d'.status == Voided)
  }

  predicate NoteMayBecome(n: Note, n': Note) {
    n'.lines == n.lines && (n.status != Draft ==> n'.status != Draft) && (n.status == Voided ==> n'.status == Voided)
  }

  predicate PaymentMayBecome(p: Payment, p': Payment) {
    p'.direct == p.direct && (p'.posted ==> p.posted)
  }

  predicate ApplicationMayBecome(a: Application, a': Application) {
    a'.payment == a.payment && a'.document == a.document && (a'.active ==> a.active)
  }

  predicate UseMayBecome(u: CreditUse, u': CreditUse) {
    u'.note == u.note && u'.document == u.document && (u'.active ==> u.active)
  }

  predicate RefundMayBecome(r: Refund, r': Refund) {
    r'.source == r.source && (r'.posted ==> r.posted)
  }

  ghost predicate Tame(c: Claims) {
    && (forall i :: i in c.documents ==> DocumentMayBecome(c.documents[i].before, c.documents[i].after))
    && (forall i :: i in c.notes ==> NoteMayBecome(c.notes[i].before, c.notes[i].after))
    && (forall i :: i in c.payments ==> PaymentMayBecome(c.payments[i].before, c.payments[i].after))
    && (forall i :: i in c.applications ==> ApplicationMayBecome(c.applications[i].before, c.applications[i].after))
    && (forall i :: i in c.uses ==> UseMayBecome(c.uses[i].before, c.uses[i].after))
    && (forall i :: i in c.refunds ==> RefundMayBecome(c.refunds[i].before, c.refunds[i].after))
  }

  // ---- what has been claimed at each step, and in what state it was

  function OneDocument(i: nat, d: Document, d': Document): Claims {
    UNCLAIMED.(documents := map[i := Version(d, d')])
  }

  function OneNote(n: nat, note: Note, note': Note): Claims {
    UNCLAIMED.(notes := map[n := Version(note, note')])
  }

  ghost predicate FinalizeDocumentShaped(t: Transaction, i: nat)
    requires t.Running?
  {
    && t.at <= 2
    && if t.at < 2 then t.claims == UNCLAIMED
       else
         && i in t.claims.documents
         && var d := t.claims.documents[i].before;
           d.status == Draft && t.claims == OneDocument(i, d, d.(status := Finalized, balance := Total(d.lines), txBalance := Total(d.lines)))
  }

  ghost predicate VoidDocumentShaped(side: Side, t: Transaction, i: nat)
    requires t.Running?
  {
    && t.at <= 6
    && if t.at < 2 || t.at == 5 then t.claims == UNCLAIMED
       else
         && i in t.claims.documents
         && var d := t.claims.documents[i].before;
           if t.at == 2 || (t.at == 3 && side == Payable) then t.claims == OneDocument(i, d, d)
           else
             && d.status == (if t.at == 6 then Draft else Finalized)
             && t.claims == OneDocument(i, d, d.(status := Voided, balance := 0, txBalance := 0))
  }

  ghost predicate FinalizeNoteShaped(t: Transaction, n: nat)
    requires t.Running?
  {
    && t.at <= 2
    && if t.at < 2 then t.claims == UNCLAIMED
       else
         && n in t.claims.notes
         && var note := t.claims.notes[n].before;
           note.status == Draft && t.claims == OneNote(n, note, note.(status := Finalized, unapplied := Total(note.lines)))
  }

  ghost predicate VoidNoteShaped(side: Side, t: Transaction, n: nat)
    requires t.Running?
  {
    && t.at <= 5
    && if t.at < 2 || t.at == 4 || (t.at == 2 && side == Payable) then t.claims == UNCLAIMED
       else
         && n in t.claims.notes
         && var note := t.claims.notes[n].before;
           note.status == (if t.at == 5 then Draft else Finalized) && t.claims == OneNote(n, note, note.(status := Voided))
  }

  ghost predicate ApplyNoteShaped(t: Transaction, n: nat, i: nat, amount: Money)
    requires t.Running?
  {
    && t.at <= 3 && (t.at >= 1 ==> amount > 0)
    && if t.at < 2 then t.claims == UNCLAIMED
       else
         && n in t.claims.notes
         && var note := t.claims.notes[n].before;
           && NoteCovers(note, amount)
           && var claims := OneNote(n, note, note.(unapplied := note.unapplied - amount));
             if t.at == 2 then t.claims == claims
             else
               && i in t.claims.documents
               && var d := t.claims.documents[i].before;
                 && DocumentCovers(d, note.contact, amount)
                 && t.claims == claims.(documents := map[i := Version(d, d.(balance := d.balance - amount))])
  }

  ghost predicate ReverseUseShaped(t: Transaction, k: nat)
    requires t.Running?
  {
    && t.at <= 4
    && if t.at < 2 then t.claims == UNCLAIMED
       else
         && k in t.claims.uses
         && var u := t.claims.uses[k].before;
           && u.active
           && var claims := UNCLAIMED.(uses := map[k := Version(u, u.(active := false))]);
             if t.at == 2 then t.claims == claims
             else
               && u.note in t.claims.notes
               && var note := t.claims.notes[u.note].before;
                 && NoteTakesBack(note, u.amount)
                 && var restored := claims.(notes := map[u.note := Version(note, note.(unapplied := note.unapplied + u.amount))]);
                   if t.at == 3 then t.claims == restored
                   else
                     && u.document in t.claims.documents
                     && var d := t.claims.documents[u.document].before;
                       && DocumentTakesCredit(d, u.amount)
                       && t.claims == restored.(documents := map[u.document := Version(d, d.(balance := d.balance + u.amount))])
  }

  function Named(direct: seq<Direct>): set<nat> {
    set j | 0 <= j < |direct| :: direct[j].document
  }

  /** The first `k` allocations are claimed: their documents could be moved, and are. */
  ghost predicate Moving(own: map<nat, Version<Document>>, direct: seq<Direct>, k: nat, sign: int)
    requires k <= |direct|
  {
    && own.Keys == Named(direct[..k])
    && forall j :: 0 <= j < k ==>
         var i := direct[j].document;
         i in own && own[i].after == Moved(own[i].before, sign * direct[j].amount)
  }

  ghost predicate Spending(own: map<nat, Version<Document>>, direct: seq<Direct>, k: nat, contact: nat)
    requires k <= |direct|
  {
    && Moving(own, direct, k, -1)
    && forall j :: 0 <= j < k ==>
         && direct[j].document in own
         && DocumentSettles(own[direct[j].document].before, contact, direct[j].amount, direct[j].amount)
  }

  ghost predicate Restoring(side: Side, own: map<nat, Version<Document>>, direct: seq<Direct>, k: nat)
    requires k <= |direct|
  {
    && Moving(own, direct, k, 1)
    && forall j :: 0 <= j < k ==> direct[j].document in own && MayRestore(side, own[direct[j].document].before, direct[j].amount)
  }

  ghost predicate CreatePaymentShaped(t: Transaction, contact: nat, direct: seq<Direct>)
    requires t.Running?
  {
    && t.at <= |direct| + 1 && t.claims == UNCLAIMED.(documents := t.claims.documents)
    && if t.at == 0 then t.claims.documents == map[]
       else
         && DistinctDocuments(direct) && (forall k :: 0 <= k < |direct| ==> direct[k].amount > 0)
         && Spending(t.claims.documents, direct, t.at - 1, contact)
  }

  ghost predicate VoidPaymentShaped(side: Side, t: Transaction, p: nat)
    requires t.Running?
  {
    if t.at < 3 then t.claims == UNCLAIMED
    else
      && p in t.claims.payments
      && var payment := t.claims.payments[p].before;
        && payment.posted && t.at - 3 <= |payment.direct|
        && t.claims == UNCLAIMED.(documents := t.claims.documents, payments := map[p := Version(payment, payment.(posted := false))])
        && Restoring(side, t.claims.documents, payment.direct, t.at - 3)
  }

  ghost predicate ApplyShaped(t: Transaction, p: nat, i: nat, amount: Money)
    requires t.Running?
  {
    && t.at <= 3 && (t.at >= 1 ==> amount > 0 && t.plan.Settled?)
    && if t.at < 2 then t.claims == UNCLAIMED
       else
         && p in t.claims.payments
         && var payment := t.claims.payments[p].before;
           && PaymentCovers(payment, amount, t.plan.onPayment)
           && var claims := UNCLAIMED.(payments := map[p := Version(payment,
                              payment.(unapplied := payment.unapplied - t.plan.onPayment, txUnapplied := payment.txUnapplied - amount))]);
             if t.at == 2 then t.claims == claims
             else
               && i in t.claims.documents
               && var d := t.claims.documents[i].before;
                 && DocumentSettles(d, payment.contact, amount, t.plan.onDocument)
                 && t.claims == claims.(documents := map[i := Version(d, d.(balance := d.balance - t.plan.onDocument, txBalance := d.txBalance - amount))])
  }

  ghost predicate ReverseApplicationShaped(t: Transaction, k: nat)
    requires t.Running?
  {
    && t.at <= 4
    && if t.at < 2 then t.claims == UNCLAIMED
       else
         && k in t.claims.applications
         && var a := t.claims.applications[k].before;
           && a.active
           && var claims := UNCLAIMED.(applications := map[k := Version(a, a.(active := false))]);
             if t.at == 2 then t.claims == claims
             else
               && a.payment in t.claims.payments
               && var payment := t.claims.payments[a.payment].before;
                 && PaymentTakesBack(payment, a)
                 && var restored := claims.(payments := map[a.payment := Version(payment,
                                      payment.(unapplied := payment.unapplied + a.onPayment, txUnapplied := payment.txUnapplied + a.txAmount))]);
                   if t.at == 3 then t.claims == restored
                   else
                     && a.document in t.claims.documents
                     && var d := t.claims.documents[a.document].before;
                       && DocumentTakesBack(d, a)
                       && t.claims == restored.(documents := map[a.document := Version(d,
                                        d.(balance := d.balance + a.onDocument, txBalance := d.txBalance + a.txAmount))])
  }

  /** A refund's source is claimed: it was open, and its unapplied amount is moved. */
  ghost predicate SourceClaimed(c: Claims, before: Claims, source: RefundSource, change: int) {
    match source
    case FromPayment(p) =>
      && p in c.payments && c.payments[p].before.posted
      && c == before.(payments := map[p := Version(c.payments[p].before, c.payments[p].before.(unapplied := c.payments[p].before.unapplied + change))])
    case FromNote(n) =>
      && n in c.notes && c.notes[n].before.status == Finalized
      && c == before.(notes := map[n := Version(c.notes[n].before, c.notes[n].before.(unapplied := c.notes[n].before.unapplied + change))])
  }

  ghost predicate CreateRefundShaped(t: Transaction, contact: nat, source: RefundSource, amount: Money)
    requires t.Running?
  {
    && t.at <= 2
    && if t.at < 2 then t.claims == UNCLAIMED
       else
         && SourceClaimed(t.claims, UNCLAIMED, source, -(amount as int))
         && match source
            case FromPayment(p) => t.claims.payments[p].before.contact == contact && t.claims.payments[p].before.unapplied >= amount
            case FromNote(n) => t.claims.notes[n].before.contact == contact && t.claims.notes[n].before.unapplied >= amount
  }

  ghost predicate VoidRefundShaped(t: Transaction, r: nat)
    requires t.Running?
  {
    && t.at <= 3
    && if t.at < 2 then t.claims == UNCLAIMED
       else
         && r in t.claims.refunds
         && var refund := t.claims.refunds[r].before;
           && refund.posted
           && var claims := UNCLAIMED.(refunds := map[r := Version(refund, refund.(posted := false))]);
             if t.at == 2 then t.claims == claims
             else
               && SourceClaimed(t.claims, claims, refund.source, refund.amount)
               && match refund.source
                  case FromPayment(p) => t.claims.payments[p].before.unapplied <= t.claims.payments[p].before.received - refund.amount
                  case FromNote(n) => t.claims.notes[n].before.unapplied <= Total(t.claims.notes[n].before.lines) - refund.amount
  }

  ghost predicate Shaped(side: Side, t: Transaction)
    requires t.Running?
  {
    match t.call
    case DoCreateDocument(contact, lines) => t.at == 0 && t.claims == UNCLAIMED
    case DoFinalizeDocument(i) => FinalizeDocumentShaped(t, i)
    case DoVoidDocument(i) => VoidDocumentShaped(side, t, i)
    case DoCreateNote(contact, lines, original) => t.at <= 1 && t.claims == UNCLAIMED && (t.at == 1 ==> ValidLines(lines))
    case DoFinalizeNote(n) => FinalizeNoteShaped(t, n)
    case DoVoidNote(n) => VoidNoteShaped(side, t, n)
    case DoApplyNote(n, i, amount) => ApplyNoteShaped(t, n, i, amount)
    case DoReverseUse(k) => ReverseUseShaped(t, k)
    case DoCreatePayment(contact, account, received, direct) => CreatePaymentShaped(t, contact, direct)
    case DoVoidPayment(p) => VoidPaymentShaped(side, t, p)
    case DoApplyUnapplied(p, i, amount) => ApplyShaped(t, p, i, amount)
    case DoReverseApplication(k) => ReverseApplicationShaped(t, k)
    case DoCreateRefund(contact, source, account, amount) => CreateRefundShaped(t, contact, source, amount)
    case DoVoidRefund(r) => VoidRefundShaped(t, r)
  }

  // ---- what it read and counted

  predicate UnusedDocumentRow(b: Books, i: nat) {
    !PaidDirectly(b, i) && !PaidLater(b, i) && !Credited(b, i)
  }

  /** Facts about the committed tables that no commit of another changes: fixed fields, and counts made under a lock. */
  ghost predicate Known(b: Books, t: Transaction)
    requires t.Running?
  {
    match t.call
    case DoFinalizeDocument(i) => t.at >= 1 ==> i < |b.documents| && Total(b.documents[i].lines) > 0
    case DoFinalizeNote(n) => t.at >= 1 ==> n < |b.notes| && Total(b.notes[n].lines) > 0
    case DoVoidDocument(i) => t.at == 4 || (t.at == 3 && b.side == Payable) ==> UnusedDocumentRow(b, i)
    case DoVoidNote(n) => t.at == 3 && b.side == Receivable ==> !NoteInUse(b, n)
    case DoCreatePayment(contact, account, received, direct) => t.at >= 1 ==> PaymentAcceptable(b, account, received, direct)
    case DoApplyUnapplied(p, i, amount) => t.at >= 1 ==> t.plan.Settled? && AdjustmentConfigured(b, t.plan.onPayment - t.plan.onDocument)
    case DoCreateRefund(contact, source, account, amount) => t.at >= 1 ==> amount > 0 && MayHoldCash(b.side, account)
    case _ => true
  }

  ghost predicate Holds(b: Books, t: Transaction)
    requires t.Running?
  {
    Anchored(b, t.claims) && Tame(t.claims) && Shaped(b.side, t) && Known(b, t)
  }

  // ---- a commit leaves the rows of the others alone

  ghost predicate Apart(c: Claims, d: Claims) {
    && c.documents.Keys !! d.documents.Keys && c.notes.Keys !! d.notes.Keys && c.payments.Keys !! d.payments.Keys
    && c.applications.Keys !! d.applications.Keys && c.uses.Keys !! d.uses.Keys && c.refunds.Keys !! d.refunds.Keys
  }

  /** Rows stay where they are, and outside the claims as they are. */
  ghost predicate KeptOutside<T>(rows: seq<T>, rows': seq<T>, own: map<nat, Version<T>>) {
    |rows'| >= |rows| && forall i :: 0 <= i < |rows| && i !in own ==> rows'[i] == rows[i]
  }

  /** What committing a transaction with these claims may have changed: claimed rows, and new rows that refer to claimed rows. */
  ghost predicate Framed(b: Books, b': Books, c: Claims) {
    && b'.side == b.side && b'.gainAccount == b.gainAccount && b'.lossAccount == b.lossAccount
    && KeptOutside(b.documents, b'.documents, c.documents) && KeptOutside(b.notes, b'.notes, c.notes)
    && KeptOutside(b.payments, b'.payments, c.payments) && KeptOutside(b.applications, b'.applications, c.applications)
    && KeptOutside(b.uses, b'.uses, c.uses) && KeptOutside(b.refunds, b'.refunds, c.refunds)
    && FramedRows(b, b') && NewRowsFramed(b, b', c)
  }

  ghost predicate FramedRows(b: Books, b': Books)
    requires |b'.documents| >= |b.documents| && |b'.notes| >= |b.notes| && |b'.payments| >= |b.payments|
    requires |b'.applications| >= |b.applications| && |b'.uses| >= |b.uses| && |b'.refunds| >= |b.refunds|
  {
    && (forall i :: 0 <= i < |b.documents| ==> DocumentMayBecome(b.documents[i], b'.documents[i]))
    && (forall i :: 0 <= i < |b.notes| ==> NoteMayBecome(b.notes[i], b'.notes[i]))
    && (forall i :: 0 <= i < |b.payments| ==> PaymentMayBecome(b.payments[i], b'.payments[i]))
    && (forall i :: 0 <= i < |b.applications| ==> ApplicationMayBecome(b.applications[i], b'.applications[i]))
    && (forall i :: 0 <= i < |b.uses| ==> UseMayBecome(b.uses[i], b'.uses[i]))
    && (forall i :: 0 <= i < |b.refunds| ==> RefundMayBecome(b.refunds[i], b'.refunds[i]))
  }

  ghost predicate NewRowsFramed(b: Books, b': Books, c: Claims) {
    && (forall p :: |b.payments| <= p < |b'.payments| ==> Named(b'.payments[p].direct) <= c.documents.Keys)
    && (forall k :: |b.applications| <= k < |b'.applications| ==>
          b'.applications[k].payment in c.payments && b'.applications[k].document in c.documents)
    && (forall k :: |b.uses| <= k < |b'.uses| ==> b'.uses[k].note in c.notes && b'.uses[k].document in c.documents)
    && (forall r :: |b.refunds| <= r < |b'.refunds| ==>
          match b'.refunds[r].source
          case FromPayment(p) => p in c.payments
          case FromNote(n) => n in c.notes)
  }

  lemma AnchoredOn(b: Books, b': Books, c: Claims, other: Claims)
    requires Framed(b, b', c) && Apart(c, other) && Anchored(b, other)
    ensures Anchored(b', other)
  {
    hide FramedRows, NewRowsFramed;
  }

  /** A count of a locked document stays at nothing: uses refer to rows, and new ones to rows of their own transaction. */
  lemma DocumentStaysUnused(b: Books, b': Books, c: Claims, i: nat)
    requires Framed(b, b', c) && i !in c.documents && UnusedDocumentRow(b, i)
    requires forall k :: 0 <= k < |b.applications| ==> b.applications[k].payment < |b.payments|
    requires forall k :: 0 <= k < |b.uses| ==> b.uses[k].note < |b.notes|
    ensures UnusedDocumentRow(b', i)
  {
    hide KeptOutside;
  }

  lemma NoteStaysUnused(b: Books, b': Books, c: Claims, n: nat)
    requires Framed(b, b', c) && n !in c.notes && !NoteInUse(b, n)
    ensures !NoteInUse(b', n)
  {
    hide KeptOutside;
  }

  lemma KnownOn(b: Books, b': Books, c: Claims, other: Transaction)
    requires other.Running? && Framed(b, b', c) && Apart(c, other.claims) && Links(b)
    requires Shaped(b.side, other) && Known(b, other)
    ensures Known(b', other)
  {
    hide NewRowsFramed, Total;
    match other.call
    case DoVoidDocument(i) =>
      hide KeptOutside;
      if other.at == 4 || (other.at == 3 && b.side == Payable) {
        LinksPoint(b);
        DocumentStaysUnused(b, b', c, i);
      }
    case DoVoidNote(n) =>
      hide KeptOutside;
      if other.at == 3 && b.side == Receivable {
        NoteStaysUnused(b, b', c, n);
      }
    case _ =>
      hide Links, Shaped;
  }

  /** What the others know stays true. */
  lemma HoldsOn(b: Books, b': Books, c: Claims, other: Transaction)
    requires other.Running? && Framed(b, b', c) && Apart(c, other.claims) && Links(b) && Holds(b, other)
    ensures Holds(b', other)
  {
    AnchoredOn(b, b', c, other.claims);
    KnownOn(b, b', c, other);
    hide Anchored, Tame, KeptOutside, FramedRows, NewRowsFramed, Shaped, Known, Links;
  }

  lemma LinksPoint(b: Books)
    requires Links(b)
    ensures forall k :: 0 <= k < |b.applications| ==> b.applications[k].payment < |b.payments|
    ensures forall k :: 0 <= k < |b.uses| ==> b.uses[k].note < |b.notes|
    ensures forall p :: 0 <= p < |b.payments| ==> DistinctDocuments(b.payments[p].direct)
  {
    hide Total;
  }
}
