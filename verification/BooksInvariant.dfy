/** What holds of the tables in every reachable state. */
module BooksInvariant {
  import opened Wrappers
  import opened Sums
  import opened Posting
  import opened Books

  // ---- totals over links between rows

  function OnTarget(i: nat): Direct -> int {
    (d: Direct) => if d.document == i then d.amount else 0
  }

  function DirectOn(i: nat): Payment -> int {
    (p: Payment) => if p.posted then SumOf(p.direct, OnTarget(i)) else 0
  }

  function AppliedOn(i: nat): Application -> int {
    (a: Application) => if a.active && a.document == i then a.onDocument else 0
  }

  function TxOn(i: nat): Application -> int {
    (a: Application) => if a.active && a.document == i then a.txAmount else 0
  }

  function CreditedOn(i: nat): CreditUse -> int {
    (u: CreditUse) => if u.active && u.document == i then u.amount else 0
  }

  function AppliedFrom(p: nat): Application -> int {
    (a: Application) => if a.active && a.payment == p then a.onPayment else 0
  }

  function TxFrom(p: nat): Application -> int {
    (a: Application) => if a.active && a.payment == p then a.txAmount else 0
  }

  function UsedOf(n: nat): CreditUse -> int {
    (u: CreditUse) => if u.active && u.note == n then u.amount else 0
  }

  function RefundedFrom(source: RefundSource): Refund -> int {
    (r: Refund) => if r.posted && r.source == source then r.amount else 0
  }

  // ---- every balance is what its history says

  // A row that is not open any more has no uses; the weaker form asks that only of drafts.

  /** A finalized document owes its total less what is allocated to it; any other has nothing allocated. */
  ghost predicate DocumentBalances(d: Document, i: nat, payments: seq<Payment>, applications: seq<Application>, uses: seq<CreditUse>, strict: bool) {
    if d.status == Finalized then
      && d.balance == Total(d.lines) - SumOf(payments, DirectOn(i)) - SumOf(applications, AppliedOn(i)) - SumOf(uses, CreditedOn(i))
      && d.txBalance == Total(d.lines) - SumOf(payments, DirectOn(i)) - SumOf(applications, TxOn(i))
      && d.balance >= 0 && d.txBalance >= 0
    else
      strict || d.status == Draft ==>
        && SumOf(payments, DirectOn(i)) == 0 && SumOf(applications, AppliedOn(i)) == 0
        && SumOf(applications, TxOn(i)) == 0 && SumOf(uses, CreditedOn(i)) == 0
  }

  /** A posted payment has left what it was not allocated, applied or refunded; a voided one has no uses. */
  ghost predicate PaymentBalances(p: Payment, i: nat, applications: seq<Application>, refunds: seq<Refund>, strict: bool) {
    var open := p.received - SumOf(p.direct, DirectAmount());
    if p.posted then
      && p.unapplied == open - SumOf(applications, AppliedFrom(i)) - SumOf(refunds, RefundedFrom(FromPayment(i)))
      && p.txUnapplied == open - SumOf(applications, TxFrom(i))
      && p.unapplied >= 0 && p.txUnapplied >= 0
    else
      strict ==>
        && SumOf(applications, AppliedFrom(i)) == 0 && SumOf(applications, TxFrom(i)) == 0
        && SumOf(refunds, RefundedFrom(FromPayment(i))) == 0
  }

  ghost predicate NoteBalances(n: Note, i: nat, uses: seq<CreditUse>, refunds: seq<Refund>, strict: bool) {
    if n.status == Finalized then
      && n.unapplied == Total(n.lines) - SumOf(uses, UsedOf(i)) - SumOf(refunds, RefundedFrom(FromNote(i)))
      && n.unapplied >= 0
    else
      strict || n.status == Draft ==> SumOf(uses, UsedOf(i)) == 0 && SumOf(refunds, RefundedFrom(FromNote(i))) == 0
  }

  ghost predicate DocumentsBalance(b: Books, strict: bool) {
    forall i :: 0 <= i < |b.documents| ==> DocumentBalances(b.documents[i], i, b.payments, b.applications, b.uses, strict)
  }

  ghost predicate PaymentsBalance(b: Books, strict: bool) {
    forall i :: 0 <= i < |b.payments| ==> PaymentBalances(b.payments[i], i, b.applications, b.refunds, strict)
  }

  ghost predicate NotesBalance(b: Books, strict: bool) {
    forall i :: 0 <= i < |b.notes| ==> NoteBalances(b.notes[i], i, b.uses, b.refunds, strict)
  }

  ghost predicate Balances(b: Books, strict: bool) {
    DocumentsBalance(b, strict) && PaymentsBalance(b, strict) && NotesBalance(b, strict)
  }

  // ---- rows point at rows that exist and belong together

  ghost predicate DirectLinked(p: Payment, side: Side, documents: seq<Document>) {
    && SumOf(p.direct, DirectAmount()) <= p.received && p.received > 0
    && MayHoldCash(side, p.account)
    && DistinctDocuments(p.direct)
    && forall k :: 0 <= k < |p.direct| ==>
         && p.direct[k].amount > 0 && p.direct[k].document < |documents|
         && documents[p.direct[k].document].contact == p.contact
  }

  ghost predicate ApplicationLinked(a: Application, payments: seq<Payment>, documents: seq<Document>) {
    && a.payment < |payments| && a.document < |documents| && a.txAmount > 0
    && payments[a.payment].contact == a.contact == documents[a.document].contact
  }

  ghost predicate UseLinked(u: CreditUse, notes: seq<Note>, documents: seq<Document>) {
    && u.note < |notes| && u.document < |documents| && u.amount > 0
    && notes[u.note].contact == documents[u.document].contact
  }

  ghost predicate RefundLinked(r: Refund, side: Side, payments: seq<Payment>, notes: seq<Note>) {
    && r.amount > 0 && MayHoldCash(side, r.account)
    && match r.source
       case FromPayment(p) => p < |payments| && payments[p].contact == r.contact
       case FromNote(n) => n < |notes| && notes[n].contact == r.contact
  }

  ghost predicate Links(b: Books) {
    && (forall i :: 0 <= i < |b.documents| ==> ValidLines(b.documents[i].lines))
    && (forall i :: 0 <= i < |b.notes| ==> ValidLines(b.notes[i].lines))
    && (forall i :: 0 <= i < |b.payments| ==> DirectLinked(b.payments[i], b.side, b.documents))
    && (forall k :: 0 <= k < |b.applications| ==> ApplicationLinked(b.applications[k], b.payments, b.documents))
    && (forall k :: 0 <= k < |b.uses| ==> UseLinked(b.uses[k], b.notes, b.documents))
    && (forall r :: 0 <= r < |b.refunds| ==> RefundLinked(b.refunds[r], b.side, b.payments, b.notes))
  }

  /** The notes in force that refer to a document do not credit more than it. */
  ghost predicate NotesWithin(b: Books) {
    && (forall n :: 0 <= n < |b.notes| && b.notes[n].original.Some? ==> b.notes[n].original.value < |b.documents|)
    && (forall i :: 0 <= i < |b.documents| ==> SumOf(b.notes, LinkedTotal(i)) <= Total(b.documents[i].lines))
  }

  // ---- every posting record has one journal entry, reversed at most once and exactly when it is undone

  /** Entry `e` was posted for `origin` with these lines, and is reversed unless it is live. */
  ghost predicate Posted(journal: seq<Entry>, e: nat, origin: Origin, lines: seq<Line>, live: bool, reversal: Option<nat>) {
    && e < |journal| && journal[e].origin == origin && journal[e].lines == lines
    && (if live then journal[e].reversedBy == None else journal[e].reversedBy.Some? && journal[e].reversedBy == reversal)
  }

  ghost predicate DocumentPosted(d: Document, i: nat, side: Side, journal: seq<Entry>) {
    && (d.status == Draft ==> d.entry == None)
    && (d.status == Finalized ==> d.entry.Some?)
    && (d.entry.Some? ==>
          && Total(d.lines) > 0
          && Posted(journal, d.entry.value, OfDocument(i), DocumentEntry(side, d.lines), d.status == Finalized, d.reversal))
  }

  ghost predicate NotePosted(n: Note, i: nat, side: Side, journal: seq<Entry>) {
    && (n.status == Draft ==> n.entry == None)
    && (n.status == Finalized ==> n.entry.Some?)
    && (n.entry.Some? ==>
          && Total(n.lines) > 0
          && Posted(journal, n.entry.value, OfNote(i), NoteEntry(side, n.lines), n.status == Finalized, n.reversal))
  }

  ghost predicate PaymentPosted(p: Payment, i: nat, side: Side, journal: seq<Entry>) {
    Posted(journal, p.entry, OfPayment(i), PaymentEntry(side, p), p.posted, p.reversal)
  }

  ghost predicate ApplicationPosted(a: Application, k: nat, side: Side, journal: seq<Entry>) {
    && (a.entry.Some? <==> a.onPayment != a.onDocument)
    && (a.entry.Some? ==>
          && a.entry.value < |journal| && journal[a.entry.value].origin == OfApplication(k)
          && journal[a.entry.value].lines == AdjustmentEntry(side, a.onPayment - a.onDocument)
          && (a.active <==> journal[a.entry.value].reversedBy == None))
  }

  ghost predicate RefundPosted(r: Refund, i: nat, side: Side, journal: seq<Entry>) {
    Posted(journal, r.entry, OfRefund(i), RefundEntry(side, r.account, r.amount), r.posted, r.reversal)
  }

  /** Entries are acceptable journals, and reversals come in pairs with what they reverse. */
  ghost predicate EntryPaired(journal: seq<Entry>, e: nat)
    requires e < |journal|
  {
    && Postable(journal[e].lines)
    && (journal[e].reversedBy.Some? ==>
        var r := journal[e].reversedBy.value;
        r < |journal| && journal[r].origin == ReversalOf(e) && journal[r].lines == Reversed(journal[e].lines))
    && (journal[e].origin.ReversalOf? ==>
        var o := journal[e].origin.id;
        o < |journal| && journal[o].reversedBy == Some(e))
  }

  /** The records' entries are theirs, so no two records share one. */
  ghost predicate RecordsPosted(b: Books, journal: seq<Entry>) {
    && (forall i :: 0 <= i < |b.documents| ==> DocumentPosted(b.documents[i], i, b.side, journal))
    && (forall i :: 0 <= i < |b.notes| ==> NotePosted(b.notes[i], i, b.side, journal))
    && (forall i :: 0 <= i < |b.payments| ==> PaymentPosted(b.payments[i], i, b.side, journal))
    && (forall k :: 0 <= k < |b.applications| ==> ApplicationPosted(b.applications[k], k, b.side, journal))
    && (forall r :: 0 <= r < |b.refunds| ==> RefundPosted(b.refunds[r], r, b.side, journal))
  }

  /** Every entry is its record's one entry. */
  ghost predicate EntriesOwned(b: Books, journal: seq<Entry>) {
    forall e :: 0 <= e < |journal| ==>
      match journal[e].origin
      case OfDocument(i) => i < |b.documents| && b.documents[i].entry == Some(e)
      case OfNote(i) => i < |b.notes| && b.notes[i].entry == Some(e)
      case OfPayment(i) => i < |b.payments| && b.payments[i].entry == e
      case OfRefund(i) => i < |b.refunds| && b.refunds[i].entry == e
      case OfApplication(i) => i < |b.applications| && b.applications[i].entry == Some(e)
      case ReversalOf(_) => true
  }

  ghost predicate Paired(journal: seq<Entry>) {
    forall e :: 0 <= e < |journal| ==> EntryPaired(journal, e)
  }

  ghost predicate Journals(b: Books) {
    RecordsPosted(b, b.journal) && EntriesOwned(b, b.journal) && Paired(b.journal)
  }

  // ---- the books reconcile

  function OnAccount(side: Side, a: Account): Entry -> int {
    (e: Entry) => Net(side, a, e.lines)
  }

  /** The balance of an account: all entries count, reversed ones and their reversals too. */
  function AccountBalance(b: Books, a: Account): int {
    SumOf(b.journal, OnAccount(b.side, a))
  }

  function LiveDocument(side: Side, a: Account): Document -> int {
    (d: Document) => if d.status == Finalized then Net(side, a, DocumentEntry(side, d.lines)) else 0
  }

  function LiveNote(side: Side, a: Account): Note -> int {
    (n: Note) => if n.status == Finalized then Net(side, a, NoteEntry(side, n.lines)) else 0
  }

  function LivePayment(side: Side, a: Account): Payment -> int {
    (p: Payment) => if p.posted then Net(side, a, PaymentEntry(side, p)) else 0
  }

  function LiveApplication(side: Side, a: Account): Application -> int {
    (x: Application) => if x.active && x.onPayment != x.onDocument then Net(side, a, AdjustmentEntry(side, x.onPayment - x.onDocument)) else 0
  }

  function LiveRefund(side: Side, a: Account): Refund -> int {
    (r: Refund) => if r.posted then Net(side, a, RefundEntry(side, r.account, r.amount)) else 0
  }

  /** What the records that are still in force posted. */
  function LiveEffect(b: Books, a: Account): int {
    SumOf(b.documents, LiveDocument(b.side, a)) + SumOf(b.notes, LiveNote(b.side, a))
    + SumOf(b.payments, LivePayment(b.side, a)) + SumOf(b.applications, LiveApplication(b.side, a))
    + SumOf(b.refunds, LiveRefund(b.side, a))
  }

  ghost predicate AccountsReconcile(b: Books) {
    forall a :: AccountBalance(b, a) == LiveEffect(b, a)
  }

  /** One contact, or everybody. */
  predicate Concerns(who: Option<nat>, contact: nat) {
    who == None || who == Some(contact)
  }

  function OpenBalance(who: Option<nat>): Document -> int {
    (d: Document) => if d.status == Finalized && Concerns(who, d.contact) then d.balance else 0
  }

  function PaymentCredit(who: Option<nat>): Payment -> int {
    (p: Payment) => if p.posted && Concerns(who, p.contact) then p.unapplied else 0
  }

  function NoteCredit(who: Option<nat>): Note -> int {
    (n: Note) => if n.status == Finalized && Concerns(who, n.contact) then n.unapplied else 0
  }

  function Billed(who: Option<nat>): Document -> int {
    (d: Document) => if d.status == Finalized && Concerns(who, d.contact) then Total(d.lines) else 0
  }

  function Noted(who: Option<nat>): Note -> int {
    (n: Note) => if n.status == Finalized && Concerns(who, n.contact) then Total(n.lines) else 0
  }

  function Received(who: Option<nat>): Payment -> int {
    (p: Payment) => if p.posted && Concerns(who, p.contact) then p.received else 0
  }

  function PaidBack(who: Option<nat>): Refund -> int {
    (r: Refund) => if r.posted && Concerns(who, r.contact) then r.amount else 0
  }

  function ExcessOf(who: Option<nat>): Application -> int {
    (a: Application) => if a.active && Concerns(who, a.contact) then a.onPayment - a.onDocument else 0
  }

  /** Open documents less all unapplied credit. */
  function Outstanding(b: Books, who: Option<nat>): int {
    SumOf(b.documents, OpenBalance(who)) - SumOf(b.payments, PaymentCredit(who)) - SumOf(b.notes, NoteCredit(who))
  }

  /** What the records in force bill, credit, collect and pay back. */
  function Turnover(b: Books, who: Option<nat>): int {
    SumOf(b.documents, Billed(who)) - SumOf(b.notes, Noted(who)) - SumOf(b.payments, Received(who)) + SumOf(b.refunds, PaidBack(who))
  }

  /** What settlements in force took from payments beyond what they gave to documents. */
  function Excess(b: Books, who: Option<nat>): int {
    SumOf(b.applications, ExcessOf(who))
  }

  ghost predicate ContactsReconcile(b: Books) {
    forall who :: Outstanding(b, who) == Turnover(b, who) + Excess(b, who)
  }

  ghost predicate Inv(b: Books) {
    Links(b) && NotesWithin(b) && Balances(b, true) && Journals(b) && AccountsReconcile(b) && ContactsReconcile(b)
  }

  /** The part of it that no interleaving of transactions breaks. */
  ghost predicate Safe(b: Books) {
    Links(b) && Balances(b, false) && Journals(b) && AccountsReconcile(b)
  }
}
