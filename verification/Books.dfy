/**
 * The tables of one subledger and what each service call does to them, in base currency: sales
 * invoices, customer payments, credit notes and customer refunds, or their supplier mirrors.
 * A row's id is its position. A call is all or nothing: it is `Done` with the new tables, or
 * `Refused` and the surrounding database transaction leaves no trace.
 */
module Books {
  import opened Wrappers
  import opened Sums
  import opened Posting

  datatype DocumentStatus = Draft | Finalized | Voided

  /** `SalesInvoice` or `PurchaseBill`. Balances are kept twice: in base and in transaction currency. */
  datatype Document = Document(
    contact: nat, status: DocumentStatus, lines: seq<DocumentLine>,
    balance: int, txBalance: int, entry: Option<nat>, reversal: Option<nat>)

  /** `CreditNote` or `PurchaseDebitNote`. */
  datatype Note = Note(
    contact: nat, status: DocumentStatus, lines: seq<DocumentLine>, original: Option<nat>,
    unapplied: int, entry: Option<nat>, reversal: Option<nat>)

  /** An allocation made by the payment itself. */
  datatype Direct = Direct(document: nat, amount: Money)

  datatype Payment = Payment(
    contact: nat, posted: bool, account: Account, received: Money, direct: seq<Direct>,
    unapplied: int, txUnapplied: int, entry: nat, reversal: Option<nat>)

  /**
   * `CustomerPaymentUnappliedAllocation`: base amounts on both sides, and the transaction amount.
   * The contact is the payment's.
   */
  datatype Application = Application(
    payment: nat, contact: nat, document: nat, txAmount: Money, onDocument: Money, onPayment: Money,
    active: bool, entry: Option<nat>)

  /** `CreditNoteAllocation`. */
  datatype CreditUse = CreditUse(note: nat, document: nat, amount: Money, active: bool)

  datatype RefundSource = FromPayment(payment: nat) | FromNote(note: nat)

  datatype Refund = Refund(
    contact: nat, source: RefundSource, account: Account, amount: Money,
    posted: bool, entry: nat, reversal: Option<nat>)

  /** The record a journal entry was posted for. */
  datatype Origin =
    | OfDocument(id: nat) | OfNote(id: nat) | OfPayment(id: nat) | OfRefund(id: nat)
    | OfApplication(id: nat) | ReversalOf(id: nat)

  datatype Entry = Entry(origin: Origin, lines: seq<Line>, reversedBy: Option<nat>)

  datatype Books = Books(
    side: Side, gainAccount: bool, lossAccount: bool,
    documents: seq<Document>, notes: seq<Note>, payments: seq<Payment>,
    applications: seq<Application>, uses: seq<CreditUse>, refunds: seq<Refund>,
    journal: seq<Entry>)

  function Opened(side: Side, gainAccount: bool, lossAccount: bool): Books {
    Books(side, gainAccount, lossAccount, [], [], [], [], [], [], [])
  }

  datatype Attempt = Done(books: Books) | Refused

  // ---- the journal

  function Post(journal: seq<Entry>, origin: Origin, lines: seq<Line>): seq<Entry> {
    journal + [Entry(origin, lines, None)]
  }

  /** Creates or reuses the one reversal of entry `e`. */
  function Reverse(journal: seq<Entry>, e: nat): seq<Entry>
    requires e < |journal|
  {
    if journal[e].reversedBy.Some? then journal
    else journal[e := journal[e].(reversedBy := Some(|journal|))] + [Entry(ReversalOf(e), Reversed(journal[e].lines), None)]
  }

  function ReversalId(journal: seq<Entry>, e: nat): nat
    requires e < |journal|
  {
    if journal[e].reversedBy.Some? then journal[e].reversedBy.value else |journal|
  }

  function PaymentEntry(side: Side, p: Payment): seq<Line> {
    WithCash(side == Receivable, p.account, p.received, ControlPart(side == Payable, p))
  }

  /** The control-account lines: one for every allocation, one for the rest. */
  function ControlPart(debit: bool, p: Payment): seq<Line> {
    DirectLines(debit, p.direct) + BodyLine(debit, Control, DirectRest(p))
  }

  /** What the payment's own allocations leave; the posting line is made only when it is positive. */
  function DirectRest(p: Payment): Money {
    if SumOf(p.direct, DirectAmount()) <= p.received then p.received - SumOf(p.direct, DirectAmount()) else 0
  }

  function DirectAmount(): Direct -> int {
    (d: Direct) => d.amount
  }

  /** One control-account line for every allocation. */
  function DirectLines(debit: bool, direct: seq<Direct>): seq<Line> {
    GroupLines(debit, ControlAmounts(direct))
  }

  function ControlAmounts(direct: seq<Direct>): seq<Group> {
    seq(|direct|, i requires 0 <= i < |direct| => Group(Control, direct[i].amount))
  }

  function WithCash(cashOnDebit: bool, account: Account, amount: Money, others: seq<Line>): seq<Line> {
    if cashOnDebit then [Line(account, amount, 0)] + others else others + [Line(account, 0, amount)]
  }

  function RefundEntry(side: Side, account: Account, amount: Money): seq<Line> {
    if side == Receivable then [Line(Control, amount, 0), Line(account, 0, amount)]
    else [Line(account, amount, 0), Line(Control, 0, amount)]
  }

  /** `buildRealizedFxAdjustmentJournalLines` for what a settlement takes from the payment beyond the document. */
  function AdjustmentEntry(side: Side, excess: int): seq<Line> {
    if (excess > 0) == (side == Receivable) then
      [Line(Control, Abs(excess), 0), Line(FxGain, 0, Abs(excess))]
    else
      [Line(FxLoss, Abs(excess), 0), Line(Control, 0, Abs(excess))]
  }

  function Abs(x: int): Money {
    if x < 0 then -x else x
  }

  // ---- settlement arithmetic

  datatype Settlement = Settled(onDocument: Money, onPayment: Money) | SettlementRefused

  /**
   * `allocateForeignSettlement` at rate one: a settlement that closes a transaction balance
   * takes the whole base balance beside it, whatever that is.
   */
  function Allocate(amount: int, documentTx: int, documentBase: int, paymentTx: int, paymentBase: int): Settlement {
    if amount <= 0 || documentTx < 0 || documentBase < 0 || paymentTx < 0 || paymentBase < 0 then SettlementRefused
    else if amount > documentTx || amount > paymentTx then SettlementRefused
    else
      var onDocument := if amount == documentTx then documentBase else amount;
      if onDocument > documentBase then SettlementRefused
      else Settled(onDocument, if amount == paymentTx then paymentBase else if amount <= paymentBase then amount else paymentBase)
  }

  // ---- documents

  /** Line accounts are revenue accounts, or for bills expense and asset accounts: never the control account. */
  predicate ValidLines(lines: seq<DocumentLine>) {
    lines != [] && forall i :: 0 <= i < |lines| ==> lines[i].account != Control
  }

  function CreateDocument(b: Books, contact: nat, lines: seq<DocumentLine>): Attempt {
    if !ValidLines(lines) then Refused
    else Done(b.(documents := b.documents + [Document(contact, Draft, lines, Total(lines), Total(lines), None, None)]))
  }

  function FinalizeDocument(b: Books, i: nat): Attempt {
    if i >= |b.documents| then Refused else
    var d := b.documents[i];
    match d.status
    case Finalized => if d.entry.Some? then Done(b) else Refused
    case Voided => Refused
    case Draft =>
      if Total(d.lines) <= 0 then Refused else
      var d' := d.(status := Finalized, balance := Total(d.lines), txBalance := Total(d.lines), entry := Some(|b.journal|));
      Done(b.(documents := b.documents[i := d'], journal := Post(b.journal, OfDocument(i), DocumentEntry(b.side, d.lines))))
  }

  predicate PaidDirectly(b: Books, i: nat) {
    exists p, k :: 0 <= p < |b.payments| && b.payments[p].posted
                   && 0 <= k < |b.payments[p].direct| && b.payments[p].direct[k].document == i
  }

  predicate PaidLater(b: Books, i: nat) {
    exists k :: 0 <= k < |b.applications| && b.applications[k].active && b.applications[k].document == i
                && b.applications[k].payment < |b.payments| && b.payments[b.applications[k].payment].posted
  }

  predicate Credited(b: Books, i: nat) {
    exists k :: 0 <= k < |b.uses| && b.uses[k].active && b.uses[k].document == i
                && b.uses[k].note < |b.notes| && b.notes[b.uses[k].note].status != Voided
  }

  function VoidDocument(b: Books, i: nat): Attempt {
    if i >= |b.documents| then Refused else
    var d := b.documents[i];
    match d.status
    case Voided => Done(b)
    case Draft => Done(b.(documents := b.documents[i := d.(status := Voided, balance := 0, txBalance := 0)]))
    case Finalized =>
      if d.entry.None? || d.entry.value >= |b.journal| then Refused
      else if PaidDirectly(b, i) || PaidLater(b, i) || Credited(b, i) then Refused
      else
        var e := d.entry.value;
        var d' := d.(status := Voided, balance := 0, txBalance := 0, reversal := Some(ReversalId(b.journal, e)));
        Done(b.(documents := b.documents[i := d'], journal := Reverse(b.journal, e)))
  }

  // ---- credit notes

  function LinkedTotal(original: nat): Note -> int {
    (n: Note) => if n.original == Some(original) && n.status != Voided then Total(n.lines) else 0
  }

  /** The notes in force that refer to the document leave room for this much more. */
  predicate LinkedTotalFits(b: Books, original: Option<nat>, added: int) {
    original.Some? ==>
      && original.value < |b.documents|
      && SumOf(b.notes, LinkedTotal(original.value)) + added <= Total(b.documents[original.value].lines)
  }

  /** `validateOriginalInvoiceReference`; a note that is counted already adds nothing. */
  predicate OriginalAccepts(b: Books, contact: nat, original: Option<nat>, added: int) {
    && LinkedTotalFits(b, original, added)
    && (original.Some? ==> b.documents[original.value].contact == contact && b.documents[original.value].status == Finalized)
  }

  function CreateNote(b: Books, contact: nat, lines: seq<DocumentLine>, original: Option<nat>): Attempt {
    if !OriginalAccepts(b, contact, original, Total(lines)) then Refused else CreateNoteClaimed(b, contact, lines, original)
  }

  function CreateNoteClaimed(b: Books, contact: nat, lines: seq<DocumentLine>, original: Option<nat>): Attempt {
    if !ValidLines(lines) then Refused
    else Done(b.(notes := b.notes + [Note(contact, Draft, lines, original, Total(lines), None, None)]))
  }

  function FinalizeNote(b: Books, i: nat): Attempt {
    if i >= |b.notes| then Refused else
    var n := b.notes[i];
    match n.status
    case Finalized => if n.entry.Some? then Done(b) else Refused
    case Voided => Refused
    case Draft => if !OriginalAccepts(b, n.contact, n.original, 0) then Refused else FinalizeNoteClaimed(b, i)
  }

  function FinalizeNoteClaimed(b: Books, i: nat): Attempt {
    if i >= |b.notes| || b.notes[i].status != Draft || Total(b.notes[i].lines) <= 0 then Refused else
    var n := b.notes[i];
    var n' := n.(status := Finalized, unapplied := Total(n.lines), entry := Some(|b.journal|));
    Done(b.(notes := b.notes[i := n'], journal := Post(b.journal, OfNote(i), NoteEntry(b.side, n.lines))))
  }

  predicate NoteInUse(b: Books, i: nat) {
    || (exists k :: 0 <= k < |b.uses| && b.uses[k].active && b.uses[k].note == i)
    || (exists k :: 0 <= k < |b.refunds| && b.refunds[k].posted && b.refunds[k].source == FromNote(i))
  }

  function VoidNote(b: Books, i: nat): Attempt {
    if i >= |b.notes| then Refused
    else if b.notes[i].status == Voided then Done(b)
    else if b.notes[i].status == Finalized && NoteInUse(b, i) then Refused
    else VoidNoteClaimed(b, i)
  }

  function VoidNoteClaimed(b: Books, i: nat): Attempt {
    if i >= |b.notes| then Refused else
    var n := b.notes[i];
    match n.status
    case Voided => Refused
    case Draft => Done(b.(notes := b.notes[i := n.(status := Voided)]))
    case Finalized =>
      if n.entry.None? || n.entry.value >= |b.journal| then Refused else
      var n' := n.(status := Voided, reversal := Some(ReversalId(b.journal, n.entry.value)));
      Done(b.(notes := b.notes[i := n'], journal := Reverse(b.journal, n.entry.value)))
  }

  // A row's own conditions, which the conditional updates test: what it may give and take back.

  predicate NoteCovers(note: Note, amount: Money) {
    note.status == Finalized && amount <= note.unapplied
  }

  predicate DocumentCovers(d: Document, contact: nat, amount: Money) {
    d.contact == contact && d.status == Finalized && amount <= d.balance
  }

  predicate NoteTakesBack(note: Note, amount: int) {
    note.status == Finalized && note.unapplied <= Total(note.lines) - amount
  }

  predicate DocumentTakesCredit(d: Document, amount: int) {
    d.status == Finalized && d.balance <= Total(d.lines) - amount
  }

  function ApplyNote(b: Books, n: nat, i: nat, amount: Money): Attempt {
    if amount == 0 || n >= |b.notes| || i >= |b.documents| then Refused else
    var note, d := b.notes[n], b.documents[i];
    if !NoteCovers(note, amount) || !DocumentCovers(d, note.contact, amount) then Refused
    else Done(b.(
      notes := b.notes[n := note.(unapplied := note.unapplied - amount)],
      documents := b.documents[i := d.(balance := d.balance - amount)],
      uses := b.uses + [CreditUse(n, i, amount, true)]))
  }

  function ReverseUse(b: Books, k: nat): Attempt {
    if k >= |b.uses| then Refused else
    var u := b.uses[k];
    if !u.active || u.note >= |b.notes| || u.document >= |b.documents| then Refused else
    var note, d := b.notes[u.note], b.documents[u.document];
    if !NoteTakesBack(note, u.amount) || !DocumentTakesCredit(d, u.amount) then Refused
    else Done(b.(
      notes := b.notes[u.note := note.(unapplied := note.unapplied + u.amount)],
      documents := b.documents[u.document := d.(balance := d.balance + u.amount)],
      uses := b.uses[k := u.(active := false)]))
  }

  // ---- payments

  predicate DistinctDocuments(direct: seq<Direct>) {
    forall i, j :: 0 <= i < j < |direct| ==> direct[i].document != direct[j].document
  }

  /** `findAndValidateInvoices`. */
  predicate ValidDirect(b: Books, contact: nat, direct: seq<Direct>) {
    && DistinctDocuments(direct)
    && forall k :: 0 <= k < |direct| ==>
         && direct[k].amount > 0
         && direct[k].document < |b.documents|
         && b.documents[direct[k].document].contact == contact
         && b.documents[direct[k].document].status == Finalized
         && direct[k].amount <= b.documents[direct[k].document].txBalance
  }

  /**
   * The allocation plan, with the running open amounts of the payment. In base currency the
   * posting line of an allocation must show the same amount in both currencies.
   */
  predicate PlanPostable(documents: seq<Document>, direct: seq<Direct>, openTx: int, openBase: int)
    requires forall k :: 0 <= k < |direct| ==> direct[k].document < |documents|
  {
    direct == [] ||
    (var d := documents[direct[0].document];
     match Allocate(direct[0].amount, d.txBalance, d.balance, openTx, openBase)
     case SettlementRefused => false
     case Settled(onDocument, onPayment) =>
       && onDocument == direct[0].amount
       && PlanPostable(documents, direct[1..], openTx - direct[0].amount, openBase - onPayment))
  }

  /** Moves both balances of every spent document by its amount, down for a payment and up for its void. */
  function Allocated(documents: seq<Document>, direct: seq<Direct>, sign: int): (after: seq<Document>)
    ensures |after| == |documents|
  {
    if direct == [] then documents else
    var before := Allocated(documents, direct[..|direct| - 1], sign);
    var last := direct[|direct| - 1];
    if last.document >= |documents| then before else
    var d := before[last.document];
    before[last.document := d.(balance := d.balance + sign * last.amount, txBalance := d.txBalance + sign * last.amount)]
  }

  function CreatePayment(b: Books, contact: nat, account: Account, received: Money, direct: seq<Direct>): Attempt {
    if !ValidDirect(b, contact, direct) || !PlanPostable(b.documents, direct, received, received) then Refused
    else CreatePaymentClaimed(b, contact, account, received, direct)
  }

  predicate DocumentSettles(d: Document, contact: nat, txAmount: int, amount: int) {
    d.contact == contact && d.status == Finalized && d.balance >= amount && d.txBalance >= txAmount
  }

  predicate AllSpendable(documents: seq<Document>, contact: nat, direct: seq<Direct>) {
    forall k :: 0 <= k < |direct| ==>
      && direct[k].amount > 0 && direct[k].document < |documents|
      && DocumentSettles(documents[direct[k].document], contact, direct[k].amount, direct[k].amount)
  }

  function CreatePaymentClaimed(b: Books, contact: nat, account: Account, received: Money, direct: seq<Direct>): Attempt {
    var spent := SumOf(direct, DirectAmount());
    if received == 0 || (b.side == Receivable && direct == []) || spent > received || !MayHoldCash(b.side, account) then Refused
    else if !DistinctDocuments(direct) || !AllSpendable(b.documents, contact, direct) then Refused
    else
      var p := Payment(contact, true, account, received, direct, received - spent, received - spent, |b.journal|, None);
      Done(b.(
        documents := Allocated(b.documents, direct, -1),
        payments := b.payments + [p],
        journal := Post(b.journal, OfPayment(|b.payments|), PaymentEntry(b.side, p))))
  }

  predicate PaymentInUse(b: Books, p: nat) {
    || (exists k :: 0 <= k < |b.refunds| && b.refunds[k].posted && b.refunds[k].source == FromPayment(p))
    || (exists k :: 0 <= k < |b.applications| && b.applications[k].active && b.applications[k].payment == p)
  }

  predicate MayRestore(side: Side, d: Document, amount: Money) {
    && d.status == Finalized
    && (side == Payable ==> d.balance <= Total(d.lines) - amount && d.txBalance <= Total(d.lines) - amount)
  }

  /** Every spent document can take its amount back. */
  predicate Restorable(b: Books, direct: seq<Direct>) {
    forall k :: 0 <= k < |direct| ==>
      direct[k].document < |b.documents| && MayRestore(b.side, b.documents[direct[k].document], direct[k].amount)
  }

  function VoidPayment(b: Books, p: nat): Attempt {
    if p >= |b.payments| then Refused
    else if !b.payments[p].posted then Done(b)
    else if PaymentInUse(b, p) then Refused
    else VoidPaymentClaimed(b, p)
  }

  function VoidPaymentClaimed(b: Books, p: nat): Attempt {
    if p >= |b.payments| then Refused else
    var payment := b.payments[p];
    if !payment.posted || payment.entry >= |b.journal| || !Restorable(b, payment.direct) then Refused
    else Done(b.(
      payments := b.payments[p := payment.(posted := false, reversal := Some(ReversalId(b.journal, payment.entry)))],
      documents := Allocated(b.documents, payment.direct, 1),
      journal := Reverse(b.journal, payment.entry)))
  }

  /** A gain or a loss needs its configured account. */
  predicate AdjustmentConfigured(b: Books, excess: int) {
    && (excess > 0 ==> if b.side == Receivable then b.gainAccount else b.lossAccount)
    && (excess < 0 ==> if b.side == Receivable then b.lossAccount else b.gainAccount)
  }

  function ApplyUnapplied(b: Books, p: nat, i: nat, amount: Money): Attempt {
    if p >= |b.payments| || i >= |b.documents| then Refused else
    match Allocate(amount, b.documents[i].txBalance, b.documents[i].balance, b.payments[p].txUnapplied, b.payments[p].unapplied)
    case SettlementRefused => Refused
    case Settled(onDocument, onPayment) => ApplySettled(b, p, i, amount, onDocument, onPayment)
  }

  predicate PaymentCovers(payment: Payment, txAmount: int, amount: int) {
    payment.posted && payment.unapplied >= amount && payment.txUnapplied >= txAmount
  }

  /** The claims and the posting of a settlement that has been worked out. */
  function ApplySettled(b: Books, p: nat, i: nat, amount: Money, onDocument: Money, onPayment: Money): Attempt {
    if amount == 0 || p >= |b.payments| || i >= |b.documents| then Refused else
    var payment, d := b.payments[p], b.documents[i];
    var excess := onPayment - onDocument;
    if !PaymentCovers(payment, amount, onPayment) || !DocumentSettles(d, payment.contact, amount, onDocument) then Refused
    else if !AdjustmentConfigured(b, excess) then Refused
    else
      var entry := if excess == 0 then None else Some(|b.journal|);
      Done(b.(
        payments := b.payments[p := payment.(unapplied := payment.unapplied - onPayment, txUnapplied := payment.txUnapplied - amount)],
        documents := b.documents[i := d.(balance := d.balance - onDocument, txBalance := d.txBalance - amount)],
        applications := b.applications + [Application(p, payment.contact, i, amount, onDocument, onPayment, true, entry)],
        journal := if excess == 0 then b.journal
                   else Post(b.journal, OfApplication(|b.applications|), AdjustmentEntry(b.side, excess))))
  }

  predicate PaymentTakesBack(payment: Payment, a: Application) {
    payment.posted && payment.unapplied <= payment.received - a.onPayment && payment.txUnapplied <= payment.received - a.txAmount
  }

  predicate DocumentTakesBack(d: Document, a: Application) {
    d.status == Finalized && d.balance <= Total(d.lines) - a.onDocument && d.txBalance <= Total(d.lines) - a.txAmount
  }

  function ReverseApplication(b: Books, k: nat): Attempt {
    if k >= |b.applications| then Refused else
    var a := b.applications[k];
    if !a.active || a.payment >= |b.payments| || a.document >= |b.documents| then Refused else
    var payment, d := b.payments[a.payment], b.documents[a.document];
    if !PaymentTakesBack(payment, a) || !DocumentTakesBack(d, a) then Refused
    else if a.entry.Some? && a.entry.value >= |b.journal| then Refused
    else Done(b.(
      payments := b.payments[a.payment := payment.(unapplied := payment.unapplied + a.onPayment, txUnapplied := payment.txUnapplied + a.txAmount)],
      documents := b.documents[a.document := d.(balance := d.balance + a.onDocument, txBalance := d.txBalance + a.txAmount)],
      applications := b.applications[k := a.(active := false)],
      journal := if a.entry.None? then b.journal else Reverse(b.journal, a.entry.value)))
  }

  // ---- refunds

  /** Moves the source's unapplied amount; a payment's transaction amount is left as it is. */
  function SourceMoved(b: Books, source: RefundSource, change: int): Books {
    match source
    case FromPayment(p) =>
      if p >= |b.payments| then b
      else b.(payments := b.payments[p := b.payments[p].(unapplied := b.payments[p].unapplied + change)])
    case FromNote(n) =>
      if n >= |b.notes| then b
      else b.(notes := b.notes[n := b.notes[n].(unapplied := b.notes[n].unapplied + change)])
  }

  predicate SourceOpen(b: Books, source: RefundSource) {
    match source
    case FromPayment(p) => p < |b.payments| && b.payments[p].posted
    case FromNote(n) => n < |b.notes| && b.notes[n].status == Finalized
  }

  function SourceContact(b: Books, source: RefundSource): nat
    requires SourceOpen(b, source)
  {
    match source
    case FromPayment(p) => b.payments[p].contact
    case FromNote(n) => b.notes[n].contact
  }

  function SourceUnapplied(b: Books, source: RefundSource): int
    requires SourceOpen(b, source)
  {
    match source
    case FromPayment(p) => b.payments[p].unapplied
    case FromNote(n) => b.notes[n].unapplied
  }

  function SourceLimit(b: Books, source: RefundSource): int
    requires SourceOpen(b, source)
  {
    match source
    case FromPayment(p) => b.payments[p].received
    case FromNote(n) => Total(b.notes[n].lines)
  }

  predicate SourceCovers(b: Books, source: RefundSource, contact: nat, amount: int) {
    SourceOpen(b, source) && SourceContact(b, source) == contact && SourceUnapplied(b, source) >= amount
  }

  predicate SourceTakesBack(b: Books, source: RefundSource, amount: int) {
    SourceOpen(b, source) && SourceUnapplied(b, source) <= SourceLimit(b, source) - amount
  }

  function CreateRefund(b: Books, contact: nat, source: RefundSource, account: Account, amount: Money): Attempt {
    if amount == 0 || !MayHoldCash(b.side, account) || !SourceCovers(b, source, contact, amount) then Refused
    else
      var moved := SourceMoved(b, source, -(amount as int));
      Done(moved.(
        refunds := b.refunds + [Refund(contact, source, account, amount, true, |b.journal|, None)],
        journal := Post(b.journal, OfRefund(|b.refunds|), RefundEntry(b.side, account, amount))))
  }

  function VoidRefund(b: Books, r: nat): Attempt {
    if r >= |b.refunds| then Refused else
    var refund := b.refunds[r];
    if !refund.posted then Done(b)
    else if refund.entry >= |b.journal| || !SourceTakesBack(b, refund.source, refund.amount) then Refused
    else
      var moved := SourceMoved(b, refund.source, refund.amount);
      Done(moved.(
        refunds := b.refunds[r := refund.(posted := false, reversal := Some(ReversalId(b.journal, refund.entry)))],
        journal := Reverse(b.journal, refund.entry)))
  }

  // ---- runs

  datatype Call =
    | DoCreateDocument(contact: nat, lines: seq<DocumentLine>)
    | DoFinalizeDocument(document: nat)
    | DoVoidDocument(document: nat)
    | DoCreateNote(contact: nat, lines: seq<DocumentLine>, original: Option<nat>)
    | DoFinalizeNote(note: nat)
    | DoVoidNote(note: nat)
    | DoApplyNote(note: nat, document: nat, amount: Money)
    | DoReverseUse(use: nat)
    | DoCreatePayment(contact: nat, account: Account, received: Money, direct: seq<Direct>)
    | DoVoidPayment(payment: nat)
    | DoApplyUnapplied(payment: nat, document: nat, amount: Money)
    | DoReverseApplication(application: nat)
    | DoCreateRefund(contact: nat, source: RefundSource, account: Account, amount: Money)
    | DoVoidRefund(refund: nat)

  function Try(b: Books, c: Call): Attempt {
    match c
    case DoCreateDocument(contact, lines) => CreateDocument(b, contact, lines)
    case DoFinalizeDocument(i) => FinalizeDocument(b, i)
    case DoVoidDocument(i) => VoidDocument(b, i)
    case DoCreateNote(contact, lines, original) => CreateNote(b, contact, lines, original)
    case DoFinalizeNote(n) => FinalizeNote(b, n)
    case DoVoidNote(n) => VoidNote(b, n)
    case DoApplyNote(n, i, amount) => ApplyNote(b, n, i, amount)
    case DoReverseUse(k) => ReverseUse(b, k)
    case DoCreatePayment(contact, account, received, direct) => CreatePayment(b, contact, account, received, direct)
    case DoVoidPayment(p) => VoidPayment(b, p)
    case DoApplyUnapplied(p, i, amount) => ApplyUnapplied(b, p, i, amount)
    case DoReverseApplication(k) => ReverseApplication(b, k)
    case DoCreateRefund(contact, source, account, amount) => CreateRefund(b, contact, source, account, amount)
    case DoVoidRefund(r) => VoidRefund(b, r)
  }

  /**
   * What a call comes to once its claims have succeeded, whatever else it looked at: the reference
   * to the original document, the use count of a payment or a note, and the plan of a settlement or
   * of a payment are read without a lock that protects them.
   */
  function Claimed(b: Books, c: Call, plan: Settlement): Attempt {
    match c
    case DoCreateNote(contact, lines, original) => CreateNoteClaimed(b, contact, lines, original)
    case DoFinalizeNote(n) => FinalizeNoteClaimed(b, n)
    case DoVoidNote(n) => VoidNoteClaimed(b, n)
    case DoCreatePayment(contact, account, received, direct) => CreatePaymentClaimed(b, contact, account, received, direct)
    case DoVoidPayment(p) => VoidPaymentClaimed(b, p)
    case DoApplyUnapplied(p, i, amount) =>
      if plan.SettlementRefused? then Refused else ApplySettled(b, p, i, amount, plan.onDocument, plan.onPayment)
    case _ => Try(b, c)
  }

  /** A refused call rolls back. */
  function After(b: Books, c: Call): Books {
    match Try(b, c)
    case Done(b') => b'
    case Refused => b
  }

  function Run(b: Books, calls: seq<Call>): Books {
    if calls == [] then b else After(Run(b, calls[..|calls| - 1]), calls[|calls| - 1])
  }
}
