/**
 * The same services as concurrent database transactions under READ COMMITTED. A transaction reads
 * committed rows, claims rows with conditional updates that lock them, and commits or rolls back;
 * its own row versions stay private until it commits. Any number of transactions interleave.
 *
 * Each call takes the steps of its service in the service's order. A read whose checks the service
 * repeats later is modelled where it is made. Of the rows that are locked without being written only
 * the document of a document void is modelled. Settlements and credit applications lock theirs too,
 * with SELECT ... FOR UPDATE after they have read its balances and until they end; without that more
 * interleavings are allowed here than the database allows.
 */
module Transactions {
  import opened Wrappers
  import opened Sums
  import opened Posting
  import opened Books

  /** A claimed row: as it was committed when it was claimed, and as the transaction leaves it. */
  datatype Version<T> = Version(before: T, after: T)

  datatype Claims = Claims(
    documents: map<nat, Version<Document>>, notes: map<nat, Version<Note>>, payments: map<nat, Version<Payment>>,
    applications: map<nat, Version<Application>>, uses: map<nat, Version<CreditUse>>, refunds: map<nat, Version<Refund>>)

  const UNCLAIMED := Claims(map[], map[], map[], map[], map[], map[])

  /** A transaction in progress: how far it is, the settlement it planned from what it read, and the rows it has locked. */
  datatype Transaction = Running(call: Call, at: nat, plan: Settlement, claims: Claims) | Ended

  datatype Locks = Locks(
    documents: set<nat>, notes: set<nat>, payments: set<nat>, applications: set<nat>, uses: set<nat>, refunds: set<nat>)

  const FREE := Locks({}, {}, {}, {}, {}, {})

  /** One step: wait for a lock, fail and roll back, return without effect, go on, or commit. */
  datatype Progress = Wait | Fail | Return | Go(t: Transaction) | Commit(books: Books)

  function Begun(c: Call): (t: Transaction)
    ensures t.Running?
  {
    Running(c, 0, SettlementRefused, UNCLAIMED)
  }

  /** Committed rows with the transaction's own versions over them. */
  function Published<T>(rows: seq<T>, own: map<nat, Version<T>>): (after: seq<T>)
    ensures |after| == |rows|
  {
    seq(|rows|, i requires 0 <= i < |rows| => if i in own then own[i].after else rows[i])
  }

  function Publish(b: Books, c: Claims): Books {
    b.(documents := Published(b.documents, c.documents), notes := Published(b.notes, c.notes),
       payments := Published(b.payments, c.payments), applications := Published(b.applications, c.applications),
       uses := Published(b.uses, c.uses), refunds := Published(b.refunds, c.refunds))
  }

  // ---- conditional updates: wait for the row, test it as committed, lock it with its new version

  function TakeDocument(b: Books, locks: Locks, t: Transaction, i: nat, may: bool, after: Document, miss: Progress): Progress
    requires t.Running? && i < |b.documents|
  {
    if i in locks.documents then Wait else if !may then miss
    else Go(t.(at := t.at + 1, claims := t.claims.(documents := t.claims.documents[i := Version(b.documents[i], after)])))
  }

  function TakeNote(b: Books, locks: Locks, t: Transaction, n: nat, may: bool, after: Note, miss: Progress): Progress
    requires t.Running? && n < |b.notes|
  {
    if n in locks.notes then Wait else if !may then miss
    else Go(t.(at := t.at + 1, claims := t.claims.(notes := t.claims.notes[n := Version(b.notes[n], after)])))
  }

  function TakePayment(b: Books, locks: Locks, t: Transaction, p: nat, may: bool, after: Payment, miss: Progress): Progress
    requires t.Running? && p < |b.payments|
  {
    if p in locks.payments then Wait else if !may then miss
    else Go(t.(at := t.at + 1, claims := t.claims.(payments := t.claims.payments[p := Version(b.payments[p], after)])))
  }

  function TakeApplication(b: Books, locks: Locks, t: Transaction, k: nat, may: bool, after: Application, miss: Progress): Progress
    requires t.Running? && k < |b.applications|
  {
    if k in locks.applications then Wait else if !may then miss
    else Go(t.(at := t.at + 1, claims := t.claims.(applications := t.claims.applications[k := Version(b.applications[k], after)])))
  }

  function TakeUse(b: Books, locks: Locks, t: Transaction, k: nat, may: bool, after: CreditUse, miss: Progress): Progress
    requires t.Running? && k < |b.uses|
  {
    if k in locks.uses then Wait else if !may then miss
    else Go(t.(at := t.at + 1, claims := t.claims.(uses := t.claims.uses[k := Version(b.uses[k], after)])))
  }

  function TakeRefund(b: Books, locks: Locks, t: Transaction, r: nat, may: bool, after: Refund, miss: Progress): Progress
    requires t.Running? && r < |b.refunds|
  {
    if r in locks.refunds then Wait else if !may then miss
    else Go(t.(at := t.at + 1, claims := t.claims.(refunds := t.claims.refunds[r := Version(b.refunds[r], after)])))
  }

  /** The last update of a row that is claimed already. */
  function Set<T>(own: map<nat, Version<T>>, i: nat, row: T): map<nat, Version<T>>
    requires i in own
  {
    own[i := own[i].(after := row)]
  }

  // ---- documents

  /** A draft touches no row but its own. */
  function CreateDocumentStep(b: Books, contact: nat, lines: seq<DocumentLine>): Progress {
    match CreateDocument(b, contact, lines)
    case Done(b') => Commit(b')
    case Refused => Fail
  }

  /** Step 0 reads, 1 claims the draft, 2 posts. */
  function FinalizeDocumentStep(b: Books, locks: Locks, t: Transaction, i: nat): Progress
    requires t.Running?
  {
    if i >= |b.documents| then Fail else
    var d := b.documents[i];
    if t.at == 0 then
      match d.status
      case Finalized => if d.entry.Some? then Return else Fail
      case Voided => Fail
      case Draft => if Total(d.lines) <= 0 then Fail else Go(t.(at := t.at + 1))
    else if t.at == 1 then
      TakeDocument(b, locks, t, i, d.status == Draft, d.(status := Finalized, balance := Total(d.lines), txBalance := Total(d.lines)), Return)
    else if i !in t.claims.documents then Fail
    else
      var own := t.claims.documents[i].after;
      Commit(Publish(b, t.claims.(documents := Set(t.claims.documents, i, own.(entry := Some(|b.journal|))))).(
        journal := Post(b.journal, OfDocument(i), DocumentEntry(b.side, d.lines))))
  }

  /**
   * Steps 1 to 4 void a finalized document. Step 1 locks its row; an invoice is then claimed before
   * its uses are counted, and a bill after. Steps 5 and 6 void a draft.
   */
  function VoidDocumentStep(b: Books, locks: Locks, t: Transaction, i: nat): Progress
    requires t.Running?
  {
    if i >= |b.documents| then Fail else
    var d := b.documents[i];
    if t.at == 0 then
      match d.status
      case Voided => Return
      case Draft => Go(t.(at := 5))
      case Finalized => if d.entry.None? || d.entry.value >= |b.journal| then Fail else Go(t.(at := t.at + 1))
    else if t.at == 1 then
      TakeDocument(b, locks, t, i, true, d, Fail)
    else if t.at == 2 + (if b.side == Receivable then 0 else 1) || t.at == 5 then
      TakeDocument(b, locks, t, i, d.status == (if t.at == 5 then Draft else Finalized), d.(status := Voided, balance := 0, txBalance := 0), Return)
    else if t.at < 4 then
      if PaidDirectly(b, i) || PaidLater(b, i) || Credited(b, i) then Fail else Go(t.(at := t.at + 1))
    else if i !in t.claims.documents then Fail
    else if t.at == 4 then
      if d.entry.None? || d.entry.value >= |b.journal| then Fail else
      var own := t.claims.documents[i].after;
      Commit(Publish(b, t.claims.(documents := Set(t.claims.documents, i, own.(reversal := Some(ReversalId(b.journal, d.entry.value)))))).(
        journal := Reverse(b.journal, d.entry.value)))
    else Commit(Publish(b, t.claims))
  }

  // ---- notes

  /** Step 0 looks at the original document and the notes that refer to it, 1 inserts. */
  function CreateNoteStep(b: Books, t: Transaction, contact: nat, lines: seq<DocumentLine>, original: Option<nat>): Progress
    requires t.Running?
  {
    if t.at == 0 then
      if !ValidLines(lines) || !OriginalAccepts(b, contact, original, Total(lines)) then Fail else Go(t.(at := t.at + 1))
    else Commit(b.(notes := b.notes + [Note(contact, Draft, lines, original, Total(lines), None, None)]))
  }

  /** Step 0 reads and looks at the original again, 1 claims the draft, 2 posts. */
  function FinalizeNoteStep(b: Books, locks: Locks, t: Transaction, n: nat): Progress
    requires t.Running?
  {
    if n >= |b.notes| then Fail else
    var note := b.notes[n];
    if t.at == 0 then
      match note.status
      case Finalized => if note.entry.Some? then Return else Fail
      case Voided => Fail
      case Draft => if Total(note.lines) <= 0 || !OriginalAccepts(b, note.contact, note.original, 0) then Fail else Go(t.(at := t.at + 1))
    else if t.at == 1 then
      TakeNote(b, locks, t, n, note.status == Draft, note.(status := Finalized, unapplied := Total(note.lines)), Return)
    else if n !in t.claims.notes then Fail
    else
      var own := t.claims.notes[n].after;
      Commit(Publish(b, t.claims.(notes := Set(t.claims.notes, n, own.(entry := Some(|b.journal|))))).(
        journal := Post(b.journal, OfNote(n), NoteEntry(b.side, note.lines))))
  }

  /**
   * Steps 1 to 3 void a finalized note: a credit note is claimed before its uses are counted, and a
   * debit note after. Steps 4 and 5 void a draft.
   */
  function VoidNoteStep(b: Books, locks: Locks, t: Transaction, n: nat): Progress
    requires t.Running?
  {
    if n >= |b.notes| then Fail else
    var note := b.notes[n];
    if t.at == 0 then
      match note.status
      case Voided => Return
      case Draft => Go(t.(at := 4))
      case Finalized => if note.entry.None? || note.entry.value >= |b.journal| then Fail else Go(t.(at := t.at + 1))
    else if t.at == 1 + (if b.side == Receivable then 0 else 1) || t.at == 4 then
      TakeNote(b, locks, t, n, note.status == (if t.at == 4 then Draft else Finalized), note.(status := Voided), Return)
    else if t.at < 3 then
      if NoteInUse(b, n) then Fail else Go(t.(at := t.at + 1))
    else if n !in t.claims.notes then Fail
    else if t.at == 3 then
      if note.entry.None? || note.entry.value >= |b.journal| then Fail else
      var own := t.claims.notes[n].after;
      Commit(Publish(b, t.claims.(notes := Set(t.claims.notes, n, own.(reversal := Some(ReversalId(b.journal, note.entry.value)))))).(
        journal := Reverse(b.journal, note.entry.value)))
    else Commit(Publish(b, t.claims))
  }

  /** Step 0 reads, 1 claims the note, 2 the document, 3 records the use. */
  function ApplyNoteStep(b: Books, locks: Locks, t: Transaction, n: nat, i: nat, amount: Money): Progress
    requires t.Running?
  {
    if amount == 0 || n >= |b.notes| || i >= |b.documents| then Fail else
    var note, d := b.notes[n], b.documents[i];
    if t.at == 0 then
      if NoteCovers(note, amount) && DocumentCovers(d, note.contact, amount) then Go(t.(at := t.at + 1)) else Fail
    else if t.at == 1 then
      TakeNote(b, locks, t, n, NoteCovers(note, amount), note.(unapplied := note.unapplied - amount), Fail)
    else if t.at == 2 then
      TakeDocument(b, locks, t, i, DocumentCovers(d, note.contact, amount), d.(balance := d.balance - amount), Fail)
    else
      var after := Publish(b, t.claims);
      Commit(after.(uses := after.uses + [CreditUse(n, i, amount, true)]))
  }

  /** Step 0 reads, 1 claims the use, 2 restores the note, 3 the document. */
  function ReverseUseStep(b: Books, locks: Locks, t: Transaction, k: nat): Progress
    requires t.Running?
  {
    if k >= |b.uses| then Fail else
    var u := b.uses[k];
    if u.note >= |b.notes| || u.document >= |b.documents| then Fail else
    var note, d := b.notes[u.note], b.documents[u.document];
    if t.at == 0 then
      if u.active && NoteTakesBack(note, u.amount) && DocumentTakesCredit(d, u.amount) then Go(t.(at := t.at + 1)) else Fail
    else if t.at == 1 then
      TakeUse(b, locks, t, k, u.active, u.(active := false), Fail)
    else if t.at == 2 then
      TakeNote(b, locks, t, u.note, NoteTakesBack(note, u.amount), note.(unapplied := note.unapplied + u.amount), Fail)
    else if t.at == 3 then
      TakeDocument(b, locks, t, u.document, DocumentTakesCredit(d, u.amount), d.(balance := d.balance + u.amount), Fail)
    else Commit(Publish(b, t.claims))
  }

  // ---- payments

  predicate PaymentAcceptable(b: Books, account: Account, received: Money, direct: seq<Direct>) {
    received > 0 && !(b.side == Receivable && direct == []) && SumOf(direct, DirectAmount()) <= received && MayHoldCash(b.side, account)
  }

  function Moved(d: Document, amount: int): Document {
    d.(balance := d.balance + amount, txBalance := d.txBalance + amount)
  }

  /** Step 0 plans, steps 1 to |direct| claim the documents, the last one posts. */
  function CreatePaymentStep(b: Books, locks: Locks, t: Transaction, contact: nat, account: Account, received: Money, direct: seq<Direct>): Progress
    requires t.Running?
  {
    if t.at == 0 then
      if PaymentAcceptable(b, account, received, direct) && ValidDirect(b, contact, direct) && PlanPostable(b.documents, direct, received, received)
      then Go(t.(at := t.at + 1)) else Fail
    else if t.at <= |direct| then
      var i, amount := direct[t.at - 1].document, direct[t.at - 1].amount;
      if i >= |b.documents| then Fail
      else TakeDocument(b, locks, t, i, DocumentSettles(b.documents[i], contact, amount, amount), Moved(b.documents[i], -(amount as int)), Fail)
    else
      var open := received - SumOf(direct, DirectAmount());
      var p := Payment(contact, true, account, received, direct, open, open, |b.journal|, None);
      Commit(Publish(b, t.claims).(payments := b.payments + [p], journal := Post(b.journal, OfPayment(|b.payments|), PaymentEntry(b.side, p))))
  }

  /** Step 0 reads, 1 counts the uses, 2 claims the payment; then one step for each document, and the last one reverses the entry. */
  function VoidPaymentStep(b: Books, locks: Locks, t: Transaction, p: nat): Progress
    requires t.Running?
  {
    if p >= |b.payments| then Fail else
    var payment := b.payments[p];
    if t.at == 0 then
      if !payment.posted then Return else if payment.entry >= |b.journal| then Fail else Go(t.(at := t.at + 1))
    else if t.at == 1 then
      if PaymentInUse(b, p) then Fail else Go(t.(at := t.at + 1))
    else if t.at == 2 then
      TakePayment(b, locks, t, p, payment.posted, payment.(posted := false), Return)
    else if t.at - 3 < |payment.direct| then
      var i, amount := payment.direct[t.at - 3].document, payment.direct[t.at - 3].amount;
      if i >= |b.documents| then Fail
      else TakeDocument(b, locks, t, i, MayRestore(b.side, b.documents[i], amount), Moved(b.documents[i], amount), Fail)
    else if p !in t.claims.payments || payment.entry >= |b.journal| then Fail
    else
      var own := t.claims.payments[p].after;
      Commit(Publish(b, t.claims.(payments := Set(t.claims.payments, p, own.(reversal := Some(ReversalId(b.journal, payment.entry)))))).(
        journal := Reverse(b.journal, payment.entry)))
  }

  /** Step 0 plans on what it reads, 1 claims the payment, 2 the document, 3 posts. */
  function ApplyStep(b: Books, locks: Locks, t: Transaction, p: nat, i: nat, amount: Money): Progress
    requires t.Running?
  {
    if amount == 0 || p >= |b.payments| || i >= |b.documents| then Fail else
    var payment, d := b.payments[p], b.documents[i];
    if t.at == 0 then
      var plan := Allocate(amount, d.txBalance, d.balance, payment.txUnapplied, payment.unapplied);
      if !payment.posted || amount > payment.txUnapplied || d.contact != payment.contact
         || d.status != Finalized || amount > d.txBalance || plan.SettlementRefused?
         || !AdjustmentConfigured(b, plan.onPayment - plan.onDocument) then Fail
      else Go(t.(at := 1, plan := plan))
    else if t.plan.SettlementRefused? then Fail
    else if t.at == 1 then
      TakePayment(b, locks, t, p, PaymentCovers(payment, amount, t.plan.onPayment),
                  payment.(unapplied := payment.unapplied - t.plan.onPayment, txUnapplied := payment.txUnapplied - amount), Fail)
    else if t.at == 2 then
      TakeDocument(b, locks, t, i, DocumentSettles(d, payment.contact, amount, t.plan.onDocument),
                   d.(balance := d.balance - t.plan.onDocument, txBalance := d.txBalance - amount), Fail)
    else
      var excess := t.plan.onPayment - t.plan.onDocument;
      var after := Publish(b, t.claims);
      Commit(after.(
        applications := after.applications + [Application(p, payment.contact, i, amount, t.plan.onDocument, t.plan.onPayment, true,
                                                          if excess == 0 then None else Some(|b.journal|))],
        journal := if excess == 0 then b.journal else Post(b.journal, OfApplication(|b.applications|), AdjustmentEntry(b.side, excess))))
  }

  /** Step 0 reads, 1 claims the application, 2 restores the payment, 3 the document, 4 reverses its entry. */
  function ReverseApplicationStep(b: Books, locks: Locks, t: Transaction, k: nat): Progress
    requires t.Running?
  {
    if k >= |b.applications| then Fail else
    var a := b.applications[k];
    if a.payment >= |b.payments| || a.document >= |b.documents| || (a.entry.Some? && a.entry.value >= |b.journal|) then Fail else
    var payment, d := b.payments[a.payment], b.documents[a.document];
    if t.at == 0 then
      if !a.active || !PaymentTakesBack(payment, a) || !DocumentTakesBack(d, a) then Fail else Go(t.(at := t.at + 1))
    else if t.at == 1 then
      TakeApplication(b, locks, t, k, a.active, a.(active := false), Fail)
    else if t.at == 2 then
      TakePayment(b, locks, t, a.payment, PaymentTakesBack(payment, a),
                  payment.(unapplied := payment.unapplied + a.onPayment, txUnapplied := payment.txUnapplied + a.txAmount), Fail)
    else if t.at == 3 then
      TakeDocument(b, locks, t, a.document, DocumentTakesBack(d, a),
                   d.(balance := d.balance + a.onDocument, txBalance := d.txBalance + a.txAmount), Fail)
    else Commit(Publish(b, t.claims).(journal := if a.entry.None? then b.journal else Reverse(b.journal, a.entry.value)))
  }

  // ---- refunds

  /** The conditional update of a refund's source, which moves its unapplied amount. */
  function TakeSource(b: Books, locks: Locks, t: Transaction, source: RefundSource, may: bool, change: int): Progress
    requires t.Running?
  {
    match source
    case FromPayment(p) =>
      if p >= |b.payments| then Fail
      else TakePayment(b, locks, t, p, may, b.payments[p].(unapplied := b.payments[p].unapplied + change), Fail)
    case FromNote(n) =>
      if n >= |b.notes| then Fail
      else TakeNote(b, locks, t, n, may, b.notes[n].(unapplied := b.notes[n].unapplied + change), Fail)
  }

  /** Step 0 reads, 1 claims the source, 2 posts. */
  function CreateRefundStep(b: Books, locks: Locks, t: Transaction, contact: nat, source: RefundSource, account: Account, amount: Money): Progress
    requires t.Running?
  {
    if t.at == 0 then
      if amount == 0 || !MayHoldCash(b.side, account) || !SourceCovers(b, source, contact, amount) then Fail else Go(t.(at := t.at + 1))
    else if t.at == 1 then
      TakeSource(b, locks, t, source, SourceCovers(b, source, contact, amount), -(amount as int))
    else
      var after := Publish(b, t.claims);
      Commit(after.(
        refunds := after.refunds + [Refund(contact, source, account, amount, true, |b.journal|, None)],
        journal := Post(b.journal, OfRefund(|b.refunds|), RefundEntry(b.side, account, amount))))
  }

  /** Step 0 reads, 1 claims the refund, 2 restores its source, 3 reverses its entry. */
  function VoidRefundStep(b: Books, locks: Locks, t: Transaction, r: nat): Progress
    requires t.Running?
  {
    if r >= |b.refunds| then Fail else
    var refund := b.refunds[r];
    if t.at == 0 then
      if !refund.posted then Return
      else if refund.entry >= |b.journal| || !SourceTakesBack(b, refund.source, refund.amount) then Fail
      else Go(t.(at := t.at + 1))
    else if t.at == 1 then
      TakeRefund(b, locks, t, r, refund.posted, refund.(posted := false), Return)
    else if t.at == 2 then
      TakeSource(b, locks, t, refund.source, SourceTakesBack(b, refund.source, refund.amount), refund.amount)
    else if r !in t.claims.refunds || refund.entry >= |b.journal| then Fail
    else
      var own := t.claims.refunds[r].after;
      Commit(Publish(b, t.claims.(refunds := Set(t.claims.refunds, r, own.(reversal := Some(ReversalId(b.journal, refund.entry)))))).(
        journal := Reverse(b.journal, refund.entry)))
  }

  function Step(b: Books, locks: Locks, t: Transaction): Progress
    requires t.Running?
  {
    match t.call
    case DoCreateDocument(contact, lines) => CreateDocumentStep(b, contact, lines)
    case DoFinalizeDocument(i) => FinalizeDocumentStep(b, locks, t, i)
    case DoVoidDocument(i) => VoidDocumentStep(b, locks, t, i)
    case DoCreateNote(contact, lines, original) => CreateNoteStep(b, t, contact, lines, original)
    case DoFinalizeNote(n) => FinalizeNoteStep(b, locks, t, n)
    case DoVoidNote(n) => VoidNoteStep(b, locks, t, n)
    case DoApplyNote(n, i, amount) => ApplyNoteStep(b, locks, t, n, i, amount)
    case DoReverseUse(k) => ReverseUseStep(b, locks, t, k)
    case DoCreatePayment(contact, account, received, direct) => CreatePaymentStep(b, locks, t, contact, account, received, direct)
    case DoVoidPayment(p) => VoidPaymentStep(b, locks, t, p)
    case DoApplyUnapplied(p, i, amount) => ApplyStep(b, locks, t, p, i, amount)
    case DoReverseApplication(k) => ReverseApplicationStep(b, locks, t, k)
    case DoCreateRefund(contact, source, account, amount) => CreateRefundStep(b, locks, t, contact, source, account, amount)
    case DoVoidRefund(r) => VoidRefundStep(b, locks, t, r)
  }

  // ---- the interleaving

  /** The committed tables, the transactions so far, and the calls committed in order. */
  datatype World = World(books: Books, transactions: seq<Transaction>, committed: seq<Call>)

  /** A request arrives, a transaction takes a step, or the database gives one up. */
  datatype Event = Arrive(call: Call) | Proceed(n: nat) | GiveUp(n: nat)

  function LockedByOthers(transactions: seq<Transaction>, n: nat): Locks {
    Locks(
      set m, i | 0 <= m < |transactions| && m != n && transactions[m].Running? && i in transactions[m].claims.documents :: i,
      set m, i | 0 <= m < |transactions| && m != n && transactions[m].Running? && i in transactions[m].claims.notes :: i,
      set m, i | 0 <= m < |transactions| && m != n && transactions[m].Running? && i in transactions[m].claims.payments :: i,
      set m, i | 0 <= m < |transactions| && m != n && transactions[m].Running? && i in transactions[m].claims.applications :: i,
      set m, i | 0 <= m < |transactions| && m != n && transactions[m].Running? && i in transactions[m].claims.uses :: i,
      set m, i | 0 <= m < |transactions| && m != n && transactions[m].Running? && i in transactions[m].claims.refunds :: i)
  }

  function Next(w: World, e: Event): World {
    match e
    case Arrive(c) => w.(transactions := w.transactions + [Begun(c)])
    case GiveUp(n) =>
      if n < |w.transactions| then w.(transactions := w.transactions[n := Ended]) else w
    case Proceed(n) =>
      if n >= |w.transactions| || w.transactions[n].Ended? then w else
      match Step(w.books, LockedByOthers(w.transactions, n), w.transactions[n])
      case Wait => w
      case Fail => w.(transactions := w.transactions[n := Ended])
      case Return => w.(transactions := w.transactions[n := Ended])
      case Go(t) => w.(transactions := w.transactions[n := t])
      case Commit(b) => World(b, w.transactions[n := Ended], w.committed + [w.transactions[n].call])
  }

  function Interleaved(w: World, events: seq<Event>): World {
    if events == [] then w
    else Next(Interleaved(w, events[..|events| - 1]), events[|events| - 1])
  }
}
