/** The control account and the contact ledgers against the open balances. */
module Reconciliation {
  import opened Wrappers
  import opened Sums
  import opened Posting
  import opened Books
  import opened BooksInvariant
  import opened CashEntries

  // ---- the control account

  function CashIn(): Payment -> int {
    (p: Payment) => if p.posted && p.account == Control then p.received else 0
  }

  function CashOut(): Refund -> int {
    (r: Refund) => if r.posted && r.account == Control then r.amount else 0
  }

  /** What went through the control account itself as if it were a bank account. */
  function CashThroughControl(b: Books): int {
    SumOf(b.payments, CashIn()) - SumOf(b.refunds, CashOut())
  }

  lemma DocumentsOnControl(b: Books)
    requires Inv(b)
    ensures SumOf(b.documents, LiveDocument(b.side, Control)) == SumOf(b.documents, Billed(None))
    ensures SumOf(b.notes, LiveNote(b.side, Control)) + SumOf(b.notes, Noted(None)) == 0
  {
    hide PaymentsBalance, DocumentsBalance, NotesBalance, NotesWithin, Paired, AccountsReconcile, ContactsReconcile, Postable;
    forall i | 0 <= i < |b.documents|
      ensures LiveDocument(b.side, Control)(b.documents[i]) == Billed(None)(b.documents[i])
    {
      var d := b.documents[i];
      assert DocumentPosted(d, i, b.side, b.journal);
      if d.status == Finalized {
        DocumentEntryIsRight(b.side, d.lines, Control);
        SumZero(d.lines, TaxableOn(Control));
      }
    }
    SumSame(b.documents, LiveDocument(b.side, Control), Billed(None));
    forall i | 0 <= i < |b.notes|
      ensures LiveNote(b.side, Control)(b.notes[i]) + Noted(None)(b.notes[i]) == 0
    {
      var n := b.notes[i];
      assert NotePosted(n, i, b.side, b.journal);
      if n.status == Finalized {
        NoteEntryIsMirrored(b.side, n.lines, Control);
        SumZero(n.lines, TaxableOn(Control));
      }
    }
    SumsCancel(b.notes, LiveNote(b.side, Control), Noted(None));
  }

  lemma {:induction false} SumsCancel<T>(rows: seq<T>, one: T -> int, other: T -> int)
    requires forall i :: 0 <= i < |rows| ==> one(rows[i]) + other(rows[i]) == 0
    ensures SumOf(rows, one) + SumOf(rows, other) == 0
  {
    if rows != [] {
      SumsCancel(rows[..|rows| - 1], one, other);
    }
  }

  lemma CashOnControl(b: Books)
    requires Inv(b)
    ensures SumOf(b.payments, LivePayment(b.side, Control)) + SumOf(b.payments, Received(None)) == SumOf(b.payments, CashIn())
    ensures SumOf(b.refunds, LiveRefund(b.side, Control)) + SumOf(b.refunds, CashOut()) == SumOf(b.refunds, PaidBack(None))
    ensures SumOf(b.applications, LiveApplication(b.side, Control)) == SumOf(b.applications, ExcessOf(None))
  {
    hide Balances, NotesWithin, Journals, AccountsReconcile, ContactsReconcile, Postable, Total;
    PaymentsOnControl(b);
    RefundsOnControl(b);
    forall i | 0 <= i < |b.applications|
      ensures LiveApplication(b.side, Control)(b.applications[i]) == ExcessOf(None)(b.applications[i])
    {
      var a := b.applications[i];
      if a.active && a.onPayment != a.onDocument {
        AdjustmentEntryIsRight(b.side, a.onPayment - a.onDocument, Control);
      }
    }
    SumSame(b.applications, LiveApplication(b.side, Control), ExcessOf(None));
  }

  lemma PaymentsOnControl(b: Books)
    requires Links(b)
    ensures SumOf(b.payments, LivePayment(b.side, Control)) + SumOf(b.payments, Received(None)) == SumOf(b.payments, CashIn())
  {
    forall i | 0 <= i < |b.payments|
      ensures LivePayment(b.side, Control)(b.payments[i]) + Received(None)(b.payments[i]) == CashIn()(b.payments[i])
    {
      assert DirectLinked(b.payments[i], b.side, b.documents);
      PaymentEntryIsRight(b.side, b.payments[i], Control);
    }
    SumAdds(b.payments, LivePayment(b.side, Control), Received(None), CashIn());
  }

  lemma RefundsOnControl(b: Books)
    requires Links(b)
    ensures SumOf(b.refunds, LiveRefund(b.side, Control)) + SumOf(b.refunds, CashOut()) == SumOf(b.refunds, PaidBack(None))
  {
    forall i | 0 <= i < |b.refunds|
      ensures LiveRefund(b.side, Control)(b.refunds[i]) + CashOut()(b.refunds[i]) == PaidBack(None)(b.refunds[i])
    {
      assert RefundLinked(b.refunds[i], b.side, b.payments, b.notes);
      RefundEntryIsRight(b.side, b.refunds[i].account, b.refunds[i].amount, Control);
    }
    SumAdds(b.refunds, LiveRefund(b.side, Control), CashOut(), PaidBack(None));
  }

  /**
   * In every reachable state the control account stands at the open documents less all unapplied
   * credit, apart from what payments and refunds put through the control account itself.
   */
  lemma ControlAccountReconciles(b: Books)
    requires Inv(b)
    ensures AccountBalance(b, Control) == Outstanding(b, None) + CashThroughControl(b)
    ensures AccountBalance(b, Control) == Outstanding(b, None) <==> CashThroughControl(b) == 0
  {
    DocumentsOnControl(b);
    CashOnControl(b);
    hide Links, NotesWithin, DocumentsBalance, PaymentsBalance, NotesBalance, RecordsPosted, EntriesOwned, Paired;
    assert AccountBalance(b, Control) == LiveEffect(b, Control);
    assert Outstanding(b, None) == Turnover(b, None) + Excess(b, None);
  }

  /** On the supplier side that cannot happen: account 210 is a liability and never passes as a cash account. */
  lemma PayablesAlwaysReconcile(b: Books)
    requires Inv(b) && b.side == Payable
    ensures AccountBalance(b, Control) == Outstanding(b, None)
  {
    ControlAccountReconciles(b);
    hide NotesWithin, DocumentsBalance, PaymentsBalance, NotesBalance, RecordsPosted, EntriesOwned, Paired, AccountsReconcile, ContactsReconcile, Total;
    forall i | 0 <= i < |b.payments|
      ensures CashIn()(b.payments[i]) == 0
    {
      assert DirectLinked(b.payments[i], b.side, b.documents);
    }
    SumZero(b.payments, CashIn());
    forall i | 0 <= i < |b.refunds|
      ensures CashOut()(b.refunds[i]) == 0
    {
      assert RefundLinked(b.refunds[i], b.side, b.payments, b.notes);
    }
    SumZero(b.refunds, CashOut());
  }

  // ---- the contact ledger

  /** A ledger row, as increase and decrease of what the contact owes or is owed. */
  datatype Row = Row(increase: Money, decrease: Money)

  function Change(): Row -> int {
    (r: Row) => r.increase - r.decrease
  }

  function Increases(): Row -> int {
    (r: Row) => r.increase
  }

  function Decreases(): Row -> int {
    (r: Row) => r.decrease
  }

  const NEUTRAL := Row(0, 0)

  /** A record's own row, and the row that takes it back once it is voided. */
  function RowPair(increases: bool, amount: Money, voided: bool): seq<Row> {
    var own := if increases then Row(amount, 0) else Row(0, amount);
    if voided then [own, Row(own.decrease, own.increase)] else [own]
  }

  function DocumentRows(documents: seq<Document>, contact: nat): seq<Row> {
    if documents == [] then [] else
    var d := documents[|documents| - 1];
    DocumentRows(documents[..|documents| - 1], contact)
    + (if d.contact == contact && d.entry.Some? && d.status != Draft then RowPair(true, Total(d.lines), d.status == Voided) else [])
  }

  function NoteRows(notes: seq<Note>, contact: nat): seq<Row> {
    if notes == [] then [] else
    var n := notes[|notes| - 1];
    NoteRows(notes[..|notes| - 1], contact)
    + (if n.contact == contact && n.entry.Some? && n.status != Draft then RowPair(false, Total(n.lines), n.status == Voided) else [])
  }

  function Neutrals(n: nat): seq<Row> {
    seq(n, _ => NEUTRAL)
  }

  function PaymentRows(payments: seq<Payment>, contact: nat): seq<Row> {
    if payments == [] then [] else
    var p := payments[|payments| - 1];
    PaymentRows(payments[..|payments| - 1], contact)
    + (if p.contact == contact then RowPair(false, p.received, !p.posted) + Neutrals(|p.direct|) else [])
  }

  /** One informational row for an application, and one for its reversal. */
  function ApplicationRows(applications: seq<Application>, contact: nat): seq<Row> {
    if applications == [] then [] else
    var a := applications[|applications| - 1];
    ApplicationRows(applications[..|applications| - 1], contact)
    + (if a.contact == contact then Neutrals(if a.active then 1 else 2) else [])
  }

  function UseRows(uses: seq<CreditUse>, notes: seq<Note>, contact: nat): seq<Row> {
    if uses == [] then [] else
    var u := uses[|uses| - 1];
    UseRows(uses[..|uses| - 1], notes, contact)
    + (if u.note < |notes| && notes[u.note].contact == contact then Neutrals(if u.active then 1 else 2) else [])
  }

  function RefundRows(refunds: seq<Refund>, contact: nat): seq<Row> {
    if refunds == [] then [] else
    var r := refunds[|refunds| - 1];
    RefundRows(refunds[..|refunds| - 1], contact)
    + (if r.contact == contact then RowPair(true, r.amount, !r.posted) else [])
  }

  /** The rows `buildCustomerLedgerRows` and `buildSupplierLedgerRows` collect, before they sort them by date. */
  function LedgerRows(b: Books, contact: nat): seq<Row> {
    DocumentRows(b.documents, contact) + NoteRows(b.notes, contact) + UseRows(b.uses, b.notes, contact)
    + PaymentRows(b.payments, contact) + ApplicationRows(b.applications, contact) + RefundRows(b.refunds, contact)
  }

  /** `calculateRunningBalance`. */
  method RunningBalances(rows: seq<Row>, opening: int) returns (balances: seq<int>)
    ensures |balances| == |rows|
    ensures forall i :: 0 <= i < |rows| ==> balances[i] == opening + SumOf(rows[..i + 1], Change())
  {
    var balance := opening;
    balances := [];
    for i := 0 to |rows|
      invariant |balances| == i && balance == opening + SumOf(rows[..i], Change())
      invariant forall k :: 0 <= k < i ==> balances[k] == opening + SumOf(rows[..k + 1], Change())
    {
      assert rows[..i + 1][..i] == rows[..i];
      balance := balance + rows[i].increase - rows[i].decrease;
      balances := balances + [balance];
    }
  }

  /** Taken back or not, a record increases or decreases on its own side, and its reversal on the other. */
  lemma PairShows(increases: bool, amount: Money, voided: bool)
    ensures SumOf(RowPair(increases, amount, voided), Increases()) == if increases || voided then amount else 0
    ensures SumOf(RowPair(increases, amount, voided), Decreases()) == if !increases || voided then amount else 0
    ensures SumOf(RowPair(increases, amount, voided), Change()) == if voided then 0 else if increases then amount else -(amount as int)
  {
    var rows := RowPair(increases, amount, voided);
    if voided {
      assert rows == [rows[0]] + [rows[1]];
      SumInsert([rows[0]], rows[1]);
    }
    SumOne(rows[0], Increases());
    SumOne(rows[0], Decreases());
    SumOne(rows[0], Change());
  }

  lemma MoreRows(rows: seq<Row>, more: seq<Row>, shown: bool, value: Row -> int)
    ensures SumOf(rows + (if shown then more else []), value) == SumOf(rows, value) + if shown then SumOf(more, value) else 0
  {
    SumOfParts(rows, if shown then more else [], value);
  }

  lemma NeutralsAddNothing(n: nat, value: Row -> int)
    requires value(NEUTRAL) == 0
    ensures SumOf(Neutrals(n), value) == 0
  {
    SumZero(Neutrals(n), value);
  }

  lemma {:induction false} DocumentRowsAdd(documents: seq<Document>, contact: nat, value: Row -> int, worth: Document -> int)
    requires value(NEUTRAL) == 0
    requires forall i :: 0 <= i < |documents| ==> worth(documents[i]) == if documents[i].contact == contact && documents[i].entry.Some? && documents[i].status != Draft then SumOf(RowPair(true, Total(documents[i].lines), documents[i].status == Voided), value) else 0
    ensures SumOf(DocumentRows(documents, contact), value) == SumOf(documents, worth)
  {
    hide RowPair, Total;
    if documents != [] {
      var n := |documents| - 1;
      var x := documents[n];
      DocumentRowsAdd(documents[..n], contact, value, worth);
      MoreRows(DocumentRows(documents[..n], contact), RowPair(true, Total(x.lines), x.status == Voided), x.contact == contact && x.entry.Some? && x.status != Draft, value);
    }
  }

  lemma {:induction false} NoteRowsAdd(notes: seq<Note>, contact: nat, value: Row -> int, worth: Note -> int)
    requires value(NEUTRAL) == 0
    requires forall i :: 0 <= i < |notes| ==> worth(notes[i]) == if notes[i].contact == contact && notes[i].entry.Some? && notes[i].status != Draft then SumOf(RowPair(false, Total(notes[i].lines), notes[i].status == Voided), value) else 0
    ensures SumOf(NoteRows(notes, contact), value) == SumOf(notes, worth)
  {
    hide RowPair, Total;
    if notes != [] {
      var n := |notes| - 1;
      var x := notes[n];
      NoteRowsAdd(notes[..n], contact, value, worth);
      MoreRows(NoteRows(notes[..n], contact), RowPair(false, Total(x.lines), x.status == Voided), x.contact == contact && x.entry.Some? && x.status != Draft, value);
    }
  }

  lemma {:induction false} PaymentRowsAdd(payments: seq<Payment>, contact: nat, value: Row -> int, worth: Payment -> int)
    requires value(NEUTRAL) == 0
    requires forall i :: 0 <= i < |payments| ==> worth(payments[i]) == if payments[i].contact == contact then SumOf(RowPair(false, payments[i].received, !payments[i].posted), value) else 0
    ensures SumOf(PaymentRows(payments, contact), value) == SumOf(payments, worth)
  {
    hide RowPair, Neutrals;
    if payments != [] {
      var n := |payments| - 1;
      var x := payments[n];
      PaymentRowsAdd(payments[..n], contact, value, worth);
      NeutralsAddNothing(|x.direct|, value);
      SumOfParts(RowPair(false, x.received, !x.posted), Neutrals(|x.direct|), value);
      MoreRows(PaymentRows(payments[..n], contact), RowPair(false, x.received, !x.posted) + Neutrals(|x.direct|), x.contact == contact, value);
    }
  }

  lemma {:induction false} RefundRowsAdd(refunds: seq<Refund>, contact: nat, value: Row -> int, worth: Refund -> int)
    requires value(NEUTRAL) == 0
    requires forall i :: 0 <= i < |refunds| ==> worth(refunds[i]) == if refunds[i].contact == contact then SumOf(RowPair(true, refunds[i].amount, !refunds[i].posted), value) else 0
    ensures SumOf(RefundRows(refunds, contact), value) == SumOf(refunds, worth)
  {
    hide RowPair;
    if refunds != [] {
      var n := |refunds| - 1;
      var x := refunds[n];
      RefundRowsAdd(refunds[..n], contact, value, worth);
      MoreRows(RefundRows(refunds[..n], contact), RowPair(true, x.amount, !x.posted), x.contact == contact, value);
    }
  }

  lemma {:induction false} ApplicationRowsAdd(applications: seq<Application>, contact: nat, value: Row -> int)
    requires value(NEUTRAL) == 0
    ensures SumOf(ApplicationRows(applications, contact), value) == 0
  {
    if applications != [] {
      var n := |applications| - 1;
      ApplicationRowsAdd(applications[..n], contact, value);
      NeutralsAddNothing(if applications[n].active then 1 else 2, value);
      MoreRows(ApplicationRows(applications[..n], contact), Neutrals(if applications[n].active then 1 else 2), applications[n].contact == contact, value);
    }
  }

  lemma {:induction false} UseRowsAdd(uses: seq<CreditUse>, notes: seq<Note>, contact: nat, value: Row -> int)
    requires value(NEUTRAL) == 0
    ensures SumOf(UseRows(uses, notes, contact), value) == 0
  {
    if uses != [] {
      var n := |uses| - 1;
      UseRowsAdd(uses[..n], notes, contact, value);
      NeutralsAddNothing(if uses[n].active then 1 else 2, value);
      MoreRows(UseRows(uses[..n], notes, contact), Neutrals(if uses[n].active then 1 else 2),
               uses[n].note < |notes| && notes[uses[n].note].contact == contact, value);
    }
  }

  lemma LedgerRowsAdd(b: Books, contact: nat, value: Row -> int)
    requires value(NEUTRAL) == 0
    ensures SumOf(LedgerRows(b, contact), value)
         == SumOf(DocumentRows(b.documents, contact), value) + SumOf(NoteRows(b.notes, contact), value)
            + SumOf(PaymentRows(b.payments, contact), value) + SumOf(RefundRows(b.refunds, contact), value)
  {
    UseRowsAdd(b.uses, b.notes, contact, value);
    ApplicationRowsAdd(b.applications, contact, value);
    hide DocumentRows, NoteRows, UseRows, PaymentRows, ApplicationRows, RefundRows, SumOf;
    var r1 := DocumentRows(b.documents, contact);
    var r2 := NoteRows(b.notes, contact);
    var r3 := UseRows(b.uses, b.notes, contact);
    var r4 := PaymentRows(b.payments, contact);
    var r5 := ApplicationRows(b.applications, contact);
    var r6 := RefundRows(b.refunds, contact);
    SumOfParts(r1, r2, value);
    SumOfParts(r1 + r2, r3, value);
    SumOfParts(r1 + r2 + r3, r4, value);
    SumOfParts(r1 + r2 + r3 + r4, r5, value);
    SumOfParts(r1 + r2 + r3 + r4 + r5, r6, value);
  }

  // A record's amount in the column of its own side, and in the other once it has been taken back.

  function DocumentShown(contact: nat, own: bool): Document -> int {
    (d: Document) => if d.contact == contact && d.entry.Some? && (if own then d.status != Draft else d.status == Voided) then Total(d.lines) else 0
  }

  function NoteShown(contact: nat, own: bool): Note -> int {
    (n: Note) => if n.contact == contact && n.entry.Some? && (if own then n.status != Draft else n.status == Voided) then Total(n.lines) else 0
  }

  function PaymentShown(contact: nat, own: bool): Payment -> int {
    (p: Payment) => if p.contact == contact && (own || !p.posted) then p.received else 0
  }

  function RefundShown(contact: nat, own: bool): Refund -> int {
    (r: Refund) => if r.contact == contact && (own || !r.posted) then r.amount else 0
  }

  lemma ColumnsShow(increases: bool)
    ensures forall amount: Money, voided :: SumOf(RowPair(increases, amount, voided), Increases()) == if increases || voided then amount else 0
    ensures forall amount: Money, voided :: SumOf(RowPair(increases, amount, voided), Decreases()) == if !increases || voided then amount else 0
    ensures forall amount: Money, voided ::
              SumOf(RowPair(increases, amount, voided), Change()) == if voided then 0 else if increases then amount else -(amount as int)
  {
    hide RowPair, SumOf;
    forall amount: Money, voided
      ensures SumOf(RowPair(increases, amount, voided), Increases()) == if increases || voided then amount else 0
      ensures SumOf(RowPair(increases, amount, voided), Decreases()) == if !increases || voided then amount else 0
      ensures SumOf(RowPair(increases, amount, voided), Change()) == if voided then 0 else if increases then amount else -(amount as int)
    {
      PairShows(increases, amount, voided);
    }
  }

  /**
   * The columns of a contact's ledger: documents and refunds increase it, notes and payments decrease it,
   * and each that has been voided once more on the other side.
   */
  lemma LedgerColumns(b: Books, contact: nat)
    ensures SumOf(LedgerRows(b, contact), Increases())
         == SumOf(b.documents, DocumentShown(contact, true)) + SumOf(b.refunds, RefundShown(contact, true))
            + SumOf(b.notes, NoteShown(contact, false)) + SumOf(b.payments, PaymentShown(contact, false))
    ensures SumOf(LedgerRows(b, contact), Decreases())
         == SumOf(b.notes, NoteShown(contact, true)) + SumOf(b.payments, PaymentShown(contact, true))
            + SumOf(b.documents, DocumentShown(contact, false)) + SumOf(b.refunds, RefundShown(contact, false))
  {
    LedgerRowsAdd(b, contact, Increases());
    LedgerRowsAdd(b, contact, Decreases());
    hide LedgerRows, DocumentRows, NoteRows, PaymentRows, RefundRows, SumOf;
    DocumentColumns(b.documents, contact);
    NoteColumns(b.notes, contact);
    PaymentColumns(b.payments, contact);
    RefundColumns(b.refunds, contact);
  }

  lemma DocumentColumns(documents: seq<Document>, contact: nat)
    ensures SumOf(DocumentRows(documents, contact), Increases()) == SumOf(documents, DocumentShown(contact, true))
    ensures SumOf(DocumentRows(documents, contact), Decreases()) == SumOf(documents, DocumentShown(contact, false))
    ensures (forall i :: 0 <= i < |documents| ==> (documents[i].status == Finalized ==> documents[i].entry.Some?)) ==>
              SumOf(DocumentRows(documents, contact), Change()) == SumOf(documents, Billed(Some(contact)))
  {
    hide Total, RowPair, SumOf, DocumentRows;
    ColumnsShow(true);
    DocumentRowsAdd(documents, contact, Increases(), DocumentShown(contact, true));
    DocumentRowsAdd(documents, contact, Decreases(), DocumentShown(contact, false));
    if forall i :: 0 <= i < |documents| ==> (documents[i].status == Finalized ==> documents[i].entry.Some?) {
      DocumentRowsAdd(documents, contact, Change(), Billed(Some(contact)));
    }
  }

  lemma NoteColumns(notes: seq<Note>, contact: nat)
    ensures SumOf(NoteRows(notes, contact), Increases()) == SumOf(notes, NoteShown(contact, false))
    ensures SumOf(NoteRows(notes, contact), Decreases()) == SumOf(notes, NoteShown(contact, true))
    ensures (forall i :: 0 <= i < |notes| ==> (notes[i].status == Finalized ==> notes[i].entry.Some?)) ==>
              SumOf(NoteRows(notes, contact), Change()) == SumOf(notes, Negative(Noted(Some(contact))))
  {
    hide Total, RowPair, SumOf, NoteRows;
    ColumnsShow(false);
    NoteRowsAdd(notes, contact, Increases(), NoteShown(contact, false));
    NoteRowsAdd(notes, contact, Decreases(), NoteShown(contact, true));
    if forall i :: 0 <= i < |notes| ==> (notes[i].status == Finalized ==> notes[i].entry.Some?) {
      NoteRowsAdd(notes, contact, Change(), Negative(Noted(Some(contact))));
    }
  }

  lemma PaymentColumns(payments: seq<Payment>, contact: nat)
    ensures SumOf(PaymentRows(payments, contact), Increases()) == SumOf(payments, PaymentShown(contact, false))
    ensures SumOf(PaymentRows(payments, contact), Decreases()) == SumOf(payments, PaymentShown(contact, true))
    ensures SumOf(PaymentRows(payments, contact), Change()) == SumOf(payments, Negative(Received(Some(contact))))
  {
    hide RowPair, SumOf, PaymentRows;
    ColumnsShow(false);
    PaymentRowsAdd(payments, contact, Increases(), PaymentShown(contact, false));
    PaymentRowsAdd(payments, contact, Decreases(), PaymentShown(contact, true));
    PaymentRowsAdd(payments, contact, Change(), Negative(Received(Some(contact))));
  }

  lemma RefundColumns(refunds: seq<Refund>, contact: nat)
    ensures SumOf(RefundRows(refunds, contact), Increases()) == SumOf(refunds, RefundShown(contact, true))
    ensures SumOf(RefundRows(refunds, contact), Decreases()) == SumOf(refunds, RefundShown(contact, false))
    ensures SumOf(RefundRows(refunds, contact), Change()) == SumOf(refunds, PaidBack(Some(contact)))
  {
    hide RowPair, SumOf, RefundRows;
    ColumnsShow(true);
    RefundRowsAdd(refunds, contact, Increases(), RefundShown(contact, true));
    RefundRowsAdd(refunds, contact, Decreases(), RefundShown(contact, false));
    RefundRowsAdd(refunds, contact, Change(), PaidBack(Some(contact)));
  }

  // How many rows a record has: its own, one more when it has been taken back, and one for each allocation of a payment.

  function DocumentRowsOf(contact: nat): Document -> int {
    (d: Document) => if d.contact == contact && d.entry.Some? && d.status != Draft then (if d.status == Voided then 2 else 1) else 0
  }

  function NoteRowsOf(contact: nat): Note -> int {
    (n: Note) => if n.contact == contact && n.entry.Some? && n.status != Draft then (if n.status == Voided then 2 else 1) else 0
  }

  function PaymentRowsOf(contact: nat): Payment -> int {
    (p: Payment) => if p.contact == contact then (if p.posted then 1 else 2) + |p.direct| else 0
  }

  function RefundRowsOf(contact: nat): Refund -> int {
    (r: Refund) => if r.contact == contact then (if r.posted then 1 else 2) else 0
  }

  function ApplicationRowsOf(contact: nat): Application -> int {
    (a: Application) => if a.contact == contact then (if a.active then 1 else 2) else 0
  }

  function UseRowsOf(notes: seq<Note>, contact: nat): CreditUse -> int {
    (u: CreditUse) => if u.note < |notes| && notes[u.note].contact == contact then (if u.active then 1 else 2) else 0
  }

  lemma {:induction false} DocumentRowsNumber(documents: seq<Document>, contact: nat)
    ensures |DocumentRows(documents, contact)| == SumOf(documents, DocumentRowsOf(contact))
  {
    if documents != [] {
      DocumentRowsNumber(documents[..|documents| - 1], contact);
    }
  }

  lemma {:induction false} NoteRowsNumber(notes: seq<Note>, contact: nat)
    ensures |NoteRows(notes, contact)| == SumOf(notes, NoteRowsOf(contact))
  {
    if notes != [] {
      NoteRowsNumber(notes[..|notes| - 1], contact);
    }
  }

  lemma {:induction false} PaymentRowsNumber(payments: seq<Payment>, contact: nat)
    ensures |PaymentRows(payments, contact)| == SumOf(payments, PaymentRowsOf(contact))
  {
    if payments != [] {
      PaymentRowsNumber(payments[..|payments| - 1], contact);
    }
  }

  lemma {:induction false} RefundRowsNumber(refunds: seq<Refund>, contact: nat)
    ensures |RefundRows(refunds, contact)| == SumOf(refunds, RefundRowsOf(contact))
  {
    if refunds != [] {
      RefundRowsNumber(refunds[..|refunds| - 1], contact);
    }
  }

  lemma {:induction false} ApplicationRowsNumber(applications: seq<Application>, contact: nat)
    ensures |ApplicationRows(applications, contact)| == SumOf(applications, ApplicationRowsOf(contact))
  {
    if applications != [] {
      ApplicationRowsNumber(applications[..|applications| - 1], contact);
    }
  }

  lemma {:induction false} UseRowsNumber(uses: seq<CreditUse>, notes: seq<Note>, contact: nat)
    ensures |UseRows(uses, notes, contact)| == SumOf(uses, UseRowsOf(notes, contact))
  {
    if uses != [] {
      UseRowsNumber(uses[..|uses| - 1], notes, contact);
    }
  }

  lemma LedgerRowsNumber(b: Books, contact: nat)
    ensures |LedgerRows(b, contact)|
         == SumOf(b.documents, DocumentRowsOf(contact)) + SumOf(b.notes, NoteRowsOf(contact)) + SumOf(b.uses, UseRowsOf(b.notes, contact))
            + SumOf(b.payments, PaymentRowsOf(contact)) + SumOf(b.applications, ApplicationRowsOf(contact)) + SumOf(b.refunds, RefundRowsOf(contact))
  {
    DocumentRowsNumber(b.documents, contact);
    NoteRowsNumber(b.notes, contact);
    UseRowsNumber(b.uses, b.notes, contact);
    PaymentRowsNumber(b.payments, contact);
    ApplicationRowsNumber(b.applications, contact);
    RefundRowsNumber(b.refunds, contact);
    hide DocumentRows, NoteRows, UseRows, PaymentRows, ApplicationRows, RefundRows, SumOf;
  }

  /**
   * However the rows are sorted, a contact's ledger closes at its open documents less its unapplied
   * credit, apart from what settlements took from its payments beyond what its documents got.
   */
  lemma LedgerCloses(b: Books, contact: nat, sorted: seq<Row>)
    requires Inv(b) && multiset(sorted) == multiset(LedgerRows(b, contact))
    ensures SumOf(sorted, Change()) == Outstanding(b, Some(contact)) - Excess(b, Some(contact))
    ensures SumOf(sorted, Change()) == Outstanding(b, Some(contact)) <==> Excess(b, Some(contact)) == 0
  {
    forall i | 0 <= i < |b.documents|
      ensures b.documents[i].status == Finalized ==> b.documents[i].entry.Some?
    {
      assert DocumentPosted(b.documents[i], i, b.side, b.journal);
    }
    forall i | 0 <= i < |b.notes|
      ensures b.notes[i].status == Finalized ==> b.notes[i].entry.Some?
    {
      assert NotePosted(b.notes[i], i, b.side, b.journal);
    }
    assert Outstanding(b, Some(contact)) == Turnover(b, Some(contact)) + Excess(b, Some(contact));
    hide Inv;
    LedgerRowsNet(b, contact);
    SumOfReordered(LedgerRows(b, contact), sorted, Change());
  }

  lemma LedgerRowsNet(b: Books, contact: nat)
    requires forall i :: 0 <= i < |b.documents| ==> (b.documents[i].status == Finalized ==> b.documents[i].entry.Some?)
    requires forall i :: 0 <= i < |b.notes| ==> (b.notes[i].status == Finalized ==> b.notes[i].entry.Some?)
    ensures SumOf(LedgerRows(b, contact), Change()) == Turnover(b, Some(contact))
  {
    LedgerRowsAdd(b, contact, Change());
    hide Total, LedgerRows, DocumentRows, NoteRows, PaymentRows, RefundRows, SumOf;
    DocumentColumns(b.documents, contact);
    NoteColumns(b.notes, contact);
    PaymentColumns(b.payments, contact);
    RefundColumns(b.refunds, contact);
    SumsCancel(b.notes, Negative(Noted(Some(contact))), Noted(Some(contact)));
    SumsCancel(b.payments, Negative(Received(Some(contact))), Received(Some(contact)));
  }

  function Negative<T>(value: T -> int): T -> int {
    (x: T) => -value(x)
  }
}
