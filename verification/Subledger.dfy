/**
 * The services as they run: each method is one database transaction that claims rows with
 * conditional updates, posts journals and updates rows in place, and rolls back when a claim fails
 * part of the way. The method leaves the tables exactly as the call of the same name in `Books` says.
 * Where a service tests a row when it reads it and again in the update, only the update is here.
 */
module Subledger {
  import opened Wrappers
  import opened Sums
  import opened Posting
  import opened Books
  import B = Books
  import opened BooksInvariant
  import opened CashEntries
  import opened BooksTheorems

  /** Adds an amount to its account's group, looking the account up among the groups made so far. */
  method AddToGroups(groups: seq<Group>, a: Account, amount: Money) returns (after: seq<Group>)
    ensures after == AddToGroup(groups, a, amount)
  {
    var k := 0;
    while k < |groups| && groups[k].account != a
      invariant 0 <= k <= |groups| && forall i :: 0 <= i < k ==> groups[i].account != a
    {
      k := k + 1;
    }
    AddedAt(groups, a, amount, k);
    if k < |groups| {
      after := groups[k := groups[k].(amount := groups[k].amount + amount)];
    } else {
      after := groups + [Group(a, amount)];
    }
  }

  lemma {:induction false} AddedAt(groups: seq<Group>, a: Account, amount: Money, k: nat)
    requires k <= |groups| && (forall i :: 0 <= i < k ==> groups[i].account != a) && (k < |groups| ==> groups[k].account == a)
    ensures AddToGroup(groups, a, amount)
         == if k < |groups| then groups[k := groups[k].(amount := groups[k].amount + amount)] else groups + [Group(a, amount)]
  {
    if k > 0 {
      AddedAt(groups[1..], a, amount, k - 1);
    }
  }

  method GroupByAccount(lines: seq<DocumentLine>) returns (groups: seq<Group>)
    ensures groups == Grouped(lines)
  {
    groups := [];
    for i := 0 to |lines|
      invariant groups == Grouped(lines[..i])
    {
      assert lines[..i + 1][..i] == lines[..i];
      groups := AddToGroups(groups, lines[i].account, lines[i].taxable);
    }
    assert lines[..|lines|] == lines;
  }

  /** One line for every group that is not zero, then the tax line when there is tax. */
  method BuildBody(debit: bool, lines: seq<DocumentLine>) returns (body: seq<Line>)
    ensures body == Body(debit, lines)
  {
    var groups := GroupByAccount(lines);
    body := [];
    for k := 0 to |groups|
      invariant body == GroupLines(debit, groups[..k])
    {
      assert groups[..k + 1][..k] == groups[..k];
      if groups[k].amount != 0 {
        body := body + [if debit then Line(groups[k].account, groups[k].amount, 0) else Line(groups[k].account, 0, groups[k].amount)];
      }
    }
    assert groups[..|groups|] == groups;
    var tax := TaxTotal(lines);
    if tax > 0 {
      body := body + [if debit then Line(Vat, tax, 0) else Line(Vat, 0, tax)];
    }
  }

  method BuildEntry(controlOnDebit: bool, lines: seq<DocumentLine>) returns (entry: seq<Line>)
    ensures entry == WithControl(controlOnDebit, Total(lines), Body(!controlOnDebit, lines))
  {
    var body := BuildBody(!controlOnDebit, lines);
    if controlOnDebit {
      entry := [Line(Control, Total(lines), 0)] + body;
    } else {
      entry := body + [Line(Control, 0, Total(lines))];
    }
  }

  /** The control-account lines of the allocations, and what they leave of the amount received. */
  method BuildAllocations(debit: bool, p: Payment) returns (control: seq<Line>, rest: int)
    ensures control == DirectLines(debit, p.direct) && rest == p.received - SumOf(p.direct, DirectAmount())
  {
    control, rest := [], p.received;
    ghost var amounts := ControlAmounts(p.direct);
    for k := 0 to |p.direct|
      invariant control == GroupLines(debit, amounts[..k]) && rest == p.received - SumOf(p.direct[..k], DirectAmount())
    {
      assert amounts[..k + 1][..k] == amounts[..k] && p.direct[..k + 1][..k] == p.direct[..k];
      var amount := p.direct[k].amount;
      if amount != 0 {
        control := control + [if debit then Line(Control, amount, 0) else Line(Control, 0, amount)];
      }
      rest := rest - amount;
    }
    assert p.direct[..|p.direct|] == p.direct && amounts[..|p.direct|] == amounts;
  }

  /** The cash line, and a control-account line for every allocation and for the rest. */
  method BuildPayment(side: Side, p: Payment) returns (entry: seq<Line>)
    requires SumOf(p.direct, DirectAmount()) <= p.received
    ensures entry == PaymentEntry(side, p)
  {
    hide DirectLines, SumOf;
    var debit := side == Payable;
    var control, rest := BuildAllocations(debit, p);
    if rest > 0 {
      control := control + [if debit then Line(Control, rest, 0) else Line(Control, 0, rest)];
    }
    if debit {
      entry := control + [Line(p.account, 0, p.received)];
    } else {
      entry := [Line(p.account, p.received, 0)] + control;
    }
  }

  function Outcome(b: Books, attempt: Attempt): Books {
    match attempt
    case Done(b') => b'
    case Refused => b
  }

  class Subledger {
    const side: Side
    const gainAccount: bool
    const lossAccount: bool
    var documents: seq<Document>
    var notes: seq<Note>
    var payments: seq<Payment>
    var applications: seq<Application>
    var uses: seq<CreditUse>
    var refunds: seq<Refund>
    var journal: seq<Entry>

    function Tables(): Books
      reads this
    {
      Books(side, gainAccount, lossAccount, documents, notes, payments, applications, uses, refunds, journal)
    }

    ghost predicate Valid()
      reads this
    {
      Inv(Tables())
    }

    constructor (side: Side, gainAccount: bool, lossAccount: bool)
      ensures Valid() && Tables() == Opened(side, gainAccount, lossAccount)
    {
      this.side, this.gainAccount, this.lossAccount := side, gainAccount, lossAccount;
      documents, notes, payments, applications, uses, refunds, journal := [], [], [], [], [], [], [];
      EveryRunKeepsInvariant(side, gainAccount, lossAccount, []);
    }

    /** What the database does to a transaction that fails. */
    method Rollback(saved: Books)
      requires saved.side == side && saved.gainAccount == gainAccount && saved.lossAccount == lossAccount
      modifies this
      ensures Tables() == saved
    {
      documents, notes, payments := saved.documents, saved.notes, saved.payments;
      applications, uses, refunds, journal := saved.applications, saved.uses, saved.refunds, saved.journal;
    }

    method PostEntry(origin: Origin, lines: seq<Line>) returns (id: nat)
      modifies this`journal
      ensures id == |old(journal)| && journal == Post(old(journal), origin, lines)
    {
      id := |journal|;
      journal := journal + [Entry(origin, lines, None)];
    }

    /** Reuses the reversal there is, or posts the opposite lines and marks the entry reversed. */
    method CreateOrReuseReversal(e: nat) returns (id: nat)
      requires e < |journal|
      modifies this`journal
      ensures journal == Reverse(old(journal), e) && id == ReversalId(old(journal), e)
    {
      if journal[e].reversedBy.Some? {
        return journal[e].reversedBy.value;
      }
      id := |journal|;
      var opposite: seq<Line> := [];
      var lines := journal[e].lines;
      for k := 0 to |lines|
        invariant opposite == Reversed(lines[..k])
        invariant journal == old(journal)
      {
        opposite := opposite + [Line(lines[k].account, lines[k].credit, lines[k].debit)];
      }
      assert lines[..|lines|] == lines;
      journal := journal + [Entry(ReversalOf(e), opposite, None)];
      journal := journal[e := journal[e].(reversedBy := Some(id))];
    }

    method CreateDocument(contact: nat, lines: seq<DocumentLine>) returns (ok: bool)
      modifies this`documents
      ensures Tables() == Outcome(old(Tables()), B.CreateDocument(old(Tables()), contact, lines))
      ensures ok == B.CreateDocument(old(Tables()), contact, lines).Done?
    {
      ok := ValidLines(lines);
      if ok {
        documents := documents + [Document(contact, Draft, lines, Total(lines), Total(lines), None, None)];
      }
    }

    method CreateNote(contact: nat, lines: seq<DocumentLine>, original: Option<nat>) returns (ok: bool)
      modifies this`notes
      ensures Tables() == Outcome(old(Tables()), B.CreateNote(old(Tables()), contact, lines, original))
      ensures ok == B.CreateNote(old(Tables()), contact, lines, original).Done?
    {
      ok := ValidLines(lines) && OriginalAccepts(Tables(), contact, original, Total(lines));
      if ok {
        notes := notes + [Note(contact, Draft, lines, original, Total(lines), None, None)];
      }
    }

    method FinalizeDocument(i: nat) returns (ok: bool)
      modifies this
      ensures Tables() == Outcome(old(Tables()), B.FinalizeDocument(old(Tables()), i))
      ensures ok == B.FinalizeDocument(old(Tables()), i).Done?
    {
      if i >= |documents| || documents[i].status == Voided {
        return false;
      }
      if documents[i].status == Finalized {
        return documents[i].entry.Some?;
      }
      var lines := documents[i].lines;
      if Total(lines) <= 0 {
        return false;
      }
      documents := documents[i := documents[i].(status := Finalized, balance := Total(lines), txBalance := Total(lines))];
      var entry := BuildEntry(side == Receivable, lines);
      var id := PostEntry(OfDocument(i), entry);
      documents := documents[i := documents[i].(entry := Some(id))];
      return true;
    }

    /** An invoice is claimed before its uses are counted, and the claim rolled back when there is one; a bill is claimed after. */
    method VoidDocument(i: nat) returns (ok: bool)
      modifies this
      ensures Tables() == Outcome(old(Tables()), B.VoidDocument(old(Tables()), i))
      ensures ok == B.VoidDocument(old(Tables()), i).Done?
    {
      hide Reverse, ReversalId, Total, PaidDirectly, PaidLater, Credited;
      if i >= |documents| {
        return false;
      }
      if documents[i].status != Finalized {
        if documents[i].status == Draft {
          documents := documents[i := documents[i].(status := Voided, balance := 0, txBalance := 0)];
        }
        return true;
      }
      if documents[i].entry.None? || documents[i].entry.value >= |journal| {
        return false;
      }
      if side == Payable && (PaidDirectly(Tables(), i) || PaidLater(Tables(), i) || Credited(Tables(), i)) {
        return false;
      }
      var saved := Tables();
      documents := documents[i := documents[i].(status := Voided, balance := 0, txBalance := 0)];
      CountsAlike(saved, Tables(), i);
      if side == Receivable && (PaidDirectly(Tables(), i) || PaidLater(Tables(), i) || Credited(Tables(), i)) {
        Rollback(saved);
        return false;
      }
      var reversal := CreateOrReuseReversal(documents[i].entry.value);
      documents := documents[i := documents[i].(reversal := Some(reversal))];
      return true;
    }

    method FinalizeNote(n: nat) returns (ok: bool)
      modifies this
      ensures Tables() == Outcome(old(Tables()), B.FinalizeNote(old(Tables()), n))
      ensures ok == B.FinalizeNote(old(Tables()), n).Done?
    {
      if n >= |notes| || notes[n].status == Voided {
        return false;
      }
      if notes[n].status == Finalized {
        return notes[n].entry.Some?;
      }
      var lines := notes[n].lines;
      if Total(lines) <= 0 || !OriginalAccepts(Tables(), notes[n].contact, notes[n].original, 0) {
        return false;
      }
      notes := notes[n := notes[n].(status := Finalized, unapplied := Total(lines))];
      var entry := BuildEntry(side == Payable, lines);
      var id := PostEntry(OfNote(n), entry);
      notes := notes[n := notes[n].(entry := Some(id))];
      return true;
    }

    /** A credit note is claimed before its uses are counted, a debit note after. */
    method VoidNote(n: nat) returns (ok: bool)
      modifies this
      ensures Tables() == Outcome(old(Tables()), B.VoidNote(old(Tables()), n))
      ensures ok == B.VoidNote(old(Tables()), n).Done?
    {
      if n >= |notes| {
        return false;
      }
      if notes[n].status != Finalized {
        notes := notes[n := notes[n].(status := Voided)];
        return true;
      }
      if notes[n].entry.None? || notes[n].entry.value >= |journal| {
        return false;
      }
      if side == Payable && NoteInUse(Tables(), n) {
        return false;
      }
      var saved := Tables();
      notes := notes[n := notes[n].(status := Voided)];
      if side == Receivable && NoteInUse(Tables(), n) {
        Rollback(saved);
        return false;
      }
      var reversal := CreateOrReuseReversal(notes[n].entry.value);
      notes := notes[n := notes[n].(reversal := Some(reversal))];
      return true;
    }

    // ---- conditional updates of one row: `ok` is whether the row met the condition, and nothing is written when it did not

    method ClaimNote(n: nat, amount: Money) returns (ok: bool)
      requires n < |notes|
      modifies this`notes
      ensures ok == NoteCovers(old(notes)[n], amount)
      ensures notes == if ok then old(notes)[n := old(notes)[n].(unapplied := old(notes)[n].unapplied - amount)] else old(notes)
    {
      ok := NoteCovers(notes[n], amount);
      if ok {
        notes := notes[n := notes[n].(unapplied := notes[n].unapplied - amount)];
      }
    }

    method CreditDocument(i: nat, contact: nat, amount: Money) returns (ok: bool)
      requires i < |documents|
      modifies this`documents
      ensures ok == DocumentCovers(old(documents)[i], contact, amount)
      ensures documents == if ok then old(documents)[i := old(documents)[i].(balance := old(documents)[i].balance - amount)] else old(documents)
    {
      ok := DocumentCovers(documents[i], contact, amount);
      if ok {
        documents := documents[i := documents[i].(balance := documents[i].balance - amount)];
      }
    }

    method RestoreNote(n: nat, amount: Money) returns (ok: bool)
      requires n < |notes|
      modifies this`notes
      ensures ok == NoteTakesBack(old(notes)[n], amount)
      ensures notes == if ok then old(notes)[n := old(notes)[n].(unapplied := old(notes)[n].unapplied + amount)] else old(notes)
    {
      ok := NoteTakesBack(notes[n], amount);
      if ok {
        notes := notes[n := notes[n].(unapplied := notes[n].unapplied + amount)];
      }
    }

    method RestoreCredit(i: nat, amount: Money) returns (ok: bool)
      requires i < |documents|
      modifies this`documents
      ensures ok == DocumentTakesCredit(old(documents)[i], amount)
      ensures documents == if ok then old(documents)[i := old(documents)[i].(balance := old(documents)[i].balance + amount)] else old(documents)
    {
      ok := DocumentTakesCredit(documents[i], amount);
      if ok {
        documents := documents[i := documents[i].(balance := documents[i].balance + amount)];
      }
    }

    method ClaimPayment(p: nat, txAmount: Money, amount: Money) returns (ok: bool)
      requires p < |payments|
      modifies this`payments
      ensures ok == PaymentCovers(old(payments)[p], txAmount, amount)
      ensures payments == if ok then old(payments)[p := old(payments)[p].(unapplied := old(payments)[p].unapplied - amount,
                                                                          txUnapplied := old(payments)[p].txUnapplied - txAmount)]
                          else old(payments)
    {
      ok := PaymentCovers(payments[p], txAmount, amount);
      if ok {
        payments := payments[p := payments[p].(unapplied := payments[p].unapplied - amount, txUnapplied := payments[p].txUnapplied - txAmount)];
      }
    }

    method SettleDocument(i: nat, contact: nat, txAmount: Money, amount: Money) returns (ok: bool)
      requires i < |documents|
      modifies this`documents
      ensures ok == DocumentSettles(old(documents)[i], contact, txAmount, amount)
      ensures documents == if ok then old(documents)[i := old(documents)[i].(balance := old(documents)[i].balance - amount,
                                                                             txBalance := old(documents)[i].txBalance - txAmount)]
                           else old(documents)
    {
      ok := DocumentSettles(documents[i], contact, txAmount, amount);
      if ok {
        documents := documents[i := documents[i].(balance := documents[i].balance - amount, txBalance := documents[i].txBalance - txAmount)];
      }
    }

    method RestorePayment(p: nat, a: Application) returns (ok: bool)
      requires p < |payments|
      modifies this`payments
      ensures ok == PaymentTakesBack(old(payments)[p], a)
      ensures payments == if ok then old(payments)[p := old(payments)[p].(unapplied := old(payments)[p].unapplied + a.onPayment,
                                                                          txUnapplied := old(payments)[p].txUnapplied + a.txAmount)]
                          else old(payments)
    {
      ok := PaymentTakesBack(payments[p], a);
      if ok {
        payments := payments[p := payments[p].(unapplied := payments[p].unapplied + a.onPayment, txUnapplied := payments[p].txUnapplied + a.txAmount)];
      }
    }

    method ReopenDocument(i: nat, a: Application) returns (ok: bool)
      requires i < |documents|
      modifies this`documents
      ensures ok == DocumentTakesBack(old(documents)[i], a)
      ensures documents == if ok then old(documents)[i := old(documents)[i].(balance := old(documents)[i].balance + a.onDocument,
                                                                             txBalance := old(documents)[i].txBalance + a.txAmount)]
                           else old(documents)
    {
      ok := DocumentTakesBack(documents[i], a);
      if ok {
        documents := documents[i := documents[i].(balance := documents[i].balance + a.onDocument, txBalance := documents[i].txBalance + a.txAmount)];
      }
    }

    // ---- applying notes

    /** Claims the note and then the document; a document that cannot take the credit undoes the note's claim. */
    method ApplyNote(n: nat, i: nat, amount: Money) returns (ok: bool)
      modifies this
      ensures Tables() == Outcome(old(Tables()), B.ApplyNote(old(Tables()), n, i, amount))
      ensures ok == B.ApplyNote(old(Tables()), n, i, amount).Done?
    {
      if amount == 0 || n >= |notes| || i >= |documents| {
        return false;
      }
      var saved := Tables();
      ok := ClaimNote(n, amount);
      if ok {
        ok := CreditDocument(i, notes[n].contact, amount);
      }
      if !ok {
        Rollback(saved);
        return;
      }
      uses := uses + [CreditUse(n, i, amount, true)];
    }

    /** Claims the use and restores the note and the document; one that cannot take the amount back undoes it all. */
    method ReverseUse(k: nat) returns (ok: bool)
      modifies this
      ensures Tables() == Outcome(old(Tables()), B.ReverseUse(old(Tables()), k))
      ensures ok == B.ReverseUse(old(Tables()), k).Done?
    {
      hide Total;
      if k >= |uses| || !uses[k].active || uses[k].note >= |notes| || uses[k].document >= |documents| {
        return false;
      }
      var saved := Tables();
      var use := uses[k];
      uses := uses[k := use.(active := false)];
      ok := RestoreNote(use.note, use.amount);
      if ok {
        ok := RestoreCredit(use.document, use.amount);
      }
      if !ok {
        Rollback(saved);
      }
    }

    // ---- payments

    /** Whether every allocation settles just its amount, on running open amounts of the payment. */
    method PlanAllocations(direct: seq<Direct>, received: Money) returns (ok: bool)
      requires forall k :: 0 <= k < |direct| ==> direct[k].document < |documents|
      ensures ok == PlanPostable(documents, direct, received, received)
    {
      var openTx: int, openBase: int := received, received;
      for k := 0 to |direct|
        invariant PlanPostable(documents, direct, received, received) == PlanPostable(documents, direct[k..], openTx, openBase)
      {
        var d := documents[direct[k].document];
        assert direct[k..][0] == direct[k] && direct[k..][1..] == direct[k + 1..];
        match Allocate(direct[k].amount, d.txBalance, d.balance, openTx, openBase) {
          case SettlementRefused =>
            return false;
          case Settled(onDocument, onPayment) =>
            if onDocument != direct[k].amount {
              return false;
            }
            openTx, openBase := openTx - direct[k].amount, openBase - onPayment;
        }
      }
      return true;
    }

    /** Spends the documents one after another, and stops at one that cannot cover its amount. */
    method SpendDocuments(contact: nat, direct: seq<Direct>) returns (ok: bool, spent: nat)
      requires DistinctDocuments(direct) && forall k :: 0 <= k < |direct| ==> direct[k].amount > 0 && direct[k].document < |documents|
      modifies this`documents
      ensures spent <= |direct| && documents == Allocated(old(documents), direct[..spent], -1)
      ensures ok == AllSpendable(old(documents), contact, direct) == (spent == |direct|)
    {
      spent := 0;
      while spent < |direct|
        invariant spent <= |direct| && documents == Allocated(old(documents), direct[..spent], -1)
        invariant AllSpendable(old(documents), contact, direct[..spent])
      {
        assert direct[..spent + 1][..spent] == direct[..spent];
        UntouchedYet(old(documents), direct, -1, spent);
        ok := SettleDocument(direct[spent].document, contact, direct[spent].amount, direct[spent].amount);
        if !ok {
          return false, spent;
        }
        spent := spent + 1;
      }
      assert direct[..|direct|] == direct;
      ok := true;
    }

    /** Gives the documents their amounts back one after another, and stops at one that cannot take its amount. */
    method RestoreDocuments(direct: seq<Direct>) returns (ok: bool, restored: nat)
      requires DistinctDocuments(direct) && forall k :: 0 <= k < |direct| ==> direct[k].document < |documents|
      modifies this`documents
      ensures restored <= |direct| && documents == Allocated(old(documents), direct[..restored], 1)
      ensures ok == Restorable(old(Tables()), direct) == (restored == |direct|)
    {
      hide Total;
      restored := 0;
      while restored < |direct|
        invariant restored <= |direct| && documents == Allocated(old(documents), direct[..restored], 1)
        invariant Restorable(old(Tables()), direct[..restored])
      {
        var i, amount := direct[restored].document, direct[restored].amount;
        assert direct[..restored + 1][..restored] == direct[..restored];
        UntouchedYet(old(documents), direct, 1, restored);
        if !MayRestore(side, documents[i], amount) {
          return false, restored;
        }
        documents := documents[i := documents[i].(balance := documents[i].balance + amount, txBalance := documents[i].txBalance + amount)];
        restored := restored + 1;
      }
      assert direct[..|direct|] == direct;
      ok := true;
    }

    method AddUp(direct: seq<Direct>) returns (total: int)
      ensures total == SumOf(direct, DirectAmount())
    {
      total := 0;
      for k := 0 to |direct|
        invariant total == SumOf(direct[..k], DirectAmount())
      {
        assert direct[..k + 1][..k] == direct[..k];
        total := total + direct[k].amount;
      }
      assert direct[..|direct|] == direct;
    }

    /** Plans the allocations on the balances it read, then claims the documents and posts; one that cannot be claimed undoes the others. */
    method CreatePayment(contact: nat, account: Account, received: Money, direct: seq<Direct>) returns (ok: bool)
      modifies this
      ensures Tables() == Outcome(old(Tables()), B.CreatePayment(old(Tables()), contact, account, received, direct))
      ensures ok == B.CreatePayment(old(Tables()), contact, account, received, direct).Done?
    {
      hide PaymentEntry, Allocated, PlanPostable, DistinctDocuments;
      var total := AddUp(direct);
      if received == 0 || (side == Receivable && direct == []) || total > received || !MayHoldCash(side, account)
         || !DistinctDocuments(direct) || !(forall k :: 0 <= k < |direct| ==> direct[k].document < |documents|) {
        return false;
      }
      ok := PlanAllocations(direct, received);
      if !ok {
        return;
      }
      PlannedIsValid(Tables(), contact, direct, received);
      hide AllSpendable, ValidDirect;
      var saved := Tables();
      var spent;
      ok, spent := SpendDocuments(contact, direct);
      if !ok {
        Rollback(saved);
        return;
      }
      assert direct[..|direct|] == direct;
      RecordPayment(Payment(contact, true, account, received, direct, received - total, received - total, |journal|, None));
    }

    method RecordPayment(p: Payment)
      requires p.entry == |journal| && SumOf(p.direct, DirectAmount()) <= p.received
      modifies this`payments, this`journal
      ensures payments == old(payments) + [p] && journal == Post(old(journal), OfPayment(|old(payments)|), PaymentEntry(side, p))
    {
      var entry := BuildPayment(side, p);
      var id := PostEntry(OfPayment(|payments|), entry);
      payments := payments + [p];
    }

    /** Claims the payment, then restores its documents; one that cannot be restored undoes the whole void. */
    method VoidPayment(p: nat) returns (ok: bool)
      requires p < |payments| ==>
                 && DistinctDocuments(payments[p].direct)
                 && forall k :: 0 <= k < |payments[p].direct| ==> payments[p].direct[k].document < |documents|
      modifies this
      ensures Tables() == Outcome(old(Tables()), B.VoidPayment(old(Tables()), p))
      ensures ok == B.VoidPayment(old(Tables()), p).Done?
    {
      hide Allocated, Reverse, ReversalId, PaymentInUse, Total, DistinctDocuments, Restorable;
      if p >= |payments| {
        return false;
      }
      if !payments[p].posted {
        return true;
      }
      if PaymentInUse(Tables(), p) || payments[p].entry >= |journal| {
        return false;
      }
      var saved := Tables();
      payments := payments[p := payments[p].(posted := false)];
      var direct := payments[p].direct;
      RestorableAlike(saved, Tables(), direct);
      var restored;
      ok, restored := RestoreDocuments(direct);
      if !ok {
        Rollback(saved);
        return;
      }
      assert direct[..|direct|] == direct;
      var reversal := CreateOrReuseReversal(payments[p].entry);
      payments := payments[p := payments[p].(reversal := Some(reversal))];
    }

    /** Plans on the balances it read, then claims the payment and the document, and undoes it all when either does not cover the plan. */
    method ApplyUnapplied(p: nat, i: nat, amount: Money) returns (ok: bool)
      modifies this
      ensures Tables() == Outcome(old(Tables()), B.ApplyUnapplied(old(Tables()), p, i, amount))
      ensures ok == B.ApplyUnapplied(old(Tables()), p, i, amount).Done?
    {
      hide Allocate, AdjustmentConfigured, AdjustmentEntry;
      if amount == 0 || p >= |payments| || i >= |documents| {
        return false;
      }
      var plan := Allocate(amount, documents[i].txBalance, documents[i].balance, payments[p].txUnapplied, payments[p].unapplied);
      if plan.SettlementRefused? || !AdjustmentConfigured(Tables(), plan.onPayment - plan.onDocument) {
        return false;
      }
      var saved := Tables();
      ok := ClaimPayment(p, amount, plan.onPayment);
      if ok {
        ok := SettleDocument(i, payments[p].contact, amount, plan.onDocument);
      }
      if !ok {
        Rollback(saved);
        return;
      }
      var entry: Option<nat> := None;
      if plan.onPayment != plan.onDocument {
        var id := PostEntry(OfApplication(|applications|), AdjustmentEntry(side, plan.onPayment - plan.onDocument));
        entry := Some(id);
      }
      applications := applications + [Application(p, payments[p].contact, i, amount, plan.onDocument, plan.onPayment, true, entry)];
    }

    /** Claims the application and reverses its entry, then restores the payment and the document; either may undo it all. */
    method ReverseApplication(k: nat) returns (ok: bool)
      modifies this
      ensures Tables() == Outcome(old(Tables()), B.ReverseApplication(old(Tables()), k))
      ensures ok == B.ReverseApplication(old(Tables()), k).Done?
    {
      hide Reverse, Total;
      if k >= |applications| || !applications[k].active
         || applications[k].payment >= |payments| || applications[k].document >= |documents|
         || (applications[k].entry.Some? && applications[k].entry.value >= |journal|) {
        return false;
      }
      var saved := Tables();
      var a := applications[k];
      applications := applications[k := a.(active := false)];
      if a.entry.Some? {
        var reversal := CreateOrReuseReversal(a.entry.value);
      }
      ok := RestorePayment(a.payment, a);
      if ok {
        ok := ReopenDocument(a.document, a);
      }
      if !ok {
        Rollback(saved);
      }
    }

    // ---- refunds

    /** Claims the amount on the payment or note it is paid from. */
    method ClaimSource(source: RefundSource, contact: nat, amount: Money) returns (ok: bool)
      modifies this`payments, this`notes
      ensures ok == SourceCovers(old(Tables()), source, contact, amount)
      ensures Tables() == if ok then SourceMoved(old(Tables()), source, -(amount as int)) else old(Tables())
    {
      ok := SourceCovers(Tables(), source, contact, amount);
      if ok {
        MoveSource(source, -(amount as int));
      }
    }

    /** Gives it back, unless the source has been closed or would hold more than it started from. */
    method RestoreSource(source: RefundSource, amount: Money) returns (ok: bool)
      modifies this`payments, this`notes
      ensures ok == SourceTakesBack(old(Tables()), source, amount)
      ensures Tables() == if ok then SourceMoved(old(Tables()), source, amount) else old(Tables())
    {
      ok := SourceTakesBack(Tables(), source, amount);
      if ok {
        MoveSource(source, amount);
      }
    }

    method MoveSource(source: RefundSource, change: int)
      requires SourceOpen(Tables(), source)
      modifies this`payments, this`notes
      ensures Tables() == SourceMoved(old(Tables()), source, change)
    {
      match source {
        case FromPayment(p) =>
          payments := payments[p := payments[p].(unapplied := payments[p].unapplied + change)];
        case FromNote(n) =>
          notes := notes[n := notes[n].(unapplied := notes[n].unapplied + change)];
      }
    }

    method CreateRefund(contact: nat, source: RefundSource, account: Account, amount: Money) returns (ok: bool)
      modifies this
      ensures Tables() == Outcome(old(Tables()), B.CreateRefund(old(Tables()), contact, source, account, amount))
      ensures ok == B.CreateRefund(old(Tables()), contact, source, account, amount).Done?
    {
      hide RefundEntry;
      if amount == 0 || !MayHoldCash(side, account) {
        return false;
      }
      ok := ClaimSource(source, contact, amount);
      if ok {
        var id := PostEntry(OfRefund(|refunds|), RefundEntry(side, account, amount));
        refunds := refunds + [Refund(contact, source, account, amount, true, id, None)];
      }
    }

    /** Claims the refund and reverses its entry before it restores the source, which may undo both. */
    method VoidRefund(r: nat) returns (ok: bool)
      modifies this
      ensures Tables() == Outcome(old(Tables()), B.VoidRefund(old(Tables()), r))
      ensures ok == B.VoidRefund(old(Tables()), r).Done?
    {
      hide Reverse, ReversalId, Total;
      if r >= |refunds| {
        return false;
      }
      if !refunds[r].posted {
        return true;
      }
      var refund := refunds[r];
      if refund.entry >= |journal| {
        return false;
      }
      var saved := Tables();
      refunds := refunds[r := refund.(posted := false)];
      var reversal := CreateOrReuseReversal(refund.entry);
      ok := RestoreSource(refund.source, refund.amount);
      if !ok {
        Rollback(saved);
        return;
      }
      refunds := refunds[r := refunds[r].(reversal := Some(reversal))];
    }

    /** Any call, in any order: the tables satisfy the invariant before and after it. */
    method Serve(c: Call) returns (ok: bool)
      requires Valid()
      modifies this
      ensures Valid() && Tables() == After(old(Tables()), c) && ok == Try(old(Tables()), c).Done?
    {
      hide B.FinalizeDocument, B.VoidDocument, B.FinalizeNote, B.VoidNote, B.ApplyNote, B.ReverseUse, B.CreatePayment, B.VoidPayment,
        B.ApplyUnapplied, B.ReverseApplication, B.CreateRefund, B.VoidRefund, B.CreateDocument, B.CreateNote;
      CallKeepsInvariant(Tables(), c);
      ghost var before := Tables();
      if c.DoVoidPayment? && c.payment < |payments| {
        assert DirectLinked(payments[c.payment], side, documents);
      }
      hide Inv;
      match c {
        case DoCreateDocument(contact, lines) => ok := CreateDocument(contact, lines);
        case DoFinalizeDocument(i) => ok := FinalizeDocument(i);
        case DoVoidDocument(i) => ok := VoidDocument(i);
        case DoCreateNote(contact, lines, original) => ok := CreateNote(contact, lines, original);
        case DoFinalizeNote(n) => ok := FinalizeNote(n);
        case DoVoidNote(n) => ok := VoidNote(n);
        case DoApplyNote(n, i, amount) => ok := ApplyNote(n, i, amount);
        case DoReverseUse(k) => ok := ReverseUse(k);
        case DoCreatePayment(contact, account, received, direct) => ok := CreatePayment(contact, account, received, direct);
        case DoVoidPayment(p) => ok := VoidPayment(p);
        case DoApplyUnapplied(p, i, amount) => ok := ApplyUnapplied(p, i, amount);
        case DoReverseApplication(k) => ok := ReverseApplication(k);
        case DoCreateRefund(contact, source, account, amount) => ok := CreateRefund(contact, source, account, amount);
        case DoVoidRefund(r) => ok := VoidRefund(r);
      }
    }
  }

  /** With a plan made, what is left of the validation is what the claims test. */
  lemma PlannedIsValid(b: Books, contact: nat, direct: seq<Direct>, received: Money)
    requires DistinctDocuments(direct) && forall k :: 0 <= k < |direct| ==> direct[k].document < |b.documents|
    requires PlanPostable(b.documents, direct, received, received)
    ensures forall k :: 0 <= k < |direct| ==> direct[k].amount > 0
    ensures ValidDirect(b, contact, direct) <==> AllSpendable(b.documents, contact, direct)
  {
    PlanCovers(b.documents, direct, received, received);
    hide PlanPostable;
  }

  lemma CountsAlike(b: Books, b': Books, i: nat)
    requires b'.payments == b.payments && b'.applications == b.applications && b'.uses == b.uses && b'.notes == b.notes
    ensures PaidDirectly(b, i) == PaidDirectly(b', i) && PaidLater(b, i) == PaidLater(b', i) && Credited(b, i) == Credited(b', i)
  {
  }

  lemma RestorableAlike(b: Books, b': Books, direct: seq<Direct>)
    requires b'.side == b.side && b'.documents == b.documents
    ensures Restorable(b, direct) == Restorable(b', direct)
  {
  }

  /** The documents a payment names later in its list are still as they were. */
  lemma UntouchedYet(documents: seq<Document>, direct: seq<Direct>, sign: int, k: nat)
    requires k < |direct| && DistinctDocuments(direct) && direct[k].document < |documents|
    ensures Allocated(documents, direct[..k], sign)[direct[k].document] == documents[direct[k].document]
  {
    AllocatedAt(documents, direct[..k], sign, direct[k].document);
    SumZero(direct[..k], OnTarget(direct[k].document));
  }
}
