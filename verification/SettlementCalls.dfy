/** Applying unapplied credit later, reversing that, and refunds keep the invariant. */
module SettlementCalls {
  import opened Wrappers
  import opened Sums
  import opened Posting
  import opened Books
  import opened BooksInvariant
  import opened BooksSteps
  import opened CashEntries
  import opened PaymentCalls

  // ---- ApplyUnapplied: whatever plan was made, its claims guard every balance

  lemma ApplyUnappliedLinks(b: Books, p: nat, i: nat, amount: Money, onDocument: Money, onPayment: Money, b': Books)
    requires Links(b) && ApplySettled(b, p, i, amount, onDocument, onPayment) == Done(b')
    ensures Links(b') && (NotesWithin(b) ==> NotesWithin(b'))
  {
    hide Total, AdjustmentConfigured, AdjustmentEntry;
    PaymentRowsMayMove(b, p, b'.(applications := b.applications));
  }

  /** A settlement takes no more than is open, on either side and in either currency. */
  lemma SettledWithin(amount: int, documentTx: int, documentBase: int, paymentTx: int, paymentBase: int)
    requires Allocate(amount, documentTx, documentBase, paymentTx, paymentBase).Settled?
    ensures var s := Allocate(amount, documentTx, documentBase, paymentTx, paymentBase);
            s.onDocument <= documentBase && s.onPayment <= paymentBase && 0 < amount <= documentTx && amount <= paymentTx
  {
  }

  lemma ApplyUnappliedBalances(b: Books, p: nat, i: nat, amount: Money, onDocument: Money, onPayment: Money, b': Books, strict: bool)
    requires Balances(b, strict) && ApplySettled(b, p, i, amount, onDocument, onPayment) == Done(b')
    ensures Balances(b', strict)
  {
    hide Total, AdjustmentConfigured, AdjustmentEntry, Post, NoteBalances;
    SumInsert(b.applications, b'.applications[|b.applications|]);
    SumUpdate(b.payments, p, b'.payments[p]);
    hide PaymentBalances;
    assert DocumentsBalance(b', strict);
    hide DocumentsBalance;
    ApplyUnappliedPayments(b, p, i, amount, onDocument, onPayment, b', strict);
  }

  lemma ApplyUnappliedPayments(b: Books, p: nat, i: nat, amount: Money, onDocument: Money, onPayment: Money, b': Books, strict: bool)
    requires PaymentsBalance(b, strict) && ApplySettled(b, p, i, amount, onDocument, onPayment) == Done(b')
    ensures PaymentsBalance(b', strict)
  {
    hide Total, AdjustmentConfigured, AdjustmentEntry, Post;
    SumInsert(b.applications, b'.applications[|b.applications|]);
  }

  lemma ApplyUnappliedJournals(b: Books, p: nat, i: nat, amount: Money, onDocument: Money, onPayment: Money, b': Books)
    requires Journals(b) && ApplySettled(b, p, i, amount, onDocument, onPayment) == Done(b')
    ensures Journals(b')
  {
    hide Total, AdjustmentConfigured, DocumentEntry, NoteEntry, RefundEntry, PaymentEntry;
    var a := b'.applications[|b.applications|];
    var excess := a.onPayment - a.onDocument;
    assert Alike(b, b') && b'.refunds == b.refunds && b'.applications == b.applications + [a];
    assert a.entry == if excess == 0 then None else Some(|b.journal|);
    assert b'.journal == if excess == 0 then b.journal else Post(b.journal, OfApplication(|b.applications|), AdjustmentEntry(b.side, excess));
    ApplyUnappliedOwned(b, p, i, amount, onDocument, onPayment, b');
    hide ApplySettled, EntriesOwned, Alike;
    if excess != 0 {
      AdjustmentEntryIsRight(b.side, excess, Control);
      PostKeepsRecords(b, OfApplication(|b.applications|), AdjustmentEntry(b.side, excess));
      PostKeepsPairs(b.journal, OfApplication(|b.applications|), AdjustmentEntry(b.side, excess));
    }
    AlikeIsPosted(b, b', b'.journal);
    hide Paired, AdjustmentEntry, Postable, DocumentPosted, NotePosted, PaymentPosted, RefundPosted;
  }

  lemma ApplyUnappliedOwned(b: Books, p: nat, i: nat, amount: Money, onDocument: Money, onPayment: Money, b': Books)
    requires EntriesOwned(b, b.journal) && ApplySettled(b, p, i, amount, onDocument, onPayment) == Done(b')
    ensures EntriesOwned(b', b'.journal)
  {
  }

  lemma ApplyUnappliedTotals(b: Books, p: nat, i: nat, amount: Money, onDocument: Money, onPayment: Money, b': Books)
    requires AccountsReconcile(b) && ApplySettled(b, p, i, amount, onDocument, onPayment) == Done(b')
    ensures AccountsReconcile(b') && (ContactsReconcile(b) ==> ContactsReconcile(b'))
  {
    hide Total, AdjustmentConfigured, AccountsReconcile, ContactsReconcile, Net, DocumentEntry, NoteEntry, AdjustmentEntry;
    var a := b'.applications[|b.applications|];
    SameEntry(b.side, b.payments[p], b'.payments[p]);
    hide PaymentEntry;
    SumInsert(b.applications, a);
    SumUpdate(b.payments, p, b'.payments[p]);
    SumUpdate(b.documents, i, b'.documents[i]);
    PostAdds(b, OfApplication(|b.applications|), AdjustmentEntry(b.side, a.onPayment - a.onDocument));
    AccountsCarryOver(b, b');
    ContactsCarryOver(b, b');
  }

  // ---- ReverseApplication

  lemma ReverseApplicationLinks(b: Books, k: nat, b': Books)
    requires Links(b) && ReverseApplication(b, k) == Done(b')
    ensures Links(b') && (NotesWithin(b) ==> NotesWithin(b'))
  {
    hide Total, Links, NotesWithin, Reverse;
    assert SameLinks(b, b');
    SameLinksKeep(b, b');
    if NotesWithin(b) {
      NotesStayWithin(b, b');
    }
  }

  lemma ReverseApplicationBalances(b: Books, k: nat, b': Books, strict: bool)
    requires Balances(b, strict) && ReverseApplication(b, k) == Done(b')
    ensures Balances(b', strict)
  {
    hide Total, Reverse, NoteBalances;
    SumUpdate(b.applications, k, b'.applications[k]);
    SumUpdate(b.payments, b.applications[k].payment, b'.payments[b.applications[k].payment]);
    hide PaymentBalances;
    assert DocumentsBalance(b', strict);
    hide DocumentsBalance;
    ReverseApplicationPayments(b, k, b', strict);
  }

  lemma ReverseApplicationPayments(b: Books, k: nat, b': Books, strict: bool)
    requires PaymentsBalance(b, strict) && ReverseApplication(b, k) == Done(b')
    ensures PaymentsBalance(b', strict)
  {
    hide Total, Reverse;
    SumUpdate(b.applications, k, b'.applications[k]);
  }

  lemma ReverseApplicationJournals(b: Books, k: nat, b': Books)
    requires Journals(b) && ReverseApplication(b, k) == Done(b')
    ensures Journals(b')
  {
    hide Total, DocumentEntry, NoteEntry, RefundEntry, AdjustmentEntry, PaymentEntry, Reversed;
    var a := b.applications[k];
    assert ApplicationPosted(a, k, b.side, b.journal);
    if a.entry.Some? {
      ReverseKeepsPairs(b.journal, a.entry.value);
      ReverseKeepsOthers(b, a.entry.value);
      hide Reverse, ReversalId;
    }
    assert Alike(b, b');
    AlikeIsPosted(b, b', b'.journal);
    hide Paired, DocumentPosted, NotePosted, PaymentPosted, RefundPosted, Alike;
    ReverseApplicationOwned(b, k, b');
    hide EntriesOwned;
  }

  lemma ReverseApplicationOwned(b: Books, k: nat, b': Books)
    requires EntriesOwned(b, b.journal) && ReverseApplication(b, k) == Done(b')
    ensures EntriesOwned(b', b'.journal)
  {
    hide Total, Reversed, EntriesOwned;
    assert EntriesKept(b, b');
    hide EntriesKept;
    OwnershipKept(b, b', b'.journal);
  }

  lemma ReverseApplicationTotals(b: Books, k: nat, b': Books)
    requires Links(b) && RecordsPosted(b, b.journal) && AccountsReconcile(b)
    requires ReverseApplication(b, k) == Done(b')
    ensures AccountsReconcile(b') && (ContactsReconcile(b) ==> ContactsReconcile(b'))
  {
    ReverseApplicationAccounts(b, k, b');
    ReverseApplicationContacts(b, k, b');
  }

  lemma ReverseApplicationAccounts(b: Books, k: nat, b': Books)
    requires RecordsPosted(b, b.journal) && AccountsReconcile(b) && ReverseApplication(b, k) == Done(b')
    ensures AccountsReconcile(b')
  {
    hide Total, AccountsReconcile, Net, DocumentEntry, NoteEntry, AdjustmentEntry;
    var a := b.applications[k];
    SameEntry(b.side, b.payments[a.payment], b'.payments[a.payment]);
    hide PaymentEntry;
    assert ApplicationPosted(a, k, b.side, b.journal);
    hide RecordsPosted;
    if a.entry.Some? {
      ReverseSubtracts(b, a.entry.value);
    }
    hide Reverse;
    SumUpdate(b.applications, k, b'.applications[k]);
    SumUpdate(b.payments, a.payment, b'.payments[a.payment]);
    SumUpdate(b.documents, a.document, b'.documents[a.document]);
    AccountsCarryOver(b, b');
  }

  lemma ReverseApplicationContacts(b: Books, k: nat, b': Books)
    requires Links(b) && ReverseApplication(b, k) == Done(b')
    ensures ContactsReconcile(b) ==> ContactsReconcile(b')
  {
    hide Total, ContactsReconcile, Reverse;
    var a := b.applications[k];
    assert ApplicationLinked(a, b.payments, b.documents);
    hide Links;
    SumUpdate(b.applications, k, b'.applications[k]);
    SumUpdate(b.payments, a.payment, b'.payments[a.payment]);
    SumUpdate(b.documents, a.document, b'.documents[a.document]);
    ContactsCarryOver(b, b');
  }

  // ---- refunds

  lemma CreateRefundLinks(b: Books, contact: nat, source: RefundSource, account: Account, amount: Money, b': Books)
    requires Links(b) && CreateRefund(b, contact, source, account, amount) == Done(b')
    ensures Links(b') && (NotesWithin(b) ==> NotesWithin(b'))
  {
    hide Total, RefundEntry;
    match source
    case FromPayment(p) =>
      PaymentRowsMayMove(b, p, b'.(refunds := b.refunds));
    case FromNote(n) =>
      SumUpdate(b.notes, n, b'.notes[n]);
  }

  lemma CreateRefundBalances(b: Books, contact: nat, source: RefundSource, account: Account, amount: Money, b': Books, strict: bool)
    requires Balances(b, strict) && CreateRefund(b, contact, source, account, amount) == Done(b')
    ensures Balances(b', strict)
  {
    hide Total, RefundEntry, Balances;
    match source
    case FromPayment(p) => RefundedPaymentBalances(b, b'.refunds[|b.refunds|], p, b', strict);
    case FromNote(n) => RefundedNoteBalances(b, b'.refunds[|b.refunds|], n, b', strict);
  }

  lemma RefundedPaymentBalances(b: Books, r: Refund, p: nat, b': Books, strict: bool)
    requires Balances(b, strict) && r.posted && r.source == FromPayment(p)
    requires p < |b.payments| && b.payments[p].posted && r.amount <= b.payments[p].unapplied
    requires b' == b.(payments := b.payments[p := b.payments[p].(unapplied := b.payments[p].unapplied - r.amount)],
                      refunds := b.refunds + [r], journal := b'.journal)
    ensures Balances(b', strict)
  {
    hide Total;
    SumInsert(b.refunds, r);
    SumUpdate(b.payments, p, b'.payments[p]);
  }

  lemma RefundedNoteBalances(b: Books, r: Refund, n: nat, b': Books, strict: bool)
    requires Balances(b, strict) && r.posted && r.source == FromNote(n)
    requires n < |b.notes| && b.notes[n].status == Finalized && r.amount <= b.notes[n].unapplied
    requires b' == b.(notes := b.notes[n := b.notes[n].(unapplied := b.notes[n].unapplied - r.amount)],
                      refunds := b.refunds + [r], journal := b'.journal)
    ensures Balances(b', strict)
  {
    hide Total;
    SumInsert(b.refunds, r);
  }

  lemma CreateRefundJournals(b: Books, contact: nat, source: RefundSource, account: Account, amount: Money, b': Books)
    requires Journals(b) && CreateRefund(b, contact, source, account, amount) == Done(b')
    ensures Journals(b')
  {
    hide Total, DocumentEntry, NoteEntry, AdjustmentEntry, PaymentEntry;
    RefundEntryIsRight(b.side, account, amount, Control);
    PostKeepsRecords(b, OfRefund(|b.refunds|), RefundEntry(b.side, account, amount));
    PostKeepsPairs(b.journal, OfRefund(|b.refunds|), RefundEntry(b.side, account, amount));
    assert Alike(b, b');
    AlikeIsPosted(b, b', b'.journal);
    hide Paired, RefundEntry, Postable, DocumentPosted, NotePosted, PaymentPosted, ApplicationPosted, Alike;
    CreateRefundOwned(b, contact, source, account, amount, b');
    hide EntriesOwned;
  }

  lemma CreateRefundOwned(b: Books, contact: nat, source: RefundSource, account: Account, amount: Money, b': Books)
    requires EntriesOwned(b, b.journal) && CreateRefund(b, contact, source, account, amount) == Done(b')
    ensures EntriesOwned(b', b'.journal)
  {
    hide Total, RefundEntry;
    OwnershipKept(b, b', b.journal);
  }

  lemma CreateRefundTotals(b: Books, contact: nat, source: RefundSource, account: Account, amount: Money, b': Books)
    requires AccountsReconcile(b) && CreateRefund(b, contact, source, account, amount) == Done(b')
    ensures AccountsReconcile(b') && (ContactsReconcile(b) ==> ContactsReconcile(b'))
  {
    hide Total, AccountsReconcile, ContactsReconcile, Net, DocumentEntry, NoteEntry, RefundEntry;
    assert OnlySourceMoved(b, source, b') by {
      assert SourceMoved(b, source, -(amount as int)).payments == b'.payments && SourceMoved(b, source, -(amount as int)).notes == b'.notes;
    }
    SumInsert(b.refunds, b'.refunds[|b.refunds|]);
    PostAdds(b, OfRefund(|b.refunds|), RefundEntry(b.side, account, amount));
    SourceRowAccounts(b, source, b');
    SourceRowContacts(b, source, b');
    hide PaymentEntry, OnlySourceMoved;
    AccountsCarryOver(b, b');
    ContactsCarryOver(b, b');
  }

  /** The source's row moved and nothing else among payments and notes. */
  ghost predicate OnlySourceMoved(b: Books, source: RefundSource, b': Books) {
    && SourceOpen(b, source) && SourceOpen(b', source) && b'.side == b.side
    && exists change: int :: SourceMoved(b, source, change).payments == b'.payments && SourceMoved(b, source, change).notes == b'.notes
  }

  /** Then that contact's credit moves and nothing that was received or credited. */
  lemma SourceRowContacts(b: Books, source: RefundSource, b': Books)
    requires OnlySourceMoved(b, source, b')
    ensures var moved := SourceUnapplied(b', source) - SourceUnapplied(b, source);
            forall who :: SumOf(b'.payments, PaymentCredit(who)) + SumOf(b'.notes, NoteCredit(who))
                       == SumOf(b.payments, PaymentCredit(who)) + SumOf(b.notes, NoteCredit(who))
                          + if Concerns(who, SourceContact(b, source)) then moved else 0
    ensures forall who :: SumOf(b'.payments, Received(who)) == SumOf(b.payments, Received(who)) && SumOf(b'.notes, Noted(who)) == SumOf(b.notes, Noted(who))
  {
    hide Total;
    match source
    case FromPayment(p) => SumUpdate(b.payments, p, b'.payments[p]);
    case FromNote(n) => SumUpdate(b.notes, n, b'.notes[n]);
  }

  /** And no account moves. */
  lemma SourceRowAccounts(b: Books, source: RefundSource, b': Books)
    requires OnlySourceMoved(b, source, b')
    ensures forall a :: SumOf(b'.payments, LivePayment(b.side, a)) == SumOf(b.payments, LivePayment(b.side, a))
    ensures forall a :: SumOf(b'.notes, LiveNote(b.side, a)) == SumOf(b.notes, LiveNote(b.side, a))
  {
    hide Total, Net, NoteEntry;
    match source
    case FromPayment(p) =>
      SumUpdate(b.payments, p, b'.payments[p]);
      SameEntry(b.side, b.payments[p], b'.payments[p]);
      hide PaymentEntry;
    case FromNote(n) =>
      SumUpdate(b.notes, n, b'.notes[n]);
  }

  lemma VoidRefundBalances(b: Books, r: nat, b': Books, strict: bool)
    requires Balances(b, strict) && VoidRefund(b, r) == Done(b')
    ensures Balances(b', strict)
  {
    if b' != b {
      hide Total, Reverse, ReversalId, Balances;
      match b.refunds[r].source
      case FromPayment(p) => RestoredPaymentBalances(b, r, p, b', strict);
      case FromNote(n) => RestoredNoteBalances(b, r, n, b', strict);
    }
  }

  lemma RestoredPaymentBalances(b: Books, r: nat, p: nat, b': Books, strict: bool)
    requires Balances(b, strict) && r < |b.refunds| == |b'.refunds| && b.refunds[r].posted && b.refunds[r].source == FromPayment(p)
    requires p < |b.payments| && b.payments[p].posted
    requires b' == b.(payments := b.payments[p := b.payments[p].(unapplied := b.payments[p].unapplied + b.refunds[r].amount)],
                      refunds := b.refunds[r := b.refunds[r].(posted := false, reversal := b'.refunds[r].reversal)], journal := b'.journal)
    ensures Balances(b', strict)
  {
    hide Total;
    SumUpdate(b.refunds, r, b'.refunds[r]);
    SumUpdate(b.payments, p, b'.payments[p]);
  }

  lemma RestoredNoteBalances(b: Books, r: nat, n: nat, b': Books, strict: bool)
    requires Balances(b, strict) && r < |b.refunds| == |b'.refunds| && b.refunds[r].posted && b.refunds[r].source == FromNote(n)
    requires n < |b.notes| && b.notes[n].status == Finalized
    requires b' == b.(notes := b.notes[n := b.notes[n].(unapplied := b.notes[n].unapplied + b.refunds[r].amount)],
                      refunds := b.refunds[r := b.refunds[r].(posted := false, reversal := b'.refunds[r].reversal)], journal := b'.journal)
    ensures Balances(b', strict)
  {
    hide Total;
    SumUpdate(b.refunds, r, b'.refunds[r]);
  }

  /** What voiding a refund does to the tables: its own row, its entry, and its source's unapplied amount. */
  lemma VoidRefundShape(b: Books, r: nat, b': Books)
    requires VoidRefund(b, r) == Done(b') && b' != b
    ensures r < |b.refunds| && b.refunds[r].posted && b.refunds[r].entry < |b.journal|
    ensures var x := b.refunds[r];
            && b' == b.(payments := b'.payments, notes := b'.notes, journal := Reverse(b.journal, x.entry),
                        refunds := b.refunds[r := x.(posted := false, reversal := Some(ReversalId(b.journal, x.entry)))])
            && Alike(b, b')
            && OnlySourceMoved(b, x.source, b')
            && SourceUnapplied(b', x.source) == SourceUnapplied(b, x.source) + x.amount
  {
    hide Total, Reverse, ReversalId;
    var x := b.refunds[r];
    assert SourceMoved(b, x.source, x.amount).payments == b'.payments && SourceMoved(b, x.source, x.amount).notes == b'.notes;
  }

  lemma VoidRefundLinks(b: Books, r: nat, b': Books)
    requires Links(b) && VoidRefund(b, r) == Done(b')
    ensures Links(b') && (NotesWithin(b) ==> NotesWithin(b'))
  {
    if b' != b {
      VoidRefundShape(b, r, b');
      hide VoidRefund, OnlySourceMoved, Total, Links, NotesWithin, Reverse, ReversalId;
      assert SameLinks(b, b');
      hide Alike;
      SameLinksKeep(b, b');
      if NotesWithin(b) {
        NotesStayWithin(b, b');
      }
    }
  }

  lemma VoidRefundJournals(b: Books, r: nat, b': Books)
    requires Journals(b) && VoidRefund(b, r) == Done(b')
    ensures Journals(b')
  {
    if b' != b {
      var x := b.refunds[r];
      VoidRefundShape(b, r, b');
      hide VoidRefund, Total, DocumentEntry, NoteEntry, AdjustmentEntry, PaymentEntry, RefundEntry, Reversed, Alike;
      assert RefundPosted(x, r, b.side, b.journal);
      ReverseKeepsPairs(b.journal, x.entry);
      ReverseKeepsOthers(b, x.entry);
      hide Reverse, ReversalId;
      AlikeIsPosted(b, b', b'.journal);
      hide Paired, DocumentPosted, NotePosted, PaymentPosted, ApplicationPosted;
      VoidRefundOwned(b, r, b');
      hide EntriesOwned;
    }
  }

  lemma VoidRefundOwned(b: Books, r: nat, b': Books)
    requires EntriesOwned(b, b.journal) && VoidRefund(b, r) == Done(b')
    ensures EntriesOwned(b', b'.journal)
  {
    hide Total, Reversed, EntriesOwned;
    assert EntriesKept(b, b');
    hide EntriesKept;
    OwnershipKept(b, b', b'.journal);
  }

  lemma VoidRefundTotals(b: Books, r: nat, b': Books)
    requires Links(b) && RecordsPosted(b, b.journal) && AccountsReconcile(b)
    requires VoidRefund(b, r) == Done(b')
    ensures AccountsReconcile(b') && (ContactsReconcile(b) ==> ContactsReconcile(b'))
  {
    if b' != b {
      VoidRefundShape(b, r, b');
      hide VoidRefund, Total, Alike, OnlySourceMoved;
      VoidRefundAccounts(b, r, b');
      VoidRefundContacts(b, r, b');
    }
  }

  lemma VoidRefundAccounts(b: Books, r: nat, b': Books)
    requires RecordsPosted(b, b.journal) && AccountsReconcile(b) && VoidRefund(b, r) == Done(b') && b' != b
    ensures AccountsReconcile(b')
  {
    VoidRefundShape(b, r, b');
    hide VoidRefund, Total, Alike, OnlySourceMoved, Reverse, ReversalId, AccountsReconcile, RefundEntry;
    assert RefundPosted(b.refunds[r], r, b.side, b.journal);
    hide RecordsPosted;
    UndoneRefundAccounts(b, r, b');
  }

  lemma UndoneRefundAccounts(b: Books, r: nat, b': Books)
    requires AccountsReconcile(b) && r < |b.refunds| == |b'.refunds| && b.refunds[r].posted && b.refunds[r].entry < |b.journal|
    requires var x := b.refunds[r];
             && b.journal[x.entry].lines == RefundEntry(b.side, x.account, x.amount) && b.journal[x.entry].reversedBy == None
             && OnlySourceMoved(b, x.source, b')
             && b' == b.(payments := b'.payments, notes := b'.notes, journal := Reverse(b.journal, x.entry),
                         refunds := b.refunds[r := x.(posted := false, reversal := b'.refunds[r].reversal)])
    ensures AccountsReconcile(b')
  {
    var x := b.refunds[r];
    hide AccountsReconcile, Net, RefundEntry, Reversed, OnlySourceMoved;
    ReverseSubtracts(b, x.entry);
    SourceRowAccounts(b, x.source, b');
    hide Reverse, LiveDocument, LiveNote, LivePayment, LiveApplication;
    SumUpdate(b.refunds, r, b'.refunds[r]);
    AccountsCarryOver(b, b');
  }

  lemma VoidRefundContacts(b: Books, r: nat, b': Books)
    requires Links(b) && VoidRefund(b, r) == Done(b') && b' != b
    ensures ContactsReconcile(b) ==> ContactsReconcile(b')
  {
    var x := b.refunds[r];
    VoidRefundShape(b, r, b');
    hide VoidRefund, Total, ContactsReconcile, Reverse, ReversalId, Alike;
    assert RefundLinked(x, b.side, b.payments, b.notes);
    hide Links;
    SumUpdate(b.refunds, r, b'.refunds[r]);
    SourceRowContacts(b, x.source, b');
    hide SourceMoved;
    ContactsCarryOver(b, b');
  }
}
