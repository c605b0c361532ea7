/** Creating, finalizing and voiding documents and notes keeps the invariant. */
module DocumentCalls {
  import opened Wrappers
  import opened Sums
  import opened Posting
  import opened Books
  import opened BooksInvariant
  import opened BooksSteps

  // ---- CreateDocument

  lemma CreateDocumentLinks(b: Books, contact: nat, lines: seq<DocumentLine>, b': Books)
    requires Links(b) && CreateDocument(b, contact, lines) == Done(b')
    ensures Links(b') && (NotesWithin(b) ==> NotesWithin(b'))
  {
    hide Total, Links, NotesWithin;
    assert SameLinks(b, b');
    SameLinksKeep(b, b');
    if NotesWithin(b) {
      NewDocumentIsUncredited(b);
      NotesStayWithin(b, b');
    }
  }

  lemma CreateDocumentBalances(b: Books, contact: nat, lines: seq<DocumentLine>, b': Books, strict: bool)
    requires Links(b) && Balances(b, strict) && CreateDocument(b, contact, lines) == Done(b')
    ensures Balances(b', strict)
  {
    NewDocumentIsUnlinked(b);
    hide Total, Links;
    assert DocumentBalances(b'.documents[|b.documents|], |b.documents|, b'.payments, b'.applications, b'.uses, strict);
    hide DocumentBalances, PaymentBalances, NoteBalances;
  }

  lemma CreateDocumentJournals(b: Books, contact: nat, lines: seq<DocumentLine>, b': Books)
    requires Journals(b) && CreateDocument(b, contact, lines) == Done(b')
    ensures Journals(b')
  {
  }

  lemma CreateDocumentTotals(b: Books, contact: nat, lines: seq<DocumentLine>, b': Books)
    requires AccountsReconcile(b) && CreateDocument(b, contact, lines) == Done(b')
    ensures AccountsReconcile(b') && (ContactsReconcile(b) ==> ContactsReconcile(b'))
  {
    hide Total, AccountsReconcile, ContactsReconcile, Net;
    SumInsert(b.documents, b'.documents[|b.documents|]);
    AccountsCarryOver(b, b');
    ContactsCarryOver(b, b');
  }

  // ---- FinalizeDocument

  lemma FinalizeDocumentLinks(b: Books, i: nat, b': Books)
    requires Links(b) && FinalizeDocument(b, i) == Done(b')
    ensures Links(b') && (NotesWithin(b) ==> NotesWithin(b'))
  {
    hide Total, Links, NotesWithin, Post, DocumentEntry;
    assert SameLinks(b, b');
    SameLinksKeep(b, b');
    if NotesWithin(b) {
      NotesStayWithin(b, b');
    }
  }

  lemma FinalizeDocumentBalances(b: Books, i: nat, b': Books, strict: bool)
    requires Balances(b, strict) && FinalizeDocument(b, i) == Done(b')
    ensures Balances(b', strict)
  {
  }

  lemma FinalizeDocumentJournals(b: Books, i: nat, b': Books)
    requires Journals(b) && FinalizeDocument(b, i) == Done(b')
    ensures Journals(b')
  {
    if b' != b {
      var lines := b.documents[i].lines;
      DocumentEntryIsRight(b.side, lines, Control);
      PostKeepsRecords(b, OfDocument(i), DocumentEntry(b.side, lines));
      PostKeepsPairs(b.journal, OfDocument(i), DocumentEntry(b.side, lines));
      hide Total, Paired, DocumentEntry, NoteEntry, PaymentEntry, RefundEntry, AdjustmentEntry, Postable;
    }
  }

  lemma FinalizeDocumentTotals(b: Books, i: nat, b': Books)
    requires AccountsReconcile(b) && FinalizeDocument(b, i) == Done(b')
    ensures AccountsReconcile(b') && (ContactsReconcile(b) ==> ContactsReconcile(b'))
  {
    if b' != b {
      hide Total, AccountsReconcile, ContactsReconcile, Net, DocumentEntry;
      SumUpdate(b.documents, i, b'.documents[i]);
      PostAdds(b, OfDocument(i), DocumentEntry(b.side, b.documents[i].lines));
      AccountsCarryOver(b, b');
      ContactsCarryOver(b, b');
    }
  }

  // ---- VoidDocument

  /** The three guards of the void find every active use of the document. */
  lemma UnusedDocument(b: Books, i: nat)
    requires Links(b) && Balances(b, true) && i < |b.documents|
    requires !PaidDirectly(b, i) && !PaidLater(b, i) && !Credited(b, i)
    ensures SumOf(b.payments, DirectOn(i)) == 0 && SumOf(b.applications, AppliedOn(i)) == 0
    ensures SumOf(b.applications, TxOn(i)) == 0 && SumOf(b.uses, CreditedOn(i)) == 0
  {
    hide Total;
    forall p | 0 <= p < |b.payments|
      ensures DirectOn(i)(b.payments[p]) == 0
    {
      if b.payments[p].posted {
        SumZero(b.payments[p].direct, OnTarget(i));
      }
    }
    SumZero(b.payments, DirectOn(i));
    forall k | 0 <= k < |b.applications|
      ensures !(b.applications[k].active && b.applications[k].document == i)
    {
      var a := b.applications[k];
      assert ApplicationLinked(a, b.payments, b.documents);
      assert PaymentBalances(b.payments[a.payment], a.payment, b.applications, b.refunds, true);
      SumAtLeast(b.applications, TxFrom(a.payment));
      assert TxFrom(a.payment)(a) <= SumOf(b.applications, TxFrom(a.payment));
    }
    SumZero(b.applications, AppliedOn(i));
    SumZero(b.applications, TxOn(i));
    forall k | 0 <= k < |b.uses|
      ensures CreditedOn(i)(b.uses[k]) == 0
    {
      var u := b.uses[k];
      assert UseLinked(u, b.notes, b.documents);
      assert NoteBalances(b.notes[u.note], u.note, b.uses, b.refunds, true);
      SumAtLeast(b.uses, UsedOf(u.note));
      assert UsedOf(u.note)(u) <= SumOf(b.uses, UsedOf(u.note));
    }
    SumZero(b.uses, CreditedOn(i));
  }

  lemma VoidDocumentLinks(b: Books, i: nat, b': Books)
    requires Links(b) && VoidDocument(b, i) == Done(b')
    ensures Links(b') && (NotesWithin(b) ==> NotesWithin(b'))
  {
    hide Total, Links, NotesWithin, PaidDirectly, PaidLater, Credited, Reverse, ReversalId;
    assert SameLinks(b, b');
    SameLinksKeep(b, b');
    if NotesWithin(b) {
      NotesStayWithin(b, b');
    }
  }

  lemma VoidDocumentBalances(b: Books, i: nat, b': Books, strict: bool)
    requires Links(b) && Balances(b, strict) && VoidDocument(b, i) == Done(b')
    ensures Balances(b', strict)
  {
    if strict && b.documents[i].status == Finalized {
      UnusedDocument(b, i);
    }
    hide Total, PaidDirectly, PaidLater, Credited, Links, PaymentBalances, NoteBalances;
  }

  lemma VoidDocumentJournals(b: Books, i: nat, b': Books)
    requires Journals(b) && VoidDocument(b, i) == Done(b')
    ensures Journals(b')
  {
    if b.documents[i].status == Finalized {
      VoidFinalizedJournals(b, i, b');
    } else {
      hide Total, Paired, NotePosted, PaymentPosted, ApplicationPosted, RefundPosted, DocumentEntry;
    }
  }

  lemma VoidFinalizedJournals(b: Books, i: nat, b': Books)
    requires Journals(b) && VoidDocument(b, i) == Done(b') && b.documents[i].status == Finalized
    ensures Journals(b')
  {
    hide Total, PaidDirectly, PaidLater, Credited, DocumentEntry, NoteEntry, PaymentEntry, RefundEntry, AdjustmentEntry, Reversed;
    var e := b.documents[i].entry.value;
    assert DocumentPosted(b.documents[i], i, b.side, b.journal);
    ReverseKeepsPairs(b.journal, e);
    ReverseKeepsOthers(b, e);
    hide Reverse, ReversalId, RecordsPosted;
    OwnershipKept(b, b', b'.journal);
    hide Paired, EntriesOwned, NotePosted, PaymentPosted, ApplicationPosted, RefundPosted, Journals;
    OneRecordLeft(b, b', OfDocument(i));
  }

  lemma VoidDocumentTotals(b: Books, i: nat, b': Books)
    requires RecordsPosted(b, b.journal) && AccountsReconcile(b) && VoidDocument(b, i) == Done(b')
    ensures AccountsReconcile(b')
    ensures Links(b) && Balances(b, true) && ContactsReconcile(b) ==> ContactsReconcile(b')
  {
    if b' != b {
      var d := b.documents[i];
      assert DocumentPosted(d, i, b.side, b.journal);
      if d.status == Finalized && Links(b) && Balances(b, true) {
        UnusedDocument(b, i);
        assert DocumentBalances(d, i, b.payments, b.applications, b.uses, true);
      }
      hide Links, Balances, RecordsPosted;
      VoidedRowAccounts(b, i, b');
      if d.status == Finalized ==> d.balance == Total(d.lines) {
        VoidedRowContacts(b, i, b');
      }
    }
  }

  /** The voided document's amounts leave both sides of the reconciliations. */
  lemma VoidedRowAccounts(b: Books, i: nat, b': Books)
    requires AccountsReconcile(b) && VoidDocument(b, i) == Done(b')
    requires var d := b.documents[i];
             d.status == Finalized ==>
               && d.entry.Some? && d.entry.value < |b.journal|
               && b.journal[d.entry.value].lines == DocumentEntry(b.side, d.lines) && b.journal[d.entry.value].reversedBy == None
    ensures AccountsReconcile(b')
  {
    hide Total, AccountsReconcile, Net, DocumentEntry, PaidDirectly, PaidLater, Credited, Reversed;
    var d := b.documents[i];
    SumUpdate(b.documents, i, b'.documents[i]);
    if d.status == Finalized {
      ReverseSubtracts(b, d.entry.value);
    }
    hide Reverse, ReversalId;
    AccountsCarryOver(b, b');
  }

  lemma VoidedRowContacts(b: Books, i: nat, b': Books)
    requires VoidDocument(b, i) == Done(b') && (b.documents[i].status == Finalized ==> b.documents[i].balance == Total(b.documents[i].lines))
    ensures ContactsReconcile(b) ==> ContactsReconcile(b')
  {
    hide Total, ContactsReconcile, PaidDirectly, PaidLater, Credited, Reverse, ReversalId;
    SumUpdate(b.documents, i, b'.documents[i]);
    ContactsCarryOver(b, b');
  }
}
