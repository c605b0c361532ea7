/** Payments, their later applications, and refunds keep the invariant. */
module PaymentCalls {
  import opened Sums
  import opened Posting
  import opened Books
  import opened BooksInvariant
  import opened BooksSteps
  import opened CashEntries

  /** An entry depends on what was received and allocated, which nothing changes later. */
  lemma SameEntry(side: Side, p: Payment, p': Payment)
    requires p.account == p'.account && p.received == p'.received && p.direct == p'.direct
    ensures PaymentEntry(side, p) == PaymentEntry(side, p')
  {
  }

  // ---- CreatePayment

  lemma CreatePaymentLinks(b: Books, contact: nat, account: Account, received: Money, direct: seq<Direct>, b': Books)
    requires Links(b) && CreatePaymentClaimed(b, contact, account, received, direct) == Done(b')
    ensures Links(b') && (NotesWithin(b) ==> NotesWithin(b'))
  {
    hide Total, PaymentEntry;
    forall i | 0 <= i < |b.documents|
      ensures b'.documents[i].lines == b.documents[i].lines && b'.documents[i].contact == b.documents[i].contact
    {
      AllocatedAt(b.documents, direct, -1, i);
    }
    hide Allocated;
  }

  /** What a claimed payment takes from each document, which can cover it. */
  lemma Covered(documents: seq<Document>, contact: nat, direct: seq<Direct>, i: nat)
    requires DistinctDocuments(direct) && AllSpendable(documents, contact, direct) && i < |documents|
    ensures documents[i].status != Finalized ==> SumOf(direct, OnTarget(i)) == 0
    ensures documents[i].balance >= 0 ==> SumOf(direct, OnTarget(i)) <= documents[i].balance
    ensures documents[i].txBalance >= 0 ==> SumOf(direct, OnTarget(i)) <= documents[i].txBalance
  {
    if documents[i].status != Finalized {
      SumZero(direct, OnTarget(i));
    }
    if documents[i].balance >= 0 {
      OneTarget(direct, i, documents[i].balance);
    }
    if documents[i].txBalance >= 0 {
      OneTarget(direct, i, documents[i].txBalance);
    }
  }

  lemma CreatePaymentBalances(b: Books, contact: nat, account: Account, received: Money, direct: seq<Direct>, b': Books, strict: bool)
    requires Links(b) && Balances(b, strict) && CreatePaymentClaimed(b, contact, account, received, direct) == Done(b')
    ensures Balances(b', strict)
  {
    hide Total, AllSpendable, PaymentEntry, Allocated;
    NewPaymentIsUnlinked(b);
    CreatePaymentDocuments(b, contact, account, received, direct, b', strict);
    hide DocumentsBalance, Links;
  }

  lemma CreatePaymentDocuments(b: Books, contact: nat, account: Account, received: Money, direct: seq<Direct>, b': Books, strict: bool)
    requires DocumentsBalance(b, strict) && CreatePaymentClaimed(b, contact, account, received, direct) == Done(b')
    ensures DocumentsBalance(b', strict)
  {
    hide Total, AllSpendable, PaymentEntry;
    SumInsert(b.payments, b'.payments[|b.payments|]);
    forall i | 0 <= i < |b.documents|
      ensures DocumentBalances(b'.documents[i], i, b'.payments, b'.applications, b'.uses, strict)
    {
      AllocatedAt(b.documents, direct, -1, i);
      Covered(b.documents, contact, direct, i);
      assert DocumentBalances(b.documents[i], i, b.payments, b.applications, b.uses, strict);
    }
  }

  lemma CreatePaymentJournals(b: Books, contact: nat, account: Account, received: Money, direct: seq<Direct>, b': Books)
    requires Journals(b) && CreatePaymentClaimed(b, contact, account, received, direct) == Done(b')
    ensures Journals(b')
  {
    hide AllSpendable;
    var p := b'.payments[|b.payments|];
    PaymentEntryIsRight(b.side, p, Control);
    PostKeepsRecords(b, OfPayment(|b.payments|), PaymentEntry(b.side, p));
    PostKeepsPairs(b.journal, OfPayment(|b.payments|), PaymentEntry(b.side, p));
    forall i | 0 <= i < |b.documents|
      ensures DocumentPosted(b'.documents[i], i, b'.side, b'.journal) && b'.documents[i].entry == b.documents[i].entry
    {
      AllocatedAt(b.documents, direct, -1, i);
      assert DocumentPosted(b.documents[i], i, b.side, b'.journal);
    }
    hide Total, Paired, DocumentEntry, NoteEntry, PaymentEntry, RefundEntry, AdjustmentEntry, Postable, Allocated;
    OwnershipKept(b, b', b.journal);
    hide RecordsPosted;
  }

  lemma CreatePaymentTotals(b: Books, contact: nat, account: Account, received: Money, direct: seq<Direct>, b': Books)
    requires AccountsReconcile(b)
    requires CreatePaymentClaimed(b, contact, account, received, direct) == Done(b')
    ensures AccountsReconcile(b') && (ContactsReconcile(b) ==> ContactsReconcile(b'))
  {
    hide Total, AccountsReconcile, ContactsReconcile, Net, DocumentEntry, NoteEntry, PaymentEntry;
    var p := b'.payments[|b.payments|];
    SumInsert(b.payments, p);
    AllocatedUnseen(b.documents, direct, -1);
    forall who
      ensures SumOf(b'.documents, OpenBalance(who)) == SumOf(b.documents, OpenBalance(who))
                - if Concerns(who, contact) then SumOf(direct, DirectAmount()) else 0
    {
      AllocatedOpenBalance(b.documents, direct, -1, contact, who);
    }
    PostAdds(b, OfPayment(|b.payments|), PaymentEntry(b.side, p));
    hide AllSpendable, Allocated;
    AccountsCarryOver(b, b');
    ContactsCarryOver(b, b');
  }

  // ---- VoidPayment

  lemma UnusedPayment(b: Books, i: nat)
    requires !PaymentInUse(b, i)
    ensures SumOf(b.applications, AppliedFrom(i)) == 0 && SumOf(b.applications, TxFrom(i)) == 0
    ensures SumOf(b.refunds, RefundedFrom(FromPayment(i))) == 0
  {
    SumZero(b.applications, AppliedFrom(i));
    SumZero(b.applications, TxFrom(i));
    SumZero(b.refunds, RefundedFrom(FromPayment(i)));
  }

  lemma VoidPaymentLinks(b: Books, i: nat, b': Books)
    requires Links(b) && VoidPaymentClaimed(b, i) == Done(b')
    ensures Links(b') && (NotesWithin(b) ==> NotesWithin(b'))
  {
    hide Total, Restorable, Reverse;
    forall k | 0 <= k < |b.documents|
      ensures b'.documents[k].lines == b.documents[k].lines && b'.documents[k].contact == b.documents[k].contact
    {
      AllocatedAt(b.documents, b.payments[i].direct, 1, k);
    }
    hide Allocated;
    PaymentRowsMayMove(b, i, b');
  }

  /** Links only look at who a payment is from and what it allocated. */
  lemma PaymentRowsMayMove(b: Books, i: nat, b': Books)
    requires Links(b) && i < |b.payments| && |b'.payments| == |b.payments| && |b'.documents| == |b.documents|
    requires b' == b.(documents := b'.documents, payments := b'.payments, journal := b'.journal)
    requires forall k :: 0 <= k < |b.documents| ==> b'.documents[k].lines == b.documents[k].lines && b'.documents[k].contact == b.documents[k].contact
    requires forall k :: 0 <= k < |b.payments| ==> SamePayment(b.payments[k], b'.payments[k])
    ensures Links(b') && (NotesWithin(b) ==> NotesWithin(b'))
  {
    hide Total, DistinctDocuments;
    forall k | 0 <= k < |b.payments|
      ensures DirectLinked(b'.payments[k], b'.side, b'.documents)
    {
      assert DirectLinked(b.payments[k], b.side, b.documents);
    }
  }

  lemma VoidPaymentBalances(b: Books, i: nat, b': Books, strict: bool)
    requires Links(b) && Balances(b, strict) && VoidPaymentClaimed(b, i) == Done(b') && (strict ==> !PaymentInUse(b, i))
    ensures Balances(b', strict)
  {
    if strict {
      UnusedPayment(b, i);
    }
    hide Total, Restorable, PaymentInUse, Allocated;
    VoidPaymentDocuments(b, i, b', strict);
    hide DocumentsBalance, Links;
  }

  lemma VoidPaymentDocuments(b: Books, i: nat, b': Books, strict: bool)
    requires Links(b) && DocumentsBalance(b, strict) && VoidPaymentClaimed(b, i) == Done(b')
    ensures DocumentsBalance(b', strict)
  {
    hide Total, Restorable;
    var direct := b.payments[i].direct;
    assert DirectLinked(b.payments[i], b.side, b.documents);
    hide Links;
    SumUpdate(b.payments, i, b'.payments[i]);
    forall k | 0 <= k < |b.documents|
      ensures DocumentBalances(b'.documents[k], k, b'.payments, b'.applications, b'.uses, strict)
    {
      AllocatedAt(b.documents, direct, 1, k);
      RestoredWhereOpen(b, i, k);
      assert DocumentBalances(b.documents[k], k, b.payments, b.applications, b.uses, strict);
    }
  }

  lemma RestoredWhereOpen(b: Books, i: nat, k: nat)
    requires i < |b.payments| && k < |b.documents| && Restorable(b, b.payments[i].direct)
    requires DirectLinked(b.payments[i], b.side, b.documents)
    ensures b.documents[k].status != Finalized ==> SumOf(b.payments[i].direct, OnTarget(k)) == 0
    ensures SumOf(b.payments[i].direct, OnTarget(k)) >= 0
  {
    hide Total;
    SumAtLeast(b.payments[i].direct, OnTarget(k));
    if b.documents[k].status != Finalized {
      SumZero(b.payments[i].direct, OnTarget(k));
    }
  }

  lemma VoidPaymentJournals(b: Books, i: nat, b': Books)
    requires Journals(b) && VoidPaymentClaimed(b, i) == Done(b')
    ensures Journals(b')
  {
    hide Restorable, Total, DocumentEntry, NoteEntry, RefundEntry, AdjustmentEntry, Reversed, PaymentEntry;
    var e := b.payments[i].entry;
    assert PaymentPosted(b.payments[i], i, b.side, b.journal);
    ReverseKeepsPairs(b.journal, e);
    ReverseKeepsOthers(b, e);
    hide Reverse, ReversalId;
    hide Paired;
    VoidPaymentRows(b, i, b');
    OwnershipKept(b, b', b'.journal);
    hide EntriesOwned, Allocated;
  }

  /** Only balances move on the documents, and the voided payment has the entry it had. */
  lemma VoidPaymentRows(b: Books, i: nat, b': Books)
    requires VoidPaymentClaimed(b, i) == Done(b')
    requires OthersPosted(b, b'.journal, OfPayment(i))
    ensures forall k :: 0 <= k < |b.documents| ==>
              DocumentPosted(b'.documents[k], k, b'.side, b'.journal) && b'.documents[k].entry == b.documents[k].entry
    ensures PaymentEntry(b.side, b'.payments[i]) == PaymentEntry(b.side, b.payments[i])
  {
    hide Restorable, Total, DocumentEntry, Reversed, Reverse, ReversalId;
    SameEntry(b.side, b.payments[i], b'.payments[i]);
    hide PaymentEntry;
    forall k | 0 <= k < |b.documents|
      ensures DocumentPosted(b'.documents[k], k, b'.side, b'.journal) && b'.documents[k].entry == b.documents[k].entry
    {
      AllocatedAt(b.documents, b.payments[i].direct, 1, k);
      assert DocumentPosted(b.documents[k], k, b.side, b'.journal);
    }
  }

  lemma VoidPaymentTotals(b: Books, i: nat, b': Books)
    requires Links(b) && RecordsPosted(b, b.journal) && AccountsReconcile(b) && VoidPaymentClaimed(b, i) == Done(b')
    ensures AccountsReconcile(b')
    ensures PaymentsBalance(b, true) && !PaymentInUse(b, i) && ContactsReconcile(b) ==> ContactsReconcile(b')
  {
    VoidPaymentAccounts(b, i, b');
    if PaymentsBalance(b, true) && !PaymentInUse(b, i) {
      UnusedPayment(b, i);
      assert PaymentBalances(b.payments[i], i, b.applications, b.refunds, true);
      VoidPaymentContacts(b, i, b');
    }
  }

  lemma VoidPaymentAccounts(b: Books, i: nat, b': Books)
    requires RecordsPosted(b, b.journal) && AccountsReconcile(b) && VoidPaymentClaimed(b, i) == Done(b')
    ensures AccountsReconcile(b')
  {
    hide Total, AccountsReconcile, Net, DocumentEntry, NoteEntry, PaymentEntry, Reversed, Restorable;
    var p := b.payments[i];
    assert PaymentPosted(p, i, b.side, b.journal);
    ReverseSubtracts(b, p.entry);
    SumUpdate(b.payments, i, b'.payments[i]);
    AllocatedUnseen(b.documents, p.direct, 1);
    hide Allocated, RecordsPosted, Reverse, ReversalId;
    AccountsCarryOver(b, b');
  }

  lemma VoidPaymentContacts(b: Books, i: nat, b': Books)
    requires Links(b) && VoidPaymentClaimed(b, i) == Done(b')
    requires b.payments[i].unapplied == b.payments[i].received - SumOf(b.payments[i].direct, DirectAmount())
    ensures ContactsReconcile(b) ==> ContactsReconcile(b')
  {
    hide Total, ContactsReconcile, Reverse, ReversalId;
    var p := b.payments[i];
    assert DirectLinked(p, b.side, b.documents);
    SumUpdate(b.payments, i, b'.payments[i]);
    AllocatedUnseen(b.documents, p.direct, 1);
    forall who
      ensures SumOf(b'.documents, OpenBalance(who)) == SumOf(b.documents, OpenBalance(who))
                + if Concerns(who, p.contact) then SumOf(p.direct, DirectAmount()) else 0
    {
      AllocatedOpenBalance(b.documents, p.direct, 1, p.contact, who);
    }
    hide Restorable, Allocated, Links;
    ContactsCarryOver(b, b');
  }
}
