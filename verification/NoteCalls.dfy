/** Credit and debit notes: creating, finalizing, voiding and applying them keeps the invariant. */
module NoteCalls {
  import opened Wrappers
  import opened Sums
  import opened Posting
  import opened Books
  import opened BooksInvariant
  import opened BooksSteps

  // ---- CreateNote

  lemma CreateNoteLinks(b: Books, contact: nat, lines: seq<DocumentLine>, original: Option<nat>, b': Books)
    requires Links(b) && CreateNoteClaimed(b, contact, lines, original) == Done(b')
    ensures Links(b')
  {
    hide Total;
  }

  /** What the check of the linked total is for. */
  lemma CreateNoteWithin(b: Books, contact: nat, lines: seq<DocumentLine>, original: Option<nat>, b': Books)
    requires NotesWithin(b) && CreateNoteClaimed(b, contact, lines, original) == Done(b')
    ensures NotesWithin(b') <==> LinkedTotalFits(b, original, Total(lines))
  {
    hide Total;
    SumInsert(b.notes, b'.notes[|b.notes|]);
    assert b'.notes[|b.notes|].original == original;
  }

  lemma CreateNoteBalances(b: Books, contact: nat, lines: seq<DocumentLine>, original: Option<nat>, b': Books, strict: bool)
    requires Links(b) && Balances(b, strict) && CreateNoteClaimed(b, contact, lines, original) == Done(b')
    ensures Balances(b', strict)
  {
    NewNoteIsUnlinked(b);
    hide Total, Links, Balances;
    NewNoteBalances(b, b'.notes[|b.notes|], b', strict);
  }

  lemma NewNoteBalances(b: Books, n: Note, b': Books, strict: bool)
    requires Balances(b, strict) && b' == b.(notes := b.notes + [n]) && n.status == Draft
    requires SumOf(b.uses, UsedOf(|b.notes|)) == 0 && SumOf(b.refunds, RefundedFrom(FromNote(|b.notes|))) == 0
    ensures Balances(b', strict)
  {
  }

  lemma CreateNoteJournals(b: Books, contact: nat, lines: seq<DocumentLine>, original: Option<nat>, b': Books)
    requires Journals(b) && CreateNoteClaimed(b, contact, lines, original) == Done(b')
    ensures Journals(b')
  {
  }

  lemma CreateNoteTotals(b: Books, contact: nat, lines: seq<DocumentLine>, original: Option<nat>, b': Books)
    requires AccountsReconcile(b) && CreateNoteClaimed(b, contact, lines, original) == Done(b')
    ensures AccountsReconcile(b') && (ContactsReconcile(b) ==> ContactsReconcile(b'))
  {
    hide Total, AccountsReconcile, ContactsReconcile, Net;
    SumInsert(b.notes, b'.notes[|b.notes|]);
    AccountsCarryOver(b, b');
    ContactsCarryOver(b, b');
  }

  // ---- FinalizeNote

  lemma FinalizeNoteLinks(b: Books, i: nat, b': Books)
    requires Links(b) && FinalizeNoteClaimed(b, i) == Done(b')
    ensures Links(b') && (NotesWithin(b) ==> NotesWithin(b'))
  {
    hide Total, Links, NotesWithin, Post, NoteEntry;
    assert SameLinks(b, b');
    SameLinksKeep(b, b');
    if NotesWithin(b) {
      NotesStayWithin(b, b');
    }
  }

  lemma FinalizeNoteBalances(b: Books, i: nat, b': Books, strict: bool)
    requires Balances(b, strict) && FinalizeNoteClaimed(b, i) == Done(b')
    ensures Balances(b', strict)
  {
  }

  lemma FinalizeNoteJournals(b: Books, i: nat, b': Books)
    requires Journals(b) && FinalizeNoteClaimed(b, i) == Done(b')
    ensures Journals(b')
  {
    var lines := b.notes[i].lines;
    NoteEntryIsMirrored(b.side, lines, Control);
    PostKeepsRecords(b, OfNote(i), NoteEntry(b.side, lines));
    PostKeepsPairs(b.journal, OfNote(i), NoteEntry(b.side, lines));
    hide Total, Paired, DocumentEntry, NoteEntry, PaymentEntry, RefundEntry, AdjustmentEntry, Postable;
  }

  lemma FinalizeNoteTotals(b: Books, i: nat, b': Books)
    requires AccountsReconcile(b) && FinalizeNoteClaimed(b, i) == Done(b')
    ensures AccountsReconcile(b') && (ContactsReconcile(b) ==> ContactsReconcile(b'))
  {
    hide Total, AccountsReconcile, ContactsReconcile, Net, NoteEntry;
    SumUpdate(b.notes, i, b'.notes[i]);
    PostAdds(b, OfNote(i), NoteEntry(b.side, b.notes[i].lines));
    AccountsCarryOver(b, b');
    ContactsCarryOver(b, b');
  }

  // ---- VoidNote

  lemma UnusedNote(b: Books, i: nat)
    requires !NoteInUse(b, i)
    ensures SumOf(b.uses, UsedOf(i)) == 0 && SumOf(b.refunds, RefundedFrom(FromNote(i))) == 0
  {
    SumZero(b.uses, UsedOf(i));
    SumZero(b.refunds, RefundedFrom(FromNote(i)));
  }

  lemma VoidNoteLinks(b: Books, i: nat, b': Books)
    requires Links(b) && VoidNoteClaimed(b, i) == Done(b')
    ensures Links(b') && (NotesWithin(b) ==> NotesWithin(b'))
  {
    hide Total, Links, NotesWithin, Reverse, ReversalId;
    assert SameLinks(b, b');
    SameLinksKeep(b, b');
    if NotesWithin(b) {
      NotesStayWithin(b, b');
    }
  }

  lemma VoidNoteBalances(b: Books, i: nat, b': Books, strict: bool)
    requires Balances(b, strict) && VoidNoteClaimed(b, i) == Done(b')
    requires strict && b.notes[i].status == Finalized ==> !NoteInUse(b, i)
    ensures Balances(b', strict)
  {
    if strict && b.notes[i].status == Finalized {
      UnusedNote(b, i);
    }
    hide Total, NoteInUse;
  }

  lemma VoidNoteJournals(b: Books, i: nat, b': Books)
    requires Journals(b) && VoidNoteClaimed(b, i) == Done(b')
    ensures Journals(b')
  {
    if b.notes[i].status == Finalized {
      VoidFinalizedNoteJournals(b, i, b');
    } else {
      hide Total, Paired, DocumentPosted, PaymentPosted, ApplicationPosted, RefundPosted, NoteEntry;
    }
  }

  lemma VoidFinalizedNoteJournals(b: Books, i: nat, b': Books)
    requires Journals(b) && VoidNoteClaimed(b, i) == Done(b') && b.notes[i].status == Finalized
    ensures Journals(b')
  {
    hide Total, DocumentEntry, NoteEntry, PaymentEntry, RefundEntry, AdjustmentEntry, Reversed;
    var e := b.notes[i].entry.value;
    assert NotePosted(b.notes[i], i, b.side, b.journal);
    ReverseKeepsPairs(b.journal, e);
    ReverseKeepsOthers(b, e);
    hide Reverse, ReversalId, RecordsPosted;
    OwnershipKept(b, b', b'.journal);
    hide Paired, EntriesOwned, DocumentPosted, PaymentPosted, ApplicationPosted, RefundPosted, Journals;
    OneRecordLeft(b, b', OfNote(i));
  }

  lemma VoidNoteTotals(b: Books, i: nat, b': Books)
    requires RecordsPosted(b, b.journal) && AccountsReconcile(b) && VoidNoteClaimed(b, i) == Done(b')
    ensures AccountsReconcile(b')
    ensures NotesBalance(b, true) && (b.notes[i].status == Finalized ==> !NoteInUse(b, i)) && ContactsReconcile(b) ==> ContactsReconcile(b')
  {
    var n := b.notes[i];
    assert NotePosted(n, i, b.side, b.journal);
    if n.status == Finalized && NotesBalance(b, true) && !NoteInUse(b, i) {
      UnusedNote(b, i);
      assert NoteBalances(n, i, b.uses, b.refunds, true);
    }
    hide NotesBalance, RecordsPosted, NoteInUse;
    VoidedNoteAccounts(b, i, b');
    if n.status == Finalized ==> n.unapplied == Total(n.lines) {
      VoidedNoteContacts(b, i, b');
    }
  }

  lemma VoidedNoteAccounts(b: Books, i: nat, b': Books)
    requires AccountsReconcile(b) && VoidNoteClaimed(b, i) == Done(b')
    requires var n := b.notes[i];
             n.status == Finalized ==>
               && n.entry.Some? && n.entry.value < |b.journal|
               && b.journal[n.entry.value].lines == NoteEntry(b.side, n.lines) && b.journal[n.entry.value].reversedBy == None
    ensures AccountsReconcile(b')
  {
    hide Total, AccountsReconcile, Net, NoteEntry, Reversed;
    var n := b.notes[i];
    SumUpdate(b.notes, i, b'.notes[i]);
    if n.status == Finalized {
      ReverseSubtracts(b, n.entry.value);
    }
    hide Reverse, ReversalId;
    AccountsCarryOver(b, b');
  }

  lemma VoidedNoteContacts(b: Books, i: nat, b': Books)
    requires VoidNoteClaimed(b, i) == Done(b') && (b.notes[i].status == Finalized ==> b.notes[i].unapplied == Total(b.notes[i].lines))
    ensures ContactsReconcile(b) ==> ContactsReconcile(b')
  {
    hide Total, ContactsReconcile, Reverse, ReversalId;
    SumUpdate(b.notes, i, b'.notes[i]);
    ContactsCarryOver(b, b');
  }

  // ---- ApplyNote

  lemma ApplyNoteLinks(b: Books, n: nat, i: nat, amount: Money, b': Books)
    requires Links(b) && ApplyNote(b, n, i, amount) == Done(b')
    ensures Links(b') && (NotesWithin(b) ==> NotesWithin(b'))
  {
    var moved := b'.(uses := b.uses);
    hide Total, ValidLines, NotesWithin;
    assert UseLinked(b'.uses[|b.uses|], b'.notes, b'.documents);
    assert SameLinks(b, moved);
    SameLinksKeep(b, moved);
    if NotesWithin(b) {
      NotesStayWithin(b, moved);
      UsesDoNotMatter(moved, b');
    }
  }

  lemma UsesDoNotMatter(b: Books, b': Books)
    requires NotesWithin(b) && b'.notes == b.notes && b'.documents == b.documents
    ensures NotesWithin(b')
  {
    hide Total;
  }

  lemma ApplyNoteBalances(b: Books, n: nat, i: nat, amount: Money, b': Books, strict: bool)
    requires Balances(b, strict) && ApplyNote(b, n, i, amount) == Done(b')
    ensures Balances(b', strict)
  {
    hide Total;
    SumInsert(b.uses, b'.uses[|b.uses|]);
  }

  lemma ApplyNoteJournals(b: Books, n: nat, i: nat, amount: Money, b': Books)
    requires Journals(b) && ApplyNote(b, n, i, amount) == Done(b')
    ensures Journals(b')
  {
    hide Total, Paired, DocumentEntry, NoteEntry, PaymentEntry, RefundEntry, AdjustmentEntry;
  }

  lemma ApplyNoteTotals(b: Books, n: nat, i: nat, amount: Money, b': Books)
    requires AccountsReconcile(b) && ApplyNote(b, n, i, amount) == Done(b')
    ensures AccountsReconcile(b') && (ContactsReconcile(b) ==> ContactsReconcile(b'))
  {
    hide Total, AccountsReconcile, ContactsReconcile, Net, DocumentEntry, NoteEntry;
    SumUpdate(b.notes, n, b'.notes[n]);
    SumUpdate(b.documents, i, b'.documents[i]);
    AccountsCarryOver(b, b');
    ContactsCarryOver(b, b');
  }

  // ---- ReverseUse

  lemma ReverseUseLinks(b: Books, k: nat, b': Books)
    requires Links(b) && ReverseUse(b, k) == Done(b')
    ensures Links(b') && (NotesWithin(b) ==> NotesWithin(b'))
  {
    hide Total, Links, NotesWithin;
    assert SameLinks(b, b');
    SameLinksKeep(b, b');
    if NotesWithin(b) {
      NotesStayWithin(b, b');
    }
  }

  lemma ReverseUseBalances(b: Books, k: nat, b': Books, strict: bool)
    requires Balances(b, strict) && ReverseUse(b, k) == Done(b')
    ensures Balances(b', strict)
  {
    hide Total;
    SumUpdate(b.uses, k, b'.uses[k]);
  }

  lemma ReverseUseJournals(b: Books, k: nat, b': Books)
    requires Journals(b) && ReverseUse(b, k) == Done(b')
    ensures Journals(b')
  {
    hide Total, Paired, DocumentEntry, NoteEntry, PaymentEntry, RefundEntry, AdjustmentEntry;
  }

  lemma ReverseUseTotals(b: Books, k: nat, b': Books)
    requires Links(b) && AccountsReconcile(b) && ReverseUse(b, k) == Done(b')
    ensures AccountsReconcile(b') && (ContactsReconcile(b) ==> ContactsReconcile(b'))
  {
    var u := b.uses[k];
    assert UseLinked(u, b.notes, b.documents);
    hide Total, Links, AccountsReconcile, ContactsReconcile, Net, DocumentEntry, NoteEntry;
    SumUpdate(b.notes, u.note, b'.notes[u.note]);
    SumUpdate(b.documents, u.document, b'.documents[u.document]);
    AccountsCarryOver(b, b');
    ContactsCarryOver(b, b');
  }
}
