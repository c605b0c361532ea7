/** Facts for showing that calls keep the invariant. */
module BooksSteps {
  import opened Wrappers
  import opened Sums
  import opened Posting
  import opened Books
  import opened BooksInvariant

  // ---- rows that do not exist yet have nothing linked to them

  lemma NewDocumentIsUnlinked(b: Books)
    requires Links(b)
    ensures var i := |b.documents|;
            && SumOf(b.payments, DirectOn(i)) == 0 && SumOf(b.applications, AppliedOn(i)) == 0
            && SumOf(b.applications, TxOn(i)) == 0 && SumOf(b.uses, CreditedOn(i)) == 0
  {
    hide Total;
    var i := |b.documents|;
    forall k | 0 <= k < |b.payments|
      ensures DirectOn(i)(b.payments[k]) == 0
    {
      assert DirectLinked(b.payments[k], b.side, b.documents);
      SumZero(b.payments[k].direct, OnTarget(i));
    }
    SumZero(b.payments, DirectOn(i));
    SumZero(b.applications, AppliedOn(i));
    SumZero(b.applications, TxOn(i));
    SumZero(b.uses, CreditedOn(i));
  }

  lemma NewDocumentIsUncredited(b: Books)
    requires NotesWithin(b)
    ensures SumOf(b.notes, LinkedTotal(|b.documents|)) == 0
  {
    hide Total;
    SumZero(b.notes, LinkedTotal(|b.documents|));
  }

  lemma NewPaymentIsUnlinked(b: Books)
    requires Links(b)
    ensures var i := |b.payments|;
            && SumOf(b.applications, AppliedFrom(i)) == 0 && SumOf(b.applications, TxFrom(i)) == 0
            && SumOf(b.refunds, RefundedFrom(FromPayment(i))) == 0
  {
    var i := |b.payments|;
    SumZero(b.applications, AppliedFrom(i));
    SumZero(b.applications, TxFrom(i));
    SumZero(b.refunds, RefundedFrom(FromPayment(i)));
  }

  lemma NewNoteIsUnlinked(b: Books)
    requires Links(b)
    ensures SumOf(b.uses, UsedOf(|b.notes|)) == 0 && SumOf(b.refunds, RefundedFrom(FromNote(|b.notes|))) == 0
  {
    SumZero(b.uses, UsedOf(|b.notes|));
    SumZero(b.refunds, RefundedFrom(FromNote(|b.notes|)));
  }

  // ---- links only look at what is never changed

  /** The same rows as far as links go, and perhaps more documents: whose they are, what they refer to, and their amounts. */
  ghost predicate SameLinks(b: Books, b': Books) {
    && b'.side == b.side
    && |b'.documents| >= |b.documents| && |b'.notes| == |b.notes| && |b'.payments| == |b.payments|
    && |b'.applications| == |b.applications| && |b'.uses| == |b.uses| && |b'.refunds| == |b.refunds|
    && (forall i :: 0 <= i < |b.documents| ==> b'.documents[i].lines == b.documents[i].lines && b'.documents[i].contact == b.documents[i].contact)
    && (forall i :: 0 <= i < |b.notes| ==>
          && b'.notes[i].lines == b.notes[i].lines && b'.notes[i].contact == b.notes[i].contact && b'.notes[i].original == b.notes[i].original)
    && (forall i :: 0 <= i < |b.payments| ==> SamePayment(b.payments[i], b'.payments[i]))
    && (forall i :: 0 <= i < |b.applications| ==> b.applications[i] == b'.applications[i].(active := b.applications[i].active))
    && (forall i :: 0 <= i < |b.uses| ==> b.uses[i] == b'.uses[i].(active := b.uses[i].active))
    && (forall i :: 0 <= i < |b.refunds| ==>
          b.refunds[i] == b'.refunds[i].(posted := b.refunds[i].posted, reversal := b.refunds[i].reversal))
  }

  predicate SamePayment(p: Payment, p': Payment) {
    p.contact == p'.contact && p.account == p'.account && p.received == p'.received && p.direct == p'.direct
  }

  lemma SameLinksKeep(b: Books, b': Books)
    requires Links(b) && SameLinks(b, b')
    requires forall i :: |b.documents| <= i < |b'.documents| ==> ValidLines(b'.documents[i].lines)
    ensures Links(b')
  {
    hide DistinctDocuments, ValidLines, MayHoldCash;
    forall i | 0 <= i < |b.payments|
      ensures DirectLinked(b'.payments[i], b'.side, b'.documents)
    {
      assert DirectLinked(b.payments[i], b.side, b.documents);
    }
    forall i | 0 <= i < |b.applications|
      ensures ApplicationLinked(b'.applications[i], b'.payments, b'.documents)
    {
      assert ApplicationLinked(b.applications[i], b.payments, b.documents);
    }
    forall i | 0 <= i < |b.uses|
      ensures UseLinked(b'.uses[i], b'.notes, b'.documents)
    {
      assert UseLinked(b.uses[i], b.notes, b.documents);
    }
    forall i | 0 <= i < |b.refunds|
      ensures RefundLinked(b'.refunds[i], b'.side, b'.payments, b'.notes)
    {
      assert RefundLinked(b.refunds[i], b.side, b.payments, b.notes);
    }
  }

  /** The linked totals stay within the documents when notes are at most voided. */
  lemma NotesStayWithin(b: Books, b': Books)
    requires NotesWithin(b) && SameLinks(b, b')
    requires forall n :: 0 <= n < |b.notes| && b.notes[n].status == Voided ==> b'.notes[n].status == Voided
    requires forall i :: |b.documents| <= i < |b'.documents| ==> SumOf(b.notes, LinkedTotal(i)) <= Total(b'.documents[i].lines)
    ensures NotesWithin(b')
  {
    hide Total;
    forall i | 0 <= i < |b'.documents|
      ensures SumOf(b'.notes, LinkedTotal(i)) <= SumOf(b.notes, LinkedTotal(i))
    {
      SumAtMost(b.notes, b'.notes, LinkedTotal(i));
    }
  }

  lemma {:induction false} SumAtMost<T>(rows: seq<T>, after: seq<T>, value: T -> int)
    requires |rows| == |after| && forall i :: 0 <= i < |rows| ==> value(after[i]) <= value(rows[i])
    ensures SumOf(after, value) <= SumOf(rows, value)
  {
    if rows != [] {
      SumAtMost(rows[..|rows| - 1], after[..|after| - 1], value);
    }
  }

  // ---- the journal

  lemma PostKeepsRecords(b: Books, origin: Origin, lines: seq<Line>)
    requires RecordsPosted(b, b.journal)
    ensures RecordsPosted(b, Post(b.journal, origin, lines))
  {
  }

  lemma PostKeepsPairs(journal: seq<Entry>, origin: Origin, lines: seq<Line>)
    requires Paired(journal) && Postable(lines) && !origin.ReversalOf?
    ensures Paired(Post(journal, origin, lines))
  {
    hide Postable, Reversed;
    var after := Post(journal, origin, lines);
    forall e | 0 <= e < |after|
      ensures EntryPaired(after, e)
    {
      assert e < |journal| ==> EntryPaired(journal, e);
    }
  }

  lemma ReverseKeepsPairs(journal: seq<Entry>, e: nat)
    requires Paired(journal) && e < |journal|
    ensures Paired(Reverse(journal, e))
    ensures var after := Reverse(journal, e);
            && |after| >= |journal| && after[e] == journal[e].(reversedBy := Some(ReversalId(journal, e)))
            && (forall k :: 0 <= k < |journal| ==> after[k].origin == journal[k].origin)
            && (forall k :: |journal| <= k < |after| ==> after[k].origin.ReversalOf?)
  {
    var after := Reverse(journal, e);
    assert EntryPaired(journal, e);
    ReversalIsPostable(journal[e].lines);
    hide Postable, Reversed;
    forall k | 0 <= k < |after|
      ensures EntryPaired(after, k)
    {
      assert k < |journal| ==> EntryPaired(journal, k);
    }
  }

  /** Reversing a record's entry touches no other record: entries know what they were posted for. */
  ghost predicate OthersPosted(b: Books, journal: seq<Entry>, origin: Origin) {
    && (forall i :: 0 <= i < |b.documents| && origin != OfDocument(i) ==> DocumentPosted(b.documents[i], i, b.side, journal))
    && (forall i :: 0 <= i < |b.notes| && origin != OfNote(i) ==> NotePosted(b.notes[i], i, b.side, journal))
    && (forall i :: 0 <= i < |b.payments| && origin != OfPayment(i) ==> PaymentPosted(b.payments[i], i, b.side, journal))
    && (forall k :: 0 <= k < |b.applications| && origin != OfApplication(k) ==> ApplicationPosted(b.applications[k], k, b.side, journal))
    && (forall r :: 0 <= r < |b.refunds| && origin != OfRefund(r) ==> RefundPosted(b.refunds[r], r, b.side, journal))
  }

  lemma ReverseKeepsOthers(b: Books, e: nat)
    requires RecordsPosted(b, b.journal) && e < |b.journal|
    ensures OthersPosted(b, Reverse(b.journal, e), b.journal[e].origin)
  {
    hide Total, DocumentEntry, NoteEntry, PaymentEntry, RefundEntry, AdjustmentEntry, Reversed;
  }

  /** With the other records posted as they were, the record itself is all that is left to see to. */
  lemma OneRecordLeft(b: Books, b': Books, origin: Origin)
    requires OthersPosted(b, b'.journal, origin) && EntriesOwned(b', b'.journal) && Paired(b'.journal)
    requires b' == b.(documents := b'.documents, notes := b'.notes, journal := b'.journal)
    requires |b'.documents| == |b.documents| && |b'.notes| == |b.notes|
    requires origin.OfDocument? || origin.OfNote?
    requires forall k :: 0 <= k < |b.documents| && origin != OfDocument(k) ==> b'.documents[k] == b.documents[k]
    requires forall k :: 0 <= k < |b.notes| && origin != OfNote(k) ==> b'.notes[k] == b.notes[k]
    requires origin.OfDocument? && origin.id < |b.documents| ==> DocumentPosted(b'.documents[origin.id], origin.id, b'.side, b'.journal)
    requires origin.OfNote? && origin.id < |b.notes| ==> NotePosted(b'.notes[origin.id], origin.id, b'.side, b'.journal)
    ensures Journals(b')
  {
  }

  /** Rows keep the entry they have. */
  ghost predicate EntriesKept(b: Books, b': Books) {
    && (forall i :: 0 <= i < |b.documents| && b.documents[i].entry.Some? ==> i < |b'.documents| && b'.documents[i].entry == b.documents[i].entry)
    && (forall i :: 0 <= i < |b.notes| && b.notes[i].entry.Some? ==> i < |b'.notes| && b'.notes[i].entry == b.notes[i].entry)
    && (forall i :: 0 <= i < |b.payments| ==> i < |b'.payments| && b'.payments[i].entry == b.payments[i].entry)
    && (forall i :: 0 <= i < |b.refunds| ==> i < |b'.refunds| && b'.refunds[i].entry == b.refunds[i].entry)
    && (forall i :: 0 <= i < |b.applications| && b.applications[i].entry.Some? ==> i < |b'.applications| && b'.applications[i].entry == b.applications[i].entry)
  }

  /** Then ownership of the entries there are carries over, and new ones only need an owner of their own. */
  lemma OwnershipKept(b: Books, b': Books, journal: seq<Entry>)
    requires EntriesOwned(b, b.journal) && EntriesKept(b, b') && |b.journal| <= |journal|
    requires forall e :: 0 <= e < |b.journal| ==> journal[e].origin == b.journal[e].origin
    requires forall e :: |b.journal| <= e < |journal| ==> journal[e].origin.ReversalOf?
    ensures EntriesOwned(b', journal)
  {
  }

  /** The rows differ at most in their balances. */
  ghost predicate Alike(b: Books, b': Books) {
    && b'.side == b.side
    && |b'.documents| == |b.documents| && |b'.notes| == |b.notes| && |b'.payments| == |b.payments|
    && (forall i :: 0 <= i < |b.documents| ==>
          b.documents[i] == b'.documents[i].(balance := b.documents[i].balance, txBalance := b.documents[i].txBalance))
    && (forall i :: 0 <= i < |b.notes| ==> b.notes[i] == b'.notes[i].(unapplied := b.notes[i].unapplied))
    && (forall i :: 0 <= i < |b.payments| ==>
          b.payments[i] == b'.payments[i].(unapplied := b.payments[i].unapplied, txUnapplied := b.payments[i].txUnapplied))
  }

  /** Then they are posted just the same. */
  lemma AlikeIsPosted(b: Books, b': Books, journal: seq<Entry>)
    requires Alike(b, b')
    requires forall i :: 0 <= i < |b.documents| ==> DocumentPosted(b.documents[i], i, b.side, journal)
    requires forall i :: 0 <= i < |b.notes| ==> NotePosted(b.notes[i], i, b.side, journal)
    requires forall i :: 0 <= i < |b.payments| ==> PaymentPosted(b.payments[i], i, b.side, journal)
    ensures forall i :: 0 <= i < |b'.documents| ==> DocumentPosted(b'.documents[i], i, b'.side, journal)
    ensures forall i :: 0 <= i < |b'.notes| ==> NotePosted(b'.notes[i], i, b'.side, journal)
    ensures forall i :: 0 <= i < |b'.payments| ==> PaymentPosted(b'.payments[i], i, b'.side, journal)
  {
  }

  /** What posting and reversing do to the balance of every account. */
  lemma PostAdds(b: Books, origin: Origin, lines: seq<Line>)
    ensures forall a :: SumOf(Post(b.journal, origin, lines), OnAccount(b.side, a)) == AccountBalance(b, a) + Net(b.side, a, lines)
  {
  }

  lemma ReverseSubtracts(b: Books, e: nat)
    requires e < |b.journal| && b.journal[e].reversedBy == None
    ensures forall a :: SumOf(Reverse(b.journal, e), OnAccount(b.side, a)) == AccountBalance(b, a) - Net(b.side, a, b.journal[e].lines)
  {
    var entry := b.journal[e];
    var marked := entry.(reversedBy := Some(|b.journal|));
    SumUpdate(b.journal, e, marked);
    SumInsert(b.journal[e := marked], Entry(ReversalOf(e), Reversed(entry.lines), None));
    forall a
      ensures Net(b.side, a, Reversed(entry.lines)) == -Net(b.side, a, entry.lines)
    {
      ReversalCancels(b.side, a, entry.lines);
    }
    hide Reversed, Net;
    forall a
      ensures SumOf(Reverse(b.journal, e), OnAccount(b.side, a)) == AccountBalance(b, a) - Net(b.side, a, entry.lines)
    {
      assert OnAccount(b.side, a)(marked) == OnAccount(b.side, a)(entry);
    }
  }

  // ---- reconciliation carries over when both sides move together

  lemma AccountsCarryOver(b: Books, b': Books)
    requires AccountsReconcile(b)
    requires forall a :: AccountBalance(b', a) - AccountBalance(b, a) == LiveEffect(b', a) - LiveEffect(b, a)
    ensures AccountsReconcile(b')
  {
  }

  lemma ContactsCarryOver(b: Books, b': Books)
    requires forall who :: Outstanding(b', who) - Outstanding(b, who) == Turnover(b', who) - Turnover(b, who) + Excess(b', who) - Excess(b, who)
    ensures ContactsReconcile(b) ==> ContactsReconcile(b')
  {
    hide Outstanding, Turnover, Excess;
    if ContactsReconcile(b) {
      forall who
        ensures Outstanding(b', who) == Turnover(b', who) + Excess(b', who)
      {
        assert Outstanding(b, who) == Turnover(b, who) + Excess(b, who);
      }
    }
  }
}
