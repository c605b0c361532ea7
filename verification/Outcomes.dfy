/**
 * What each call comes to, from its own arguments and the open amounts it finds: when it is accepted,
 * what its rows then say, and what it moves on every account.
 */
module Outcomes {
  import opened Wrappers
  import opened Sums
  import opened Posting
  import opened Books
  import opened BooksInvariant
  import opened BooksSteps
  import opened CashEntries
  import opened DocumentCalls
  import opened NoteCalls
  import opened BooksTheorems
  import opened DocumentedRules
  import opened Unwinding

  /** Every account moves by this much. */
  ghost predicate AccountsMove(b: Books, b': Books, change: Account -> int) {
    b'.side == b.side && forall a :: AccountBalance(b', a) == AccountBalance(b, a) + change(a)
  }

  /** What a document with these lines, times the sign, moves. */
  function Charge(lines: seq<DocumentLine>, sign: int): Account -> int {
    (a: Account) => if sign == 0 then 0 else if sign > 0 then DocumentEffect(lines, a) else -DocumentEffect(lines, a)
  }

  /** Cash moved between an account and the control account. */
  function Cash(account: Account, amount: int): Account -> int {
    (a: Account) => (if a == account then amount else 0) - (if a == Control then amount else 0)
  }

  function Back(change: Account -> int): Account -> int {
    (a: Account) => -change(a)
  }

  lemma EntryMoves(b: Books, b': Books, origin: Origin, lines: seq<Line>, change: Account -> int)
    requires b'.side == b.side && b'.journal == Post(b.journal, origin, lines) && forall a :: Net(b.side, a, lines) == change(a)
    ensures AccountsMove(b, b', change)
  {
    PostAdds(b, origin, lines);
    hide Net, Post;
  }

  lemma ReversalMoves(b: Books, b': Books, e: nat, change: Account -> int)
    requires e < |b.journal| && b.journal[e].reversedBy == None && b'.side == b.side && b'.journal == Reverse(b.journal, e)
    requires forall a :: Net(b.side, a, b.journal[e].lines) == -change(a)
    ensures AccountsMove(b, b', change)
  {
    ReverseSubtracts(b, e);
    hide Net, Reverse;
  }

  // ---- documents

  lemma CreateDocumentOutcome(b: Books, contact: nat, lines: seq<DocumentLine>)
    ensures CreateDocument(b, contact, lines).Done? <==> lines != [] && forall l :: l in lines ==> l.account != Control
    ensures CreateDocument(b, contact, lines).Done? ==>
              var b' := CreateDocument(b, contact, lines).books;
              && |b'.documents| == |b.documents| + 1
              && var d := b'.documents[|b.documents|];
                && b' == b.(documents := b.documents + [d])
                && d.contact == contact && d.lines == lines && d.status == Draft && d.balance == d.txBalance == Total(lines)
  {
    hide Total;
    assert forall l :: l in lines ==> exists i :: 0 <= i < |lines| && lines[i] == l;
  }

  lemma FinalizeDocumentOutcome(b: Books, i: nat)
    requires Journals(b)
    ensures FinalizeDocument(b, i).Done?
       <==> i < |b.documents| && (b.documents[i].status == Finalized || (b.documents[i].status == Draft && Total(b.documents[i].lines) > 0))
    ensures FinalizeDocument(b, i).Done? && b.documents[i].status == Draft ==>
              var b', d := FinalizeDocument(b, i).books, b.documents[i];
              && |b'.documents| == |b.documents| && b' == b.(documents := b.documents[i := b'.documents[i]], journal := b'.journal)
              && b'.documents[i] == d.(status := Finalized, balance := Total(d.lines), txBalance := Total(d.lines), entry := b'.documents[i].entry)
              && AccountsMove(b, b', Charge(d.lines, 1))
  {
    hide Total, EntriesOwned, Paired, DocumentEntry, AccountsMove;
    if i < |b.documents| {
      var d := b.documents[i];
      assert DocumentPosted(d, i, b.side, b.journal);
      if d.status == Draft && Total(d.lines) > 0 {
        forall a
          ensures Net(b.side, a, DocumentEntry(b.side, d.lines)) == Charge(d.lines, 1)(a)
        {
          DocumentEntryIsRight(b.side, d.lines, a);
        }
        EntryMoves(b, FinalizeDocument(b, i).books, OfDocument(i), DocumentEntry(b.side, d.lines), Charge(d.lines, 1));
      }
    }
  }

  /** A finalized document is in nobody's way exactly when all of it is open, in both currencies. */
  lemma UnusedWhenOpen(b: Books, i: nat)
    requires Links(b) && Balances(b, true) && i < |b.documents| && b.documents[i].status == Finalized
    ensures !PaidDirectly(b, i) && !PaidLater(b, i) && !Credited(b, i)
       <==> b.documents[i].balance == Total(b.documents[i].lines) && b.documents[i].txBalance == Total(b.documents[i].lines)
  {
    hide Total;
    var d := b.documents[i];
    assert DocumentBalances(d, i, b.payments, b.applications, b.uses, true);
    if !PaidDirectly(b, i) && !PaidLater(b, i) && !Credited(b, i) {
      UnusedDocument(b, i);
    }
    hide Balances, PaidDirectly, PaidLater, Credited;
    if d.balance == Total(d.lines) && d.txBalance == Total(d.lines) {
      NothingAllocated(b, i);
    }
  }

  lemma NothingAllocated(b: Books, i: nat)
    requires Links(b) && i < |b.documents| && SumOf(b.payments, DirectOn(i)) + SumOf(b.applications, AppliedOn(i)) + SumOf(b.uses, CreditedOn(i)) == 0
    requires SumOf(b.payments, DirectOn(i)) + SumOf(b.applications, TxOn(i)) == 0
    ensures !PaidDirectly(b, i) && !PaidLater(b, i) && !Credited(b, i)
  {
    hide Total;
    DirectOnIsNonNegative(i);
    SumAtLeast(b.payments, DirectOn(i));
    SumAtLeast(b.applications, AppliedOn(i));
    SumAtLeast(b.applications, TxOn(i));
    SumAtLeast(b.uses, CreditedOn(i));
    forall p, k | 0 <= p < |b.payments| && b.payments[p].posted && 0 <= k < |b.payments[p].direct|
      ensures b.payments[p].direct[k].document != i
    {
      assert DirectLinked(b.payments[p], b.side, b.documents);
      SpentOn(b, p, k);
    }
    forall k | 0 <= k < |b.applications| && b.applications[k].active
      ensures b.applications[k].document != i
    {
      assert ApplicationLinked(b.applications[k], b.payments, b.documents);
      assert TxOn(i)(b.applications[k]) <= 0;
    }
    forall k | 0 <= k < |b.uses| && b.uses[k].active
      ensures b.uses[k].document != i
    {
      assert UseLinked(b.uses[k], b.notes, b.documents);
      assert CreditedOn(i)(b.uses[k]) <= 0;
    }
  }

  lemma VoidDocumentOutcome(b: Books, i: nat)
    requires Inv(b)
    ensures VoidDocument(b, i).Done?
       <==> i < |b.documents| && (b.documents[i].status == Finalized ==>
              b.documents[i].balance == Total(b.documents[i].lines) && b.documents[i].txBalance == Total(b.documents[i].lines))
    ensures VoidDocument(b, i).Done? && b.documents[i].status != Voided ==>
              var b', d := VoidDocument(b, i).books, b.documents[i];
              && |b'.documents| == |b.documents| && b' == b.(documents := b.documents[i := b'.documents[i]], journal := b'.journal)
              && b'.documents[i] == d.(status := Voided, balance := 0, txBalance := 0, reversal := b'.documents[i].reversal)
              && AccountsMove(b, b', Charge(d.lines, if d.status == Finalized then -1 else 0))
  {
    hide Total, NotesWithin, AccountsReconcile, ContactsReconcile, EntriesOwned, Paired, DocumentEntry, AccountsMove, Reverse, ReversalId, PaidDirectly, PaidLater, Credited;
    if i < |b.documents| {
      var d := b.documents[i];
      assert DocumentPosted(d, i, b.side, b.journal);
      if d.status == Finalized {
        UnusedWhenOpen(b, i);
      }
      hide Inv;
      if VoidDocument(b, i).Done? && d.status == Finalized {
        forall a
          ensures Net(b.side, a, DocumentEntry(b.side, d.lines)) == -Charge(d.lines, -1)(a)
        {
          DocumentEntryIsRight(b.side, d.lines, a);
        }
        ReversalMoves(b, VoidDocument(b, i).books, d.entry.value, Charge(d.lines, -1));
      } else if VoidDocument(b, i).Done? && d.status == Draft {
        DraftMoves(b, VoidDocument(b, i).books, d.lines);
      }
    }
  }

  lemma DraftMoves(b: Books, b': Books, lines: seq<DocumentLine>)
    requires b'.side == b.side && b'.journal == b.journal
    ensures AccountsMove(b, b', Charge(lines, 0))
  {
  }

  // ---- notes

  /** The document a note may refer to: the contact's own, finalized, with room for it. */
  predicate MayReferTo(b: Books, contact: nat, original: Option<nat>, added: int) {
    original.Some? ==>
      && original.value < |b.documents|
      && b.documents[original.value].contact == contact && b.documents[original.value].status == Finalized
      && SumOf(b.notes, LinkedTotal(original.value)) + added <= Total(b.documents[original.value].lines)
  }

  lemma CreateNoteOutcome(b: Books, contact: nat, lines: seq<DocumentLine>, original: Option<nat>)
    ensures CreateNote(b, contact, lines, original).Done?
       <==> lines != [] && (forall l :: l in lines ==> l.account != Control) && MayReferTo(b, contact, original, Total(lines))
    ensures CreateNote(b, contact, lines, original).Done? ==>
              var b' := CreateNote(b, contact, lines, original).books;
              && b' == b.(notes := b.notes + [Note(contact, Draft, lines, original, Total(lines), None, None)])
              && forall i: nat :: SumOf(b'.notes, LinkedTotal(i)) == SumOf(b.notes, LinkedTotal(i)) + if original == Some(i) then Total(lines) else 0
  {
    hide Total;
    assert forall l :: l in lines ==> exists i :: 0 <= i < |lines| && lines[i] == l;
  }

  /** With notes within their documents, only what the reference is can refuse a draft. */
  lemma FinalizeNoteOutcome(b: Books, n: nat)
    requires Journals(b) && NotesWithin(b)
    ensures FinalizeNote(b, n).Done?
       <==> n < |b.notes| && (b.notes[n].status == Finalized || (b.notes[n].status == Draft && Total(b.notes[n].lines) > 0
              && (b.notes[n].original.Some? ==>
                    var d := b.documents[b.notes[n].original.value]; d.contact == b.notes[n].contact && d.status == Finalized)))
    ensures FinalizeNote(b, n).Done? && b.notes[n].status == Draft ==>
              var b', note := FinalizeNote(b, n).books, b.notes[n];
              && |b'.notes| == |b.notes| && b' == b.(notes := b.notes[n := b'.notes[n]], journal := b'.journal)
              && b'.notes[n] == note.(status := Finalized, unapplied := Total(note.lines), entry := b'.notes[n].entry)
              && AccountsMove(b, b', Charge(note.lines, -1))
  {
    hide Total, EntriesOwned, Paired, NoteEntry, LinkedTotal, AccountsMove;
    if n < |b.notes| {
      var note := b.notes[n];
      assert NotePosted(note, n, b.side, b.journal);
      if note.status == Draft && Total(note.lines) > 0 {
        forall a
          ensures Net(b.side, a, NoteEntry(b.side, note.lines)) == Charge(note.lines, -1)(a)
        {
          NoteEntryIsMirrored(b.side, note.lines, a);
        }
        if FinalizeNote(b, n).Done? {
          EntryMoves(b, FinalizeNote(b, n).books, OfNote(n), NoteEntry(b.side, note.lines), Charge(note.lines, -1));
        }
      }
    }
  }

  /** A finalized note is unused exactly when all of it is unapplied. */
  lemma UnusedWhenUnapplied(b: Books, n: nat)
    requires Links(b) && Balances(b, true) && n < |b.notes| && b.notes[n].status == Finalized
    ensures !NoteInUse(b, n) <==> b.notes[n].unapplied == Total(b.notes[n].lines)
  {
    hide Total, DocumentsBalance, PaymentsBalance;
    assert NoteBalances(b.notes[n], n, b.uses, b.refunds, true);
    if !NoteInUse(b, n) {
      UnusedNote(b, n);
    }
    SumAtLeast(b.uses, UsedOf(n));
    SumAtLeast(b.refunds, RefundedFrom(FromNote(n)));
    if b.notes[n].unapplied == Total(b.notes[n].lines) {
      forall k | 0 <= k < |b.uses| && b.uses[k].active
        ensures b.uses[k].note != n
      {
        assert UseLinked(b.uses[k], b.notes, b.documents);
        assert UsedOf(n)(b.uses[k]) <= 0;
      }
      forall r | 0 <= r < |b.refunds| && b.refunds[r].posted
        ensures b.refunds[r].source != FromNote(n)
      {
        assert RefundLinked(b.refunds[r], b.side, b.payments, b.notes);
        assert RefundedFrom(FromNote(n))(b.refunds[r]) <= 0;
      }
    }
  }

  lemma VoidNoteOutcome(b: Books, n: nat)
    requires Inv(b)
    ensures VoidNote(b, n).Done? <==> n < |b.notes| && (b.notes[n].status == Finalized ==> b.notes[n].unapplied == Total(b.notes[n].lines))
    ensures VoidNote(b, n).Done? && b.notes[n].status != Voided ==>
              var b', note := VoidNote(b, n).books, b.notes[n];
              && |b'.notes| == |b.notes| && b' == b.(notes := b.notes[n := b'.notes[n]], journal := b'.journal)
              && b'.notes[n] == note.(status := Voided, reversal := b'.notes[n].reversal)
              && AccountsMove(b, b', Charge(note.lines, if note.status == Finalized then 1 else 0))
              && forall i: nat :: SumOf(b'.notes, LinkedTotal(i)) == SumOf(b.notes, LinkedTotal(i)) - if note.original == Some(i) then Total(note.lines) else 0
  {
    hide Total, NotesWithin, AccountsReconcile, ContactsReconcile, EntriesOwned, Paired, NoteEntry, AccountsMove, Reverse, ReversalId, NoteInUse;
    if n < |b.notes| {
      var note := b.notes[n];
      assert NotePosted(note, n, b.side, b.journal);
      if note.status == Finalized {
        UnusedWhenUnapplied(b, n);
      }
      hide Inv;
      if VoidNote(b, n).Done? && note.status != Voided {
        SumUpdate(b.notes, n, VoidNote(b, n).books.notes[n]);
      }
      if VoidNote(b, n).Done? && note.status == Finalized {
        forall a
          ensures Net(b.side, a, NoteEntry(b.side, note.lines)) == -Charge(note.lines, 1)(a)
        {
          NoteEntryIsMirrored(b.side, note.lines, a);
        }
        ReversalMoves(b, VoidNote(b, n).books, note.entry.value, Charge(note.lines, 1));
      } else if VoidNote(b, n).Done? && note.status == Draft {
        DraftMoves(b, VoidNote(b, n).books, note.lines);
      }
    }
  }

  lemma ApplyNoteOutcome(b: Books, n: nat, i: nat, amount: Money)
    ensures ApplyNote(b, n, i, amount).Done?
       <==> && amount > 0 && n < |b.notes| && i < |b.documents|
            && b.notes[n].status == Finalized && b.documents[i].status == Finalized && b.documents[i].contact == b.notes[n].contact
            && amount <= b.notes[n].unapplied && amount <= b.documents[i].balance
    ensures ApplyNote(b, n, i, amount).Done? ==>
              ApplyNote(b, n, i, amount).books
              == b.(notes := b.notes[n := b.notes[n].(unapplied := b.notes[n].unapplied - amount)],
                    documents := b.documents[i := b.documents[i].(balance := b.documents[i].balance - amount)],
                    uses := b.uses + [CreditUse(n, i, amount, true)])
  {
  }

  /** A use in force can always be taken back, and gives both rows their amount. */
  lemma ReverseUseOutcome(b: Books, k: nat)
    requires Inv(b)
    ensures ReverseUse(b, k).Done? <==> k < |b.uses| && b.uses[k].active
    ensures ReverseUse(b, k).Done? ==>
              var u := b.uses[k];
              && u.note < |b.notes| && u.document < |b.documents|
              && ReverseUse(b, k).books
                 == b.(notes := b.notes[u.note := b.notes[u.note].(unapplied := b.notes[u.note].unapplied + u.amount)],
                       documents := b.documents[u.document := b.documents[u.document].(balance := b.documents[u.document].balance + u.amount)],
                       uses := b.uses[k := u.(active := false)])
  {
    if k < |b.uses| && b.uses[k].active {
      CanReverseUse(b, k);
    }
    hide Inv;
    OnlyActiveUses(b, k);
    hide ReverseUse;
  }

  lemma OnlyActiveUses(b: Books, k: nat)
    ensures ReverseUse(b, k).Done? ==>
              && k < |b.uses| && b.uses[k].active
              && var u := b.uses[k];
                && u.note < |b.notes| && u.document < |b.documents|
                && ReverseUse(b, k).books
                   == b.(notes := b.notes[u.note := b.notes[u.note].(unapplied := b.notes[u.note].unapplied + u.amount)],
                         documents := b.documents[u.document := b.documents[u.document].(balance := b.documents[u.document].balance + u.amount)],
                         uses := b.uses[k := u.(active := false)])
  {
    hide NoteTakesBack, DocumentTakesCredit;
  }

  // ---- payments

  lemma CreatePaymentOutcome(b: Books, contact: nat, account: Account, received: Money, direct: seq<Direct>)
    requires CreatePayment(b, contact, account, received, direct).Done?
    ensures var b' := CreatePayment(b, contact, account, received, direct).books;
            && |b'.payments| == |b.payments| + 1 && |b'.documents| == |b.documents|
            && var p := b'.payments[|b.payments|];
              && b' == b.(payments := b.payments + [p], documents := b'.documents, journal := b'.journal)
              && p.posted && p.contact == contact && p.account == account && p.received == received && p.direct == direct
              && p.unapplied == p.txUnapplied == received - SumOf(direct, DirectAmount())
              && (forall i :: 0 <= i < |b.documents| ==>
                    var d, paid := b.documents[i], SumOf(direct, OnTarget(i));
                    b'.documents[i] == d.(balance := d.balance - paid, txBalance := d.txBalance - paid))
              && AccountsMove(b, b', Cash(account, received))
  {
    hide PaymentEntry, Allocated, PlanPostable, MayHoldCash, DistinctDocuments, AccountsMove, AllSpendable, ValidDirect;
    var b' := CreatePayment(b, contact, account, received, direct).books;
    var p := b'.payments[|b.payments|];
    forall a
      ensures Net(b.side, a, PaymentEntry(b.side, p)) == Cash(account, received)(a)
    {
      PaymentEntryIsRight(b.side, p, a);
    }
    EntryMoves(b, b', OfPayment(|b.payments|), PaymentEntry(b.side, p), Cash(account, received));
    forall i | 0 <= i < |b.documents|
      ensures var d, paid := b.documents[i], SumOf(direct, OnTarget(i));
              b'.documents[i] == d.(balance := d.balance - paid, txBalance := d.txBalance - paid)
    {
      AllocatedAt(b.documents, direct, -1, i);
    }
  }

  /** A posted payment is unused exactly when all it did not allocate itself is unapplied, in both currencies. */
  lemma UnusedWhenLeft(b: Books, p: nat)
    requires Links(b) && Balances(b, true) && p < |b.payments| && b.payments[p].posted
    ensures !PaymentInUse(b, p)
       <==> b.payments[p].unapplied == b.payments[p].txUnapplied == b.payments[p].received - SumOf(b.payments[p].direct, DirectAmount())
  {
    hide Total, DocumentsBalance, NotesBalance;
    assert PaymentBalances(b.payments[p], p, b.applications, b.refunds, true);
    if !PaymentInUse(b, p) {
      SumZero(b.applications, AppliedFrom(p));
      SumZero(b.applications, TxFrom(p));
      SumZero(b.refunds, RefundedFrom(FromPayment(p)));
    } else {
      SumAtLeast(b.applications, AppliedFrom(p));
      SumAtLeast(b.applications, TxFrom(p));
      SumAtLeast(b.refunds, RefundedFrom(FromPayment(p)));
      if k :| 0 <= k < |b.refunds| && b.refunds[k].posted && b.refunds[k].source == FromPayment(p) {
        assert RefundLinked(b.refunds[k], b.side, b.payments, b.notes);
        assert RefundedFrom(FromPayment(p))(b.refunds[k]) > 0;
      } else {
        var k :| 0 <= k < |b.applications| && b.applications[k].active && b.applications[k].payment == p;
        assert ApplicationLinked(b.applications[k], b.payments, b.documents);
        assert TxFrom(p)(b.applications[k]) > 0;
      }
    }
  }

  lemma VoidPaymentOutcome(b: Books, p: nat)
    requires Inv(b)
    ensures VoidPayment(b, p).Done?
       <==> p < |b.payments| && (b.payments[p].posted ==>
              b.payments[p].unapplied == b.payments[p].txUnapplied == b.payments[p].received - SumOf(b.payments[p].direct, DirectAmount()))
    ensures VoidPayment(b, p).Done? && b.payments[p].posted ==>
              var b', payment := VoidPayment(b, p).books, b.payments[p];
              && |b'.payments| == |b.payments| && |b'.documents| == |b.documents|
              && b' == b.(payments := b.payments[p := b'.payments[p]], documents := b'.documents, journal := b'.journal)
              && b'.payments[p] == payment.(posted := false, reversal := b'.payments[p].reversal)
              && (forall i :: 0 <= i < |b.documents| ==>
                    var d, paid := b.documents[i], SumOf(payment.direct, OnTarget(i));
                    b'.documents[i] == d.(balance := d.balance + paid, txBalance := d.txBalance + paid))
              && AccountsMove(b, b', Cash(payment.account, -(payment.received as int)))
  {
    hide Inv, AccountsMove, VoidPayment, PaymentPosted, DirectLinked;
    if p < |b.payments| && b.payments[p].posted {
      PaymentInForce(b, p);
      hide Restorable, PaymentInUse;
      VoidPaymentAccepted(b, p);
      if VoidPayment(b, p).Done? {
        VoidPaymentEffect(b, p);
      }
    } else {
      VoidPaymentAccepted(b, p);
    }
  }

  lemma PaymentInForce(b: Books, p: nat)
    requires Inv(b) && p < |b.payments| && b.payments[p].posted
    ensures PaymentPosted(b.payments[p], p, b.side, b.journal) && b.payments[p].entry < |b.journal|
    ensures DirectLinked(b.payments[p], b.side, b.documents) && Restorable(b, b.payments[p].direct)
    ensures !PaymentInUse(b, p)
       <==> b.payments[p].unapplied == b.payments[p].txUnapplied == b.payments[p].received - SumOf(b.payments[p].direct, DirectAmount())
  {
    hide Total, NotesWithin, AccountsReconcile, ContactsReconcile, EntriesOwned, Paired, PaymentEntry, PaymentInUse, Restorable;
    UnusedWhenLeft(b, p);
    CanRestore(b, p);
  }

  lemma VoidPaymentAccepted(b: Books, p: nat)
    requires p < |b.payments| && b.payments[p].posted ==> b.payments[p].entry < |b.journal| && Restorable(b, b.payments[p].direct)
    ensures VoidPayment(b, p).Done? <==> p < |b.payments| && (b.payments[p].posted ==> !PaymentInUse(b, p))
  {
    hide PaymentInUse, Restorable, Allocated, Reverse, ReversalId;
  }

  lemma VoidPaymentEffect(b: Books, p: nat)
    requires p < |b.payments| && PaymentPosted(b.payments[p], p, b.side, b.journal) && DirectLinked(b.payments[p], b.side, b.documents)
    requires b.payments[p].posted && VoidPayment(b, p).Done?
    ensures var b', payment := VoidPayment(b, p).books, b.payments[p];
            && |b'.payments| == |b.payments| && |b'.documents| == |b.documents|
            && b' == b.(payments := b.payments[p := b'.payments[p]], documents := b'.documents, journal := b'.journal)
            && b'.payments[p] == payment.(posted := false, reversal := b'.payments[p].reversal)
            && (forall i :: 0 <= i < |b.documents| ==>
                  var d, paid := b.documents[i], SumOf(payment.direct, OnTarget(i));
                  b'.documents[i] == d.(balance := d.balance + paid, txBalance := d.txBalance + paid))
            && AccountsMove(b, b', Cash(payment.account, -(payment.received as int)))
  {
    hide PaymentEntry, AccountsMove, Reverse, ReversalId, PaymentInUse, Restorable, Allocated;
    var b', payment := VoidPayment(b, p).books, b.payments[p];
    forall a
      ensures Net(b.side, a, PaymentEntry(b.side, payment)) == -Cash(payment.account, -(payment.received as int))(a)
    {
      PaymentEntryIsRight(b.side, payment, a);
    }
    ReversalMoves(b, b', payment.entry, Cash(payment.account, -(payment.received as int)));
    forall i | 0 <= i < |b.documents|
      ensures var d, paid := b.documents[i], SumOf(payment.direct, OnTarget(i));
              b'.documents[i] == d.(balance := d.balance + paid, txBalance := d.txBalance + paid)
    {
      AllocatedAt(b.documents, payment.direct, 1, i);
    }
  }

  // ---- settlements

  /** What a settlement takes from the document: all that is left in base when it closes the transaction balance. */
  function SettledOn(d: Document, amount: Money): int {
    if amount == d.txBalance then d.balance else amount
  }

  function TakenFrom(payment: Payment, amount: Money): int {
    if amount == payment.txUnapplied then payment.unapplied else Min(amount, payment.unapplied)
  }

  /** What it takes from the payment beyond that is a gain or a loss, against the control account. */
  function Adjustment(side: Side, excess: int): Account -> int {
    (a: Account) =>
      (if a == Control then excess else 0)
      - (if a == FxGain && (if side == Receivable then excess > 0 else excess < 0) then excess else 0)
      - (if a == FxLoss && (if side == Receivable then excess < 0 else excess > 0) then excess else 0)
  }

  lemma ApplyUnappliedOutcome(b: Books, p: nat, i: nat, amount: Money)
    requires Balances(b, false)
    ensures ApplyUnapplied(b, p, i, amount).Done?
       <==> && amount > 0 && p < |b.payments| && i < |b.documents|
            && b.payments[p].posted && b.documents[i].status == Finalized && b.documents[i].contact == b.payments[p].contact
            && amount <= b.payments[p].txUnapplied && amount <= b.documents[i].txBalance
            && (amount < b.documents[i].txBalance ==> amount <= b.documents[i].balance)
            && var excess := TakenFrom(b.payments[p], amount) - SettledOn(b.documents[i], amount);
              && (!b.gainAccount ==> if b.side == Receivable then excess <= 0 else excess >= 0)
              && (!b.lossAccount ==> if b.side == Receivable then excess >= 0 else excess <= 0)
    ensures ApplyUnapplied(b, p, i, amount).Done? ==>
              var b', payment, d := ApplyUnapplied(b, p, i, amount).books, b.payments[p], b.documents[i];
              var taken, settled := TakenFrom(payment, amount), SettledOn(d, amount);
              && taken >= 0 && settled >= 0 && |b'.applications| == |b.applications| + 1
              && b' == b.(payments := b.payments[p := payment.(unapplied := payment.unapplied - taken, txUnapplied := payment.txUnapplied - amount)],
                          documents := b.documents[i := d.(balance := d.balance - settled, txBalance := d.txBalance - amount)],
                          applications := b.applications + [b'.applications[|b.applications|]], journal := b'.journal)
              && b'.applications[|b.applications|]
                 == Application(p, payment.contact, i, amount, settled, taken, true, b'.applications[|b.applications|].entry)
              && AccountsMove(b, b', Adjustment(b.side, taken - settled))
  {
    hide Total, Net, AccountsMove;
    if p < |b.payments| {
      assert PaymentBalances(b.payments[p], p, b.applications, b.refunds, false);
    }
    if i < |b.documents| {
      assert DocumentBalances(b.documents[i], i, b.payments, b.applications, b.uses, false);
    }
    hide Balances, AdjustmentEntry;
    if ApplyUnapplied(b, p, i, amount).Done? {
      AdjustmentMoves(b, ApplyUnapplied(b, p, i, amount).books, |b.applications|, TakenFrom(b.payments[p], amount) - SettledOn(b.documents[i], amount));
    }
  }

  lemma AdjustmentMoves(b: Books, b': Books, id: nat, excess: int)
    requires b'.side == b.side
    requires b'.journal == if excess == 0 then b.journal else Post(b.journal, OfApplication(id), AdjustmentEntry(b.side, excess))
    ensures AccountsMove(b, b', Adjustment(b.side, excess))
  {
    hide AdjustmentEntry;
    if excess != 0 {
      forall a
        ensures Net(b.side, a, AdjustmentEntry(b.side, excess)) == Adjustment(b.side, excess)(a)
      {
        AdjustmentEntryIsRight(b.side, excess, a);
      }
      hide AccountsMove;
      EntryMoves(b, b', OfApplication(id), AdjustmentEntry(b.side, excess), Adjustment(b.side, excess));
    }
  }

  lemma ReverseApplicationOutcome(b: Books, k: nat)
    requires Inv(b)
    ensures ReverseApplication(b, k).Done? <==> k < |b.applications| && b.applications[k].active
    ensures ReverseApplication(b, k).Done? ==> k < |b.applications| && ApplicationTakenBack(b, k, ReverseApplication(b, k).books)
  {
    if k < |b.applications| && b.applications[k].active {
      CanReverseApplication(b, k);
      assert ApplicationPosted(b.applications[k], k, b.side, b.journal);
      hide Inv;
      ReverseApplicationEffect(b, k);
    }
    hide Inv, ApplicationTakenBack, Total;
  }

  /** Both rows have their amounts back, and so has every account. */
  ghost predicate ApplicationTakenBack(b: Books, k: nat, b': Books)
    requires k < |b.applications|
  {
    var a := b.applications[k];
    && a.payment < |b.payments| && a.document < |b.documents|
    && var payment, d := b.payments[a.payment], b.documents[a.document];
      && b' == b.(payments := b.payments[a.payment := payment.(unapplied := payment.unapplied + a.onPayment, txUnapplied := payment.txUnapplied + a.txAmount)],
                  documents := b.documents[a.document := d.(balance := d.balance + a.onDocument, txBalance := d.txBalance + a.txAmount)],
                  applications := b.applications[k := a.(active := false)], journal := b'.journal)
      && AccountsMove(b, b', Back(Adjustment(b.side, a.onPayment - a.onDocument)))
  }

  lemma ReverseApplicationEffect(b: Books, k: nat)
    requires k < |b.applications| && b.applications[k].active && ApplicationPosted(b.applications[k], k, b.side, b.journal)
    requires ReverseApplication(b, k).Done?
    ensures ApplicationTakenBack(b, k, ReverseApplication(b, k).books)
  {
    hide Total, AccountsMove, AdjustmentEntry, Reverse, PaymentTakesBack, DocumentTakesBack;
    var a := b.applications[k];
    AdjustmentReversed(b, ReverseApplication(b, k).books, a.entry, a.onPayment - a.onDocument);
  }

  lemma AdjustmentReversed(b: Books, b': Books, entry: Option<nat>, excess: int)
    requires b'.side == b.side && (entry.Some? <==> excess != 0)
    requires entry.Some? ==> entry.value < |b.journal| && b.journal[entry.value].reversedBy == None
                             && b.journal[entry.value].lines == AdjustmentEntry(b.side, excess)
    requires b'.journal == if entry.None? then b.journal else Reverse(b.journal, entry.value)
    ensures AccountsMove(b, b', Back(Adjustment(b.side, excess)))
  {
    hide AdjustmentEntry, Reverse;
    if excess != 0 {
      forall a
        ensures Net(b.side, a, AdjustmentEntry(b.side, excess)) == -Back(Adjustment(b.side, excess))(a)
      {
        AdjustmentEntryIsRight(b.side, excess, a);
      }
      hide AccountsMove;
      ReversalMoves(b, b', entry.value, Back(Adjustment(b.side, excess)));
    }
  }

  // ---- refunds

  /** The contact's own payment or note in force, with this much unapplied. */
  predicate MayPayBack(b: Books, contact: nat, source: RefundSource, amount: Money) {
    match source
    case FromPayment(p) => p < |b.payments| && b.payments[p].posted && b.payments[p].contact == contact && amount <= b.payments[p].unapplied
    case FromNote(n) => n < |b.notes| && b.notes[n].status == Finalized && b.notes[n].contact == contact && amount <= b.notes[n].unapplied
  }

  /** The books with so much more, or less, unapplied at the source. */
  ghost predicate SourceChanged(b: Books, b': Books, source: RefundSource, change: int) {
    match source
    case FromPayment(p) =>
      && p < |b.payments|
      && b' == b.(payments := b.payments[p := b.payments[p].(unapplied := b.payments[p].unapplied + change)], refunds := b'.refunds, journal := b'.journal)
    case FromNote(n) =>
      && n < |b.notes|
      && b' == b.(notes := b.notes[n := b.notes[n].(unapplied := b.notes[n].unapplied + change)], refunds := b'.refunds, journal := b'.journal)
  }

  lemma CreateRefundOutcome(b: Books, contact: nat, source: RefundSource, account: Account, amount: Money)
    ensures CreateRefund(b, contact, source, account, amount).Done?
       <==> amount > 0 && (account.Asset? || account == if b.side == Receivable then Control else Vat) && MayPayBack(b, contact, source, amount)
    ensures CreateRefund(b, contact, source, account, amount).Done? ==>
              var b' := CreateRefund(b, contact, source, account, amount).books;
              && SourceChanged(b, b', source, -(amount as int)) && |b'.refunds| == |b.refunds| + 1
              && b'.refunds == b.refunds + [Refund(contact, source, account, amount, true, b'.refunds[|b.refunds|].entry, None)]
              && AccountsMove(b, b', Cash(account, -(amount as int)))
  {
    hide RefundEntry, AccountsMove;
    if CreateRefund(b, contact, source, account, amount).Done? {
      forall a
        ensures Net(b.side, a, RefundEntry(b.side, account, amount)) == Cash(account, -(amount as int))(a)
      {
        RefundEntryIsRight(b.side, account, amount, a);
      }
      EntryMoves(b, CreateRefund(b, contact, source, account, amount).books, OfRefund(|b.refunds|), RefundEntry(b.side, account, amount), Cash(account, -(amount as int)));
    }
  }

  /** A refund can always be voided, and gives its source its amount back. */
  lemma VoidRefundOutcome(b: Books, r: nat)
    requires Inv(b)
    ensures VoidRefund(b, r).Done? <==> r < |b.refunds|
    ensures VoidRefund(b, r).Done? && b.refunds[r].posted ==>
              var b', refund := VoidRefund(b, r).books, b.refunds[r];
              && SourceChanged(b, b', refund.source, refund.amount) && |b'.refunds| == |b.refunds|
              && b'.refunds == b.refunds[r := refund.(posted := false, reversal := b'.refunds[r].reversal)]
              && AccountsMove(b, b', Cash(refund.account, refund.amount))
  {
    if r < |b.refunds| && b.refunds[r].posted {
      CanVoidRefund(b, r);
      assert RefundPosted(b.refunds[r], r, b.side, b.journal) && RefundLinked(b.refunds[r], b.side, b.payments, b.notes);
      hide Inv;
      VoidRefundEffect(b, r);
    }
    hide Inv, AccountsMove, SourceChanged, Total;
  }

  lemma VoidRefundEffect(b: Books, r: nat)
    requires r < |b.refunds| && b.refunds[r].posted && RefundPosted(b.refunds[r], r, b.side, b.journal) && b.refunds[r].amount > 0
    requires VoidRefund(b, r).Done?
    ensures var b', refund := VoidRefund(b, r).books, b.refunds[r];
            && SourceChanged(b, b', refund.source, refund.amount) && |b'.refunds| == |b.refunds|
            && b'.refunds == b.refunds[r := refund.(posted := false, reversal := b'.refunds[r].reversal)]
            && AccountsMove(b, b', Cash(refund.account, refund.amount))
  {
    hide RefundEntry, AccountsMove, Reverse, ReversalId, Total;
    var refund := b.refunds[r];
    forall a
      ensures Net(b.side, a, RefundEntry(b.side, refund.account, refund.amount)) == -Cash(refund.account, refund.amount)(a)
    {
      RefundEntryIsRight(b.side, refund.account, refund.amount, a);
    }
    ReversalMoves(b, VoidRefund(b, r).books, refund.entry, Cash(refund.account, refund.amount));
  }
}
