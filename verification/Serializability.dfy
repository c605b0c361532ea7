/**
 * What holds under every interleaving of the transactions. A commit is always what its claims make
 * it, so the claims alone keep every balance in range and every entry single. It is the call itself,
 * made on the tables as they are then, exactly when what was looked at without a lock is still so.
 */
module Serializability {
  import opened Wrappers
  import opened Sums
  import opened Posting
  import opened Books
  import opened BooksInvariant
  import opened BooksTheorems
  import opened DocumentedRules
  import opened Transactions
  import opened Isolation
  import opened IsolationSteps
  import opened Commits

  // ---- one commit

  /** Calls that take effect on their row once: nothing puts a row back to where they found it. */
  predicate OnceOnly(c: Call) {
    || c.DoFinalizeDocument? || c.DoVoidDocument? || c.DoFinalizeNote? || c.DoVoidNote? || c.DoReverseUse?
    || c.DoVoidPayment? || c.DoReverseApplication? || c.DoVoidRefund?
  }

  predicate HasHappened(b: Books, c: Call) {
    match c
    case DoFinalizeDocument(i) => i < |b.documents| && b.documents[i].status != Draft
    case DoVoidDocument(i) => i < |b.documents| && b.documents[i].status == Voided
    case DoFinalizeNote(n) => n < |b.notes| && b.notes[n].status != Draft
    case DoVoidNote(n) => n < |b.notes| && b.notes[n].status == Voided
    case DoReverseUse(k) => k < |b.uses| && !b.uses[k].active
    case DoVoidPayment(p) => p < |b.payments| && !b.payments[p].posted
    case DoReverseApplication(k) => k < |b.applications| && !b.applications[k].active
    case DoVoidRefund(r) => r < |b.refunds| && !b.refunds[r].posted
    case _ => false
  }

  /** A commit is what the call comes to once its claims have succeeded, and no call commits that has had its effect already. */
  lemma CommitIsClaimed(b: Books, locks: Locks, t: Transaction, b': Books)
    requires t.Running? && Holds(b, t) && Links(b) && Step(b, locks, t) == Commit(b')
    ensures Claimed(b, t.call, t.plan) == Done(b') && Framed(b, b', t.claims) && !HasHappened(b, t.call)
  {
    LinksPoint(b);
    hide Links, Anchored, Tame, Framed, Shaped, Known, Step, Claimed, HasHappened, DistinctDocuments;
    StepCommits(b, locks, t, b');
    FoundInForce(b, t.call, t.plan, b');
  }

  predicate FindsInForce(b: Books, c: Call) {
    && (c.DoFinalizeDocument? && c.document < |b.documents| ==> b.documents[c.document].status == Draft)
    && (c.DoVoidDocument? && c.document < |b.documents| ==> b.documents[c.document].status != Voided)
    && (c.DoVoidRefund? && c.refund < |b.refunds| ==> b.refunds[c.refund].posted)
  }

  lemma StepCommits(b: Books, locks: Locks, t: Transaction, b': Books)
    requires t.Running? && Anchored(b, t.claims) && Tame(t.claims) && Shaped(b.side, t) && Known(b, t) && Step(b, locks, t) == Commit(b')
    requires forall p :: 0 <= p < |b.payments| ==> DistinctDocuments(b.payments[p].direct)
    ensures Claimed(b, t.call, t.plan) == Done(b') && Framed(b, b', t.claims) && FindsInForce(b, t.call)
  {
    hide Anchored, Tame, Framed, DistinctDocuments, Total, UnusedDocumentRow, NoteInUse, PaymentAcceptable, AdjustmentConfigured, MayHoldCash, ValidLines,
      FinalizeDocumentShaped, VoidDocumentShaped, FinalizeNoteShaped, VoidNoteShaped, ApplyNoteShaped, ReverseUseShaped,
      CreatePaymentShaped, VoidPaymentShaped, ApplyShaped, ReverseApplicationShaped, CreateRefundShaped, VoidRefundShaped,
      CreateDocumentStep, FinalizeDocumentStep, VoidDocumentStep, CreateNoteStep, FinalizeNoteStep, VoidNoteStep,
      ApplyNoteStep, ReverseUseStep, CreatePaymentStep, VoidPaymentStep, ApplyStep, ReverseApplicationStep, CreateRefundStep, VoidRefundStep,
      CreateDocument, FinalizeDocument, VoidDocument, CreateNoteClaimed, FinalizeNoteClaimed, VoidNoteClaimed, ApplyNote, ReverseUse,
      CreatePaymentClaimed, VoidPaymentClaimed, ApplySettled, ReverseApplication, CreateRefund, VoidRefund;
    match t.call
    case DoCreateDocument(contact, lines) => CreateDocumentCommits(b, t, contact, lines, b');
    case DoFinalizeDocument(i) => FinalizeDocumentCommits(b, locks, t, i, b');
    case DoVoidDocument(i) => VoidDocumentCommits(b, locks, t, i, b');
    case DoCreateNote(contact, lines, original) => CreateNoteCommits(b, locks, t, contact, lines, original, b');
    case DoFinalizeNote(n) => FinalizeNoteCommits(b, locks, t, n, b');
    case DoVoidNote(n) => VoidNoteCommits(b, locks, t, n, b');
    case DoApplyNote(n, i, amount) => ApplyNoteCommits(b, locks, t, n, i, amount, b');
    case DoReverseUse(k) => ReverseUseCommits(b, locks, t, k, b');
    case DoCreatePayment(contact, account, received, direct) => CreatePaymentCommits(b, locks, t, contact, account, received, direct, b');
    case DoVoidPayment(p) => VoidPaymentCommits(b, locks, t, p, b');
    case DoApplyUnapplied(p, i, amount) => ApplyCommits(b, locks, t, p, i, amount, b');
    case DoReverseApplication(k) => ReverseApplicationCommits(b, locks, t, k, b');
    case DoCreateRefund(contact, source, account, amount) => CreateRefundCommits(b, locks, t, contact, source, account, amount, b');
    case DoVoidRefund(r) => VoidRefundCommits(b, locks, t, r, b');
  }

  /** Documents and refunds aside, whose calls accept to be repeated, claims find their row in force. */
  lemma FoundInForce(b: Books, c: Call, plan: Settlement, b': Books)
    requires Claimed(b, c, plan) == Done(b') && FindsInForce(b, c)
    ensures !HasHappened(b, c)
  {
    hide Total, Restorable, Reverse, Allocated;
  }

  /** Afterwards it has, and that lasts. */
  lemma Happens(b: Books, c: Call, plan: Settlement, b': Books)
    requires Claimed(b, c, plan) == Done(b') && OnceOnly(c)
    ensures HasHappened(b', c)
  {
    hide Total, Restorable, Reverse, ReversalId, Allocated, PaidDirectly, PaidLater, Credited, DocumentEntry, NoteEntry;
  }

  lemma HappenedForGood(b: Books, b': Books, claims: Claims, c: Call)
    requires Framed(b, b', claims) && HasHappened(b, c)
    ensures HasHappened(b', c)
  {
    hide NewRowsFramed;
  }

  // ---- every interleaving

  ghost predicate AllApart(transactions: seq<Transaction>) {
    forall m, n | 0 <= m < |transactions| && 0 <= n < |transactions| && m != n && transactions[m].Running? && transactions[n].Running? ::
      Apart(transactions[m].claims, transactions[n].claims)
  }

  ghost predicate AllHold(b: Books, transactions: seq<Transaction>) {
    forall n :: 0 <= n < |transactions| && transactions[n].Running? ==> Holds(b, transactions[n])
  }

  /** No call that takes effect once has committed twice, and those that have committed have their effect. */
  ghost predicate Once(b: Books, committed: seq<Call>) {
    && (forall j, k :: 0 <= j < k < |committed| && committed[j] == committed[k] ==> !OnceOnly(committed[j]))
    && (forall k :: 0 <= k < |committed| && OnceOnly(committed[k]) ==> HasHappened(b, committed[k]))
  }

  ghost predicate WorldHolds(w: World) {
    Safe(w.books) && AllHold(w.books, w.transactions) && AllApart(w.transactions) && Once(w.books, w.committed)
  }

  lemma LocksAreOthers(transactions: seq<Transaction>, n: nat)
    requires n < |transactions| && transactions[n].Running? && AllApart(transactions)
    ensures Unlocked(transactions[n].claims, LockedByOthers(transactions, n))
  {
  }

  lemma UnlockedIsApart(transactions: seq<Transaction>, n: nat, t: Transaction)
    requires n < |transactions| && AllApart(transactions) && t.Running? && Unlocked(t.claims, LockedByOthers(transactions, n))
    ensures AllApart(transactions[n := t])
  {
    var after := transactions[n := t];
    forall m, k | 0 <= m < |after| && 0 <= k < |after| && m != k && after[m].Running? && after[k].Running?
      ensures Apart(after[m].claims, after[k].claims)
    {
      if m != n && k != n {
        assert Apart(transactions[m].claims, transactions[k].claims);
      }
    }
  }

  lemma CommitKeepsOthers(b: Books, transactions: seq<Transaction>, n: nat, b': Books)
    requires n < |transactions| && transactions[n].Running? && Framed(b, b', transactions[n].claims) && AllApart(transactions)
    requires Links(b) && AllHold(b, transactions)
    ensures AllHold(b', transactions[n := Ended])
  {
    hide Framed, Apart, Holds, Links;
    forall m | 0 <= m < |transactions| && m != n && transactions[m].Running?
      ensures Holds(b', transactions[m])
    {
      assert Apart(transactions[n].claims, transactions[m].claims);
      HoldsOn(b, b', transactions[n].claims, transactions[m]);
    }
  }

  lemma CommitKeepsOnce(b: Books, claims: Claims, c: Call, plan: Settlement, b': Books, committed: seq<Call>)
    requires Once(b, committed) && Claimed(b, c, plan) == Done(b') && Framed(b, b', claims) && !HasHappened(b, c)
    ensures Once(b', committed + [c])
  {
    hide Claimed, Framed, HasHappened, OnceOnly;
    if OnceOnly(c) {
      Happens(b, c, plan, b');
    }
    forall k | 0 <= k < |committed| && OnceOnly(committed[k])
      ensures HasHappened(b', committed[k])
    {
      HappenedForGood(b, b', claims, committed[k]);
    }
  }

  lemma CommitKeepsWorld(w: World, n: nat, b': Books)
    requires WorldHolds(w) && n < |w.transactions| && w.transactions[n].Running?
    requires Step(w.books, LockedByOthers(w.transactions, n), w.transactions[n]) == Commit(b')
    ensures WorldHolds(World(b', w.transactions[n := Ended], w.committed + [w.transactions[n].call]))
  {
    var t := w.transactions[n];
    assert Holds(w.books, t);
    hide Step, Framed, LockedByOthers, Holds, Apart, Once, Claimed, HasHappened, Links, Balances, Journals, AccountsReconcile;
    CommitIsClaimed(w.books, LockedByOthers(w.transactions, n), t, b');
    ClaimedKeepsSafe(w.books, t.call, t.plan, b');
    CommitKeepsOthers(w.books, w.transactions, n, b');
    CommitKeepsOnce(w.books, t.claims, t.call, t.plan, b', w.committed);
  }

  lemma GoKeepsWorld(w: World, n: nat, t': Transaction)
    requires WorldHolds(w) && n < |w.transactions| && w.transactions[n].Running?
    requires Step(w.books, LockedByOthers(w.transactions, n), w.transactions[n]) == Go(t')
    ensures WorldHolds(w.(transactions := w.transactions[n := t']))
  {
    hide Step, Holds, Once, LockedByOthers, Unlocked, AllApart, Links, Balances, Journals, AccountsReconcile;
    LocksAreOthers(w.transactions, n);
    StepKeepsHolding(w.books, LockedByOthers(w.transactions, n), w.transactions[n], t');
    UnlockedIsApart(w.transactions, n, t');
  }

  lemma EndKeepsWorld(w: World, n: nat)
    requires WorldHolds(w) && n < |w.transactions|
    ensures WorldHolds(w.(transactions := w.transactions[n := Ended]))
  {
    hide Holds, Apart, Once, Safe;
  }

  lemma ArrivalKeepsWorld(w: World, c: Call)
    requires WorldHolds(w)
    ensures WorldHolds(w.(transactions := w.transactions + [Begun(c)]))
  {
    hide Once, Safe;
    BeginningHolds(w.books, c);
    hide Holds;
    assert Begun(c).claims == UNCLAIMED;
  }

  lemma BeginningHolds(b: Books, c: Call)
    ensures Holds(b, Begun(c))
  {
    hide Total;
  }

  /** Whatever happens next. */
  lemma NextKeepsWorld(w: World, e: Event)
    requires WorldHolds(w)
    ensures WorldHolds(Next(w, e))
  {
    hide WorldHolds, Step, LockedByOthers;
    match e
    case Arrive(c) => ArrivalKeepsWorld(w, c);
    case GiveUp(n) =>
      if n < |w.transactions| {
        EndKeepsWorld(w, n);
      }
    case Proceed(n) =>
      if n < |w.transactions| && w.transactions[n].Running? {
        match Step(w.books, LockedByOthers(w.transactions, n), w.transactions[n])
        case Commit(b') => CommitKeepsWorld(w, n, b');
        case Go(t') => GoKeepsWorld(w, n, t');
        case Wait =>
        case _ => EndKeepsWorld(w, n);
      }
  }

  function Quiet(b: Books): World {
    World(b, [], [])
  }

  lemma {:induction false} EveryWorldHolds(start: Books, events: seq<Event>)
    requires Safe(start)
    ensures WorldHolds(Interleaved(Quiet(start), events))
  {
    hide Safe, Next;
    if events != [] {
      EveryWorldHolds(start, events[..|events| - 1]);
      hide WorldHolds;
      NextKeepsWorld(Interleaved(Quiet(start), events[..|events| - 1]), events[|events| - 1]);
    }
  }

  /** No two entries were posted for one record or reverse one entry. */
  ghost predicate EntriesSingle(journal: seq<Entry>) {
    forall e, f :: 0 <= e < |journal| && 0 <= f < |journal| && journal[e].origin == journal[f].origin ==> e == f
  }

  ghost predicate AmountsWithin(b: Books) {
    && (forall i :: 0 <= i < |b.documents| && b.documents[i].status == Finalized ==>
          0 <= b.documents[i].balance <= Total(b.documents[i].lines) && 0 <= b.documents[i].txBalance <= Total(b.documents[i].lines))
    && (forall p :: 0 <= p < |b.payments| && b.payments[p].posted ==>
          0 <= b.payments[p].unapplied <= b.payments[p].received && 0 <= b.payments[p].txUnapplied <= b.payments[p].received)
    && (forall n :: 0 <= n < |b.notes| && b.notes[n].status == Finalized ==> 0 <= b.notes[n].unapplied <= Total(b.notes[n].lines))
  }

  /**
   * Under every interleaving of any calls, from any safe tables, as all reachable ones are: every
   * record is posted and reversed at most once, every account is what the records in force posted,
   * every open balance is what its history leaves of it and within its range in both currencies, and
   * no finalization, void or reversal takes effect twice.
   */
  lemma InterleavingsAreSafe(start: Books, events: seq<Event>)
    requires Safe(start)
    ensures var w := Interleaved(Quiet(start), events);
            && EntriesSingle(w.books.journal) && Journals(w.books) && AccountsReconcile(w.books)
            && AmountsWithin(w.books) && Balances(w.books, false)
            && forall j, k :: 0 <= j < k < |w.committed| && w.committed[j] == w.committed[k] ==> !OnceOnly(w.committed[j])
  {
    EveryWorldHolds(start, events);
    var w := Interleaved(Quiet(start), events);
    hide Links, Balances, Journals, AccountsReconcile, Interleaved, OnceOnly, Total;
    BalancesStayWithin(w.books);
    forall e: nat, f: nat | e < |w.books.journal| && f < |w.books.journal| && w.books.journal[e].origin == w.books.journal[f].origin
      ensures e == f
    {
      OneEntryPerOrigin(w.books, e, f);
    }
  }

  // ---- when a commit is the call itself

  /** What the call looked at without a lock is still so when it commits. */
  predicate Fresh(b: Books, c: Call, plan: Settlement) {
    match c
    case DoCreateNote(contact, lines, original) => OriginalAccepts(b, contact, original, Total(lines))
    case DoFinalizeNote(n) => n < |b.notes| && OriginalAccepts(b, b.notes[n].contact, b.notes[n].original, 0)
    case DoCreatePayment(contact, account, received, direct) =>
      (forall k :: 0 <= k < |direct| ==> direct[k].document < |b.documents|) && AllEven(b.documents, direct)
    case DoApplyUnapplied(p, i, amount) => plan == PlanFor(b, c)
    case _ => Unused(b, c)
  }

  lemma SettledDiffers(b: Books, p: nat, i: nat, amount: Money, s: Settlement, s': Settlement, b': Books)
    requires s.Settled? && s'.Settled? && ApplySettled(b, p, i, amount, s.onDocument, s.onPayment) == Done(b')
    ensures ApplySettled(b, p, i, amount, s'.onDocument, s'.onPayment) == Done(b') <==> s == s'
  {
    hide Total, AdjustmentConfigured, AdjustmentEntry, Post;
    if ApplySettled(b, p, i, amount, s'.onDocument, s'.onPayment) == Done(b') {
      assert b'.applications[|b.applications|].onDocument == s.onDocument && b'.applications[|b.applications|].onDocument == s'.onDocument;
      assert b'.applications[|b.applications|].onPayment == s.onPayment && b'.applications[|b.applications|].onPayment == s'.onPayment;
    }
  }

  lemma ApplyIsSerialExactlyWhen(b: Books, p: nat, i: nat, amount: Money, plan: Settlement, b': Books)
    requires plan.Settled? && ApplySettled(b, p, i, amount, plan.onDocument, plan.onPayment) == Done(b')
    ensures ApplyUnapplied(b, p, i, amount) == Done(b') <==> plan == PlanFor(b, DoApplyUnapplied(p, i, amount))
  {
    var now := PlanFor(b, DoApplyUnapplied(p, i, amount));
    if now.Settled? {
      SettledDiffers(b, p, i, amount, plan, now, b');
    }
    ClaimedInRange(b, p, i, amount, plan);
    hide ApplySettled, Allocate;
  }

  lemma ClaimedInRange(b: Books, p: nat, i: nat, amount: Money, plan: Settlement)
    requires plan.Settled? && ApplySettled(b, p, i, amount, plan.onDocument, plan.onPayment).Done?
    ensures p < |b.payments| && i < |b.documents|
  {
  }

  lemma PaymentIsSerialExactlyWhen(b: Books, contact: nat, account: Account, received: Money, direct: seq<Direct>, b': Books)
    requires DocumentsBalance(b, false) && CreatePaymentClaimed(b, contact, account, received, direct) == Done(b')
    ensures forall k :: 0 <= k < |direct| ==> direct[k].document < |b.documents|
    ensures CreatePayment(b, contact, account, received, direct) == Done(b') <==> AllEven(b.documents, direct)
  {
    hide Total, DocumentsBalance, PlanPostable, AllEven, Allocated, PaymentEntry, MayHoldCash, DistinctDocuments;
    forall k | 0 <= k < |direct|
      ensures b.documents[direct[k].document].balance >= 0 && b.documents[direct[k].document].txBalance >= 0
    {
      FinalizedIsNonNegative(b, direct[k].document);
    }
    PlanExactly(b.documents, direct, received);
  }

  lemma FinalizedIsNonNegative(b: Books, i: nat)
    requires DocumentsBalance(b, false) && i < |b.documents| && b.documents[i].status == Finalized
    ensures b.documents[i].balance >= 0 && b.documents[i].txBalance >= 0
  {
    assert DocumentBalances(b.documents[i], i, b.payments, b.applications, b.uses, false);
  }

  /** A claimed call is the call itself exactly when it is fresh. */
  lemma ClaimedIsSerialExactlyWhen(b: Books, c: Call, plan: Settlement, b': Books)
    requires Balances(b, false) && Claimed(b, c, plan) == Done(b')
    ensures Try(b, c) == Done(b') <==> Fresh(b, c, plan)
  {
    hide Total, OriginalAccepts, PaymentInUse, NoteInUse, AllEven, PlanFor, DocumentsBalance, PaymentsBalance, NotesBalance, CreateDocument, FinalizeDocument,
      VoidDocument, CreateNoteClaimed, ApplyNote, ReverseUse, CreatePaymentClaimed, CreatePayment, ApplyUnapplied, ApplySettled, ReverseApplication, CreateRefund,
      VoidRefund, Restorable, Allocated, Reverse, ReversalId, NoteEntry;
    match c
    case DoCreatePayment(contact, account, received, direct) => PaymentIsSerialExactlyWhen(b, contact, account, received, direct, b');
    case DoApplyUnapplied(p, i, amount) => ApplyIsSerialExactlyWhen(b, p, i, amount, plan, b');
    case _ =>
  }

  /** In every world that any interleaving leads to, so is a commit. */
  lemma CommitIsSerialExactlyWhenFresh(start: Books, events: seq<Event>, n: nat, b': Books)
    requires Safe(start)
    requires var w := Interleaved(Quiet(start), events);
             && n < |w.transactions| && w.transactions[n].Running?
             && Step(w.books, LockedByOthers(w.transactions, n), w.transactions[n]) == Commit(b')
    ensures var w := Interleaved(Quiet(start), events);
            var t := w.transactions[n];
            && (Try(w.books, t.call) == Done(b') <==> Fresh(w.books, t.call, t.plan))
            && (t.call.DoVoidNote? && w.books.side == Receivable ==> Fresh(w.books, t.call, t.plan))
  {
    EveryWorldHolds(start, events);
    var w := Interleaved(Quiet(start), events);
    var t := w.transactions[n];
    assert Holds(w.books, t);
    hide Interleaved, LockedByOthers, Once, AllApart, AllHold, Links, Balances, Journals, AccountsReconcile, Try, Claimed, Anchored, Tame;
    CommitIsClaimed(w.books, LockedByOthers(w.transactions, n), t, b');
    ClaimedIsSerialExactlyWhen(w.books, t.call, t.plan, b');
    if t.call.DoVoidNote? && w.books.side == Receivable {
      CreditNoteIsCounted(w.books, LockedByOthers(w.transactions, n), t, t.call.note, b');
    }
    hide Step, Holds, Fresh;
  }

  /** A credit note's uses are counted under its lock, so they are still none. */
  lemma CreditNoteIsCounted(b: Books, locks: Locks, t: Transaction, n: nat, b': Books)
    requires b.side == Receivable && t.Running? && t.call == DoVoidNote(n) && Holds(b, t) && VoidNoteStep(b, locks, t, n) == Commit(b')
    ensures Fresh(b, t.call, t.plan)
  {
    hide Total, NoteInUse, Publish, Reverse, ReversalId, Tame;
  }

  /**
   * Whatever else was stale, a commit breaks the invariant exactly when it voids a row in use or
   * creates a note beyond its original document's total: a stale plan never does.
   */
  lemma InvariantKeptExactlyWhen(b: Books, c: Call, plan: Settlement, b': Books)
    requires Inv(b) && Claimed(b, c, plan) == Done(b')
    ensures Inv(b') <==> Unused(b, c) && ReferenceFits(b, c)
  {
    hide Links, NotesWithin, Balances, Journals, AccountsReconcile, ContactsReconcile, Claimed, PaymentInUse, NoteInUse, LinkedTotalFits, Total;
    ClaimedKeepsNotes(b, c, plan, b');
    if Unused(b, c) {
      ClaimedKeeps(b, c, plan, b', true);
    } else {
      VoidLeavesUse(b, c, plan, b');
      hide Inv;
      if c.DoVoidPayment? && Inv(b') {
        VoidedPaymentIsUnused(b', c.payment);
      } else if c.DoVoidNote? && Inv(b') {
        VoidedNoteIsUnused(b', c.note);
      }
    }
  }

  lemma ClaimedKeepsNotes(b: Books, c: Call, plan: Settlement, b': Books)
    requires Inv(b) && Claimed(b, c, plan) == Done(b')
    ensures NotesWithin(b') <==> ReferenceFits(b, c)
  {
    InvIsSafe(b);
    hide Links, NotesWithin, Balances, Journals, AccountsReconcile, ContactsReconcile, Claimed, ReferenceFits;
    ClaimedKeeps(b, c, plan, b', false);
  }

  lemma VoidLeavesUse(b: Books, c: Call, plan: Settlement, b': Books)
    requires Claimed(b, c, plan) == Done(b') && !Unused(b, c)
    ensures c.DoVoidPayment? ==> HasHappened(b', c) && PaymentInUse(b', c.payment)
    ensures c.DoVoidNote? ==> HasHappened(b', c) && NoteInUse(b', c.note)
  {
    hide Total, Restorable, Reverse, ReversalId, Allocated;
  }

  lemma VoidedPaymentIsUnused(b: Books, p: nat)
    requires Inv(b) && p < |b.payments| && !b.payments[p].posted
    ensures !PaymentInUse(b, p)
  {
    hide Total, NotesWithin, Journals, AccountsReconcile, ContactsReconcile, DocumentsBalance, NotesBalance;
    assert PaymentBalances(b.payments[p], p, b.applications, b.refunds, true);
    SumAtLeast(b.applications, TxFrom(p));
    SumAtLeast(b.refunds, RefundedFrom(FromPayment(p)));
    forall k | 0 <= k < |b.applications|
      ensures !(b.applications[k].active && b.applications[k].payment == p)
    {
      assert ApplicationLinked(b.applications[k], b.payments, b.documents);
      assert TxFrom(p)(b.applications[k]) <= 0;
    }
    forall r | 0 <= r < |b.refunds|
      ensures !(b.refunds[r].posted && b.refunds[r].source == FromPayment(p))
    {
      assert RefundLinked(b.refunds[r], b.side, b.payments, b.notes);
      assert RefundedFrom(FromPayment(p))(b.refunds[r]) <= 0;
    }
  }

  lemma VoidedNoteIsUnused(b: Books, n: nat)
    requires Inv(b) && n < |b.notes| && b.notes[n].status == Voided
    ensures !NoteInUse(b, n)
  {
    hide Total, NotesWithin, Journals, AccountsReconcile, ContactsReconcile, DocumentsBalance, PaymentsBalance;
    assert NoteBalances(b.notes[n], n, b.uses, b.refunds, true);
    SumAtLeast(b.uses, UsedOf(n));
    SumAtLeast(b.refunds, RefundedFrom(FromNote(n)));
    forall k | 0 <= k < |b.uses|
      ensures !(b.uses[k].active && b.uses[k].note == n)
    {
      assert UseLinked(b.uses[k], b.notes, b.documents);
      assert UsedOf(n)(b.uses[k]) <= 0;
    }
    forall r | 0 <= r < |b.refunds|
      ensures !(b.refunds[r].posted && b.refunds[r].source == FromNote(n))
    {
      assert RefundLinked(b.refunds[r], b.side, b.payments, b.notes);
      assert RefundedFrom(FromNote(n))(b.refunds[r]) <= 0;
    }
  }

  // ---- interleavings whose commits are all fresh are serial

  /** The calls were accepted one after another. */
  ghost predicate Serial(b: Books, calls: seq<Call>) {
    calls == []
    || (Serial(b, calls[..|calls| - 1]) && Try(Run(b, calls[..|calls| - 1]), calls[|calls| - 1]).Done?)
  }

  /** The step commits a call that is not fresh. */
  predicate Stale(w: World, e: Event) {
    && e.Proceed? && e.n < |w.transactions| && w.transactions[e.n].Running?
    && Step(w.books, LockedByOthers(w.transactions, e.n), w.transactions[e.n]).Commit?
    && !Fresh(w.books, w.transactions[e.n].call, w.transactions[e.n].plan)
  }

  ghost predicate NeverStale(w: World, events: seq<Event>) {
    forall k :: 0 <= k < |events| ==> !Stale(Interleaved(w, events[..k]), events[k])
  }

  /** Then the tables are those that the committed calls make one after another. */
  lemma {:induction false} FreshInterleavingIsSerial(start: Books, events: seq<Event>)
    requires Inv(start) && NeverStale(Quiet(start), events)
    ensures var w := Interleaved(Quiet(start), events);
            w.books == Run(start, w.committed) && Serial(start, w.committed) && Inv(w.books)
  {
    hide Inv, Stale, Next;
    if events == [] {
      assert Run(start, []) == start;
    } else {
      var before := events[..|events| - 1];
      forall k | 0 <= k < |before|
        ensures !Stale(Interleaved(Quiet(start), before[..k]), before[k])
      {
        assert before[..k] == events[..k] && before[k] == events[k];
      }
      FreshInterleavingIsSerial(start, before);
      assert events[..|events| - 1] == before;
      NextIsSerial(start, before, events[|events| - 1]);
    }
  }

  lemma NextIsSerial(start: Books, events: seq<Event>, e: Event)
    requires Inv(start) && !Stale(Interleaved(Quiet(start), events), e)
    requires var w := Interleaved(Quiet(start), events);
             w.books == Run(start, w.committed) && Serial(start, w.committed) && Inv(w.books)
    ensures var w := Next(Interleaved(Quiet(start), events), e);
            w.books == Run(start, w.committed) && Serial(start, w.committed) && Inv(w.books)
  {
    hide Inv, Step, LockedByOthers, Interleaved, Fresh, Try;
    var w := Interleaved(Quiet(start), events);
    if e.Proceed? && e.n < |w.transactions| && w.transactions[e.n].Running? {
      var t := w.transactions[e.n];
      var step := Step(w.books, LockedByOthers(w.transactions, e.n), t);
      if step.Commit? {
        InvIsSafe(start);
        CommitIsSerialExactlyWhenFresh(start, events, e.n, step.books);
        CallKeepsInvariant(w.books, t.call);
        var calls := w.committed + [t.call];
        assert calls[..|calls| - 1] == w.committed;
      }
    }
  }
}
