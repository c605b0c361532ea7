/**
 * A transaction whose rows nobody else holds is served, whatever else is going on: it takes its steps
 * to the end and leaves the tables that its call makes of the committed ones.
 */
module Serving {
  import opened Wrappers
  import opened Sums
  import opened Posting
  import opened Books
  import opened BooksInvariant
  import opened BooksTheorems
  import opened Transactions
  import opened Isolation
  import opened IsolationSteps
  import opened Serializability

  // ---- the rows a call locks

  function OfSource(source: RefundSource): Locks {
    match source
    case FromPayment(p) => FREE.(payments := {p})
    case FromNote(n) => FREE.(notes := {n})
  }

  /** The rows of a call, as the tables are when it is made. */
  function RowsOf(b: Books, c: Call): Locks {
    match c
    case DoCreateDocument(_, _) => FREE
    case DoFinalizeDocument(i) => FREE.(documents := {i})
    case DoVoidDocument(i) => FREE.(documents := {i})
    case DoCreateNote(_, _, _) => FREE
    case DoFinalizeNote(n) => FREE.(notes := {n})
    case DoVoidNote(n) => FREE.(notes := {n})
    case DoApplyNote(n, i, _) => FREE.(notes := {n}, documents := {i})
    case DoReverseUse(k) =>
      if k >= |b.uses| then FREE else FREE.(uses := {k}, notes := {b.uses[k].note}, documents := {b.uses[k].document})
    case DoCreatePayment(_, _, _, direct) => FREE.(documents := Named(direct))
    case DoVoidPayment(p) =>
      if p >= |b.payments| then FREE else FREE.(payments := {p}, documents := Named(b.payments[p].direct))
    case DoApplyUnapplied(p, i, _) => FREE.(payments := {p}, documents := {i})
    case DoReverseApplication(k) =>
      if k >= |b.applications| then FREE
      else FREE.(applications := {k}, payments := {b.applications[k].payment}, documents := {b.applications[k].document})
    case DoCreateRefund(_, source, _, _) => OfSource(source)
    case DoVoidRefund(r) => if r >= |b.refunds| then FREE else OfSource(b.refunds[r].source).(refunds := {r})
  }

  predicate Clear(rows: Locks, locks: Locks) {
    && rows.documents !! locks.documents && rows.notes !! locks.notes && rows.payments !! locks.payments
    && rows.applications !! locks.applications && rows.uses !! locks.uses && rows.refunds !! locks.refunds
  }

  // ---- what it has read so far is how the tables are

  /** What was looked at without a lock, on tables that have not changed since. */
  predicate Seen(b: Books, t: Transaction)
    requires t.Running?
  {
    match t.call
    case DoVoidDocument(i) => t.at >= 1 ==> i < |b.documents| && (t.at >= 5 <==> b.documents[i].status == Draft)
    case DoCreateNote(contact, lines, original) => t.at >= 1 ==> OriginalAccepts(b, contact, original, Total(lines))
    case DoFinalizeNote(n) => t.at >= 1 ==> n < |b.notes| && OriginalAccepts(b, b.notes[n].contact, b.notes[n].original, 0)
    case DoVoidNote(n) =>
      && (t.at >= 1 ==> n < |b.notes| && (t.at >= 4 <==> b.notes[n].status == Draft))
      && (t.at == 3 || (t.at == 2 && b.side == Payable) ==> !NoteInUse(b, n))
    case DoCreatePayment(contact, account, received, direct) =>
      t.at >= 1 ==> ValidDirect(b, contact, direct) && PlanPostable(b.documents, direct, received, received)
    case DoVoidPayment(p) => t.at >= 2 ==> !PaymentInUse(b, p)
    case DoApplyUnapplied(p, i, amount) => t.at >= 1 ==> t.plan == PlanFor(b, t.call)
    case _ => true
  }

  /** No step is further than this. */
  function Last(b: Books, c: Call): nat {
    match c
    case DoCreatePayment(_, _, _, direct) => |direct| + 1
    case DoVoidPayment(p) => if p < |b.payments| then |b.payments[p].direct| + 3 else 3
    case _ => 6
  }

  /** A step that goes on is one step further, and has looked at the tables as they are. */
  ghost predicate Further(b: Books, t: Transaction, t': Transaction)
    requires t.Running?
  {
    t'.Running? && t'.call == t.call && Seen(b, t') && t.at < t'.at <= Last(b, t.call)
  }

  lemma GoesFurther(b: Books, locks: Locks, t: Transaction, t': Transaction)
    requires t.Running? && Anchored(b, t.claims) && Shaped(b.side, t) && Seen(b, t) && Step(b, locks, t) == Go(t')
    ensures Further(b, t, t')
  {
    if t.call.DoCreatePayment? || t.call.DoVoidPayment? || t.call.DoApplyUnapplied? || t.call.DoReverseApplication? {
      PaymentGoesFurther(b, locks, t, t');
    } else if t.call.DoApplyNote? || t.call.DoReverseUse? || t.call.DoCreateRefund? || t.call.DoVoidRefund? {
      CreditGoesFurther(b, locks, t, t');
    } else {
      RecordGoesFurther(b, locks, t, t');
    }
  }

  lemma PaymentGoesFurther(b: Books, locks: Locks, t: Transaction, t': Transaction)
    requires t.Running? && Anchored(b, t.claims) && Shaped(b.side, t) && Seen(b, t) && Step(b, locks, t) == Go(t')
    requires t.call.DoCreatePayment? || t.call.DoVoidPayment? || t.call.DoApplyUnapplied? || t.call.DoReverseApplication?
    ensures Further(b, t, t')
  {
    hide Total, PaymentInUse, PlanPostable, Allocate, AdjustmentConfigured, AdjustmentEntry, Publish, Reverse, ReversalId, Moving,
      PaymentAcceptable, MayRestore, DocumentSettles, PaymentEntry, ValidDirect;
  }

  lemma CreditGoesFurther(b: Books, locks: Locks, t: Transaction, t': Transaction)
    requires t.Running? && Shaped(b.side, t) && Seen(b, t) && Step(b, locks, t) == Go(t')
    requires t.call.DoApplyNote? || t.call.DoReverseUse? || t.call.DoCreateRefund? || t.call.DoVoidRefund?
    ensures Further(b, t, t')
  {
    hide Total, Publish, Reverse, ReversalId, RefundEntry, SourceClaimed;
  }

  lemma RecordGoesFurther(b: Books, locks: Locks, t: Transaction, t': Transaction)
    requires t.Running? && Shaped(b.side, t) && Seen(b, t) && Step(b, locks, t) == Go(t')
    requires t.call.DoCreateDocument? || t.call.DoFinalizeDocument? || t.call.DoVoidDocument? || t.call.DoCreateNote? || t.call.DoFinalizeNote? || t.call.DoVoidNote?
    ensures Further(b, t, t')
  {
    hide Total, OriginalAccepts, NoteInUse, Publish, Reverse, ReversalId, DocumentEntry, NoteEntry, PaidDirectly, PaidLater, Credited;
  }

  /** What it commits is the call itself. */
  lemma SeenIsSerial(b: Books, t: Transaction, b': Books)
    requires t.Running? && Anchored(b, t.claims) && Shaped(b.side, t) && Seen(b, t) && Claimed(b, t.call, t.plan) == Done(b')
    requires t.call.DoCreateNote? || t.call.DoFinalizeNote? || t.call.DoCreatePayment? || t.call.DoApplyUnapplied? ==> t.at >= 1
    requires t.call.DoVoidPayment? ==> t.at >= 2
    requires t.call.DoVoidNote? ==> t.at == 3 || t.at == 5
    ensures Try(b, t.call) == Done(b')
  {
    hide Total, OriginalAccepts, NoteInUse, PaymentInUse, PlanPostable, ValidDirect, Allocate, ApplySettled, CreatePaymentClaimed, Publish, Reverse, ReversalId;
  }

  lemma CommitsLate(b: Books, locks: Locks, t: Transaction, b': Books)
    requires t.Running? && Anchored(b, t.claims) && Shaped(b.side, t) && Step(b, locks, t) == Commit(b')
    ensures t.call.DoCreateNote? || t.call.DoFinalizeNote? || t.call.DoCreatePayment? || t.call.DoApplyUnapplied? ==> t.at >= 1
    ensures t.call.DoVoidPayment? ==> t.at >= 2
    ensures t.call.DoVoidNote? ==> t.at == 3 || t.at == 5
  {
    hide Total, OriginalAccepts, NoteInUse, PaymentInUse, PlanPostable, Allocate, AdjustmentConfigured, AdjustmentEntry, Publish, Reverse, ReversalId, Moving,
      PaymentAcceptable, MayRestore, DocumentSettles, PaymentEntry, DocumentEntry, NoteEntry, RefundEntry;
  }

  /** A call that has its effect changes the tables. */
  lemma EffectShows(b: Books, c: Call, plan: Settlement, b': Books)
    requires Claimed(b, c, plan) == Done(b') && !HasHappened(b, c)
    ensures b' != b
  {
    hide Claimed, HasHappened;
    if OnceOnly(c) {
      Happens(b, c, plan, b');
    } else {
      RowAdded(b, c, plan, b');
    }
  }

  lemma RowAdded(b: Books, c: Call, plan: Settlement, b': Books)
    requires Claimed(b, c, plan) == Done(b') && !OnceOnly(c)
    ensures |b'.documents| + |b'.notes| + |b'.payments| + |b'.applications| + |b'.uses| + |b'.refunds|
         == |b.documents| + |b.notes| + |b.payments| + |b.applications| + |b.uses| + |b.refunds| + 1
  {
    hide Total, AdjustmentEntry, PaymentEntry, RefundEntry, DistinctDocuments, AllSpendable;
  }

  lemma CommitIsEffect(b: Books, locks: Locks, t: Transaction, b': Books)
    requires t.Running? && Holds(b, t) && Seen(b, t) && Links(b) && Step(b, locks, t) == Commit(b')
    ensures After(b, t.call) == b' && b' != b
  {
    hide Links, Anchored, Tame, Framed, Shaped, Known, Step, Claimed, HasHappened, Seen, Try;
    CommitIsClaimed(b, locks, t, b');
    CommitsLate(b, locks, t, b');
    SeenIsSerial(b, t, b');
    EffectShows(b, t.call, t.plan, b');
  }

  // ---- no step waits or fails on the way

  lemma NeverWaits(b: Books, locks: Locks, t: Transaction)
    requires t.Running? && Clear(RowsOf(b, t.call), locks)
    ensures Step(b, locks, t) != Wait
  {
    hide Total, OriginalAccepts, NoteInUse, PaymentInUse, PlanPostable, Allocate, AdjustmentConfigured, AdjustmentEntry, Publish, Reverse, ReversalId,
      PaymentAcceptable, MayRestore, DocumentSettles, PaymentEntry, DocumentEntry, NoteEntry, RefundEntry, ValidDirect, CreateDocument;
  }

  /** The call is accepted and has an effect. */
  predicate Effective(b: Books, c: Call) {
    Try(b, c).Done? && Try(b, c).books != b
  }

  lemma NeverFails(b: Books, locks: Locks, t: Transaction)
    requires t.Running? && Anchored(b, t.claims) && Shaped(b.side, t) && Seen(b, t)
    requires Effective(b, t.call) && Clear(RowsOf(b, t.call), locks)
    ensures Step(b, locks, t).Go? || Step(b, locks, t).Commit?
  {
    if t.call.DoCreatePayment? || t.call.DoVoidPayment? {
      PaymentNeverFails(b, locks, t);
    } else if t.call.DoApplyUnapplied? || t.call.DoReverseApplication? {
      ApplicationNeverFails(b, locks, t);
    } else if t.call.DoApplyNote? || t.call.DoReverseUse? || t.call.DoCreateRefund? || t.call.DoVoidRefund? {
      CreditNeverFails(b, locks, t);
    } else {
      RecordNeverFails(b, locks, t);
    }
  }

  lemma PaymentNeverFails(b: Books, locks: Locks, t: Transaction)
    requires t.Running? && Anchored(b, t.claims) && Shaped(b.side, t) && Seen(b, t)
    requires Effective(b, t.call) && Clear(RowsOf(b, t.call), locks)
    requires t.call.DoCreatePayment? || t.call.DoVoidPayment?
    ensures Step(b, locks, t).Go? || Step(b, locks, t).Commit?
  {
    hide Total, PaymentInUse, PlanPostable, Publish, Reverse, ReversalId, Moving, MayRestore, DocumentSettles, PaymentEntry, DistinctDocuments, Allocated, Moved;
  }

  lemma ApplicationNeverFails(b: Books, locks: Locks, t: Transaction)
    requires t.Running? && Anchored(b, t.claims) && Shaped(b.side, t) && Seen(b, t)
    requires Effective(b, t.call) && Clear(RowsOf(b, t.call), locks)
    requires t.call.DoApplyUnapplied? || t.call.DoReverseApplication?
    ensures Step(b, locks, t).Go? || Step(b, locks, t).Commit?
  {
    hide Total, Publish, Reverse, ReversalId, AdjustmentEntry, AdjustmentConfigured, PaymentTakesBack, DocumentTakesBack;
  }

  lemma CreditNeverFails(b: Books, locks: Locks, t: Transaction)
    requires t.Running? && Anchored(b, t.claims) && Shaped(b.side, t) && Seen(b, t)
    requires Effective(b, t.call) && Clear(RowsOf(b, t.call), locks)
    requires t.call.DoApplyNote? || t.call.DoReverseUse? || t.call.DoCreateRefund? || t.call.DoVoidRefund?
    ensures Step(b, locks, t).Go? || Step(b, locks, t).Commit?
  {
    hide Total, Publish, Reverse, ReversalId, RefundEntry, NoteCovers, DocumentCovers, NoteTakesBack, DocumentTakesCredit, SourceClaimed, MayHoldCash;
  }

  lemma RecordNeverFails(b: Books, locks: Locks, t: Transaction)
    requires t.Running? && Anchored(b, t.claims) && Shaped(b.side, t) && Seen(b, t)
    requires Effective(b, t.call) && Clear(RowsOf(b, t.call), locks)
    requires t.call.DoCreateDocument? || t.call.DoFinalizeDocument? || t.call.DoVoidDocument? || t.call.DoCreateNote? || t.call.DoFinalizeNote? || t.call.DoVoidNote?
    ensures Step(b, locks, t).Go? || Step(b, locks, t).Commit?
  {
    hide Total, OriginalAccepts, NoteInUse, Publish, Reverse, ReversalId, DocumentEntry, NoteEntry, PaidDirectly, PaidLater, Credited, ValidLines;
  }

  // ---- to the end

  /** The world once transaction `n` has been served. */
  function Served(w: World, n: nat, c: Call): World
    requires n < |w.transactions|
  {
    World(After(w.books, c), w.transactions[n := Ended], w.committed + if Effective(w.books, c) then [c] else [])
  }

  /** Nobody else holds a row of it. */
  ghost predicate Unhindered(w: World, n: nat) {
    && n < |w.transactions| && w.transactions[n].Running?
    && Clear(RowsOf(w.books, w.transactions[n].call), LockedByOthers(w.transactions, n))
  }

  function Steps(n: nat, times: nat): seq<Event> {
    seq(times, _ => Proceed(n))
  }

  lemma {:induction false} FirstThenRest(w: World, e: Event, events: seq<Event>)
    ensures Interleaved(w, [e] + events) == Interleaved(Next(w, e), events)
  {
    hide Next;
    if events == [] {
      assert ([e] + [])[..0] == [];
      assert Interleaved(w, []) == w;
    } else {
      FirstThenRest(w, e, events[..|events| - 1]);
      assert ([e] + events)[..|events|] == [e] + events[..|events| - 1];
    }
  }

  lemma LocksStay(transactions: seq<Transaction>, n: nat, t: Transaction)
    requires n < |transactions|
    ensures LockedByOthers(transactions[n := t], n) == LockedByOthers(transactions, n)
  {
    var after := transactions[n := t];
    assert |after| == |transactions| && forall m :: 0 <= m < |after| && m != n ==> after[m] == transactions[m];
  }

  /** What a transaction that nothing stands in the way of has done so far. */
  ghost predicate UnderWay(w: World, n: nat) {
    && Links(w.books) && Unhindered(w, n) && Holds(w.books, w.transactions[n]) && Seen(w.books, w.transactions[n])
    && Unlocked(w.transactions[n].claims, LockedByOthers(w.transactions, n))
  }

  lemma StaysUnderWay(w: World, n: nat, t': Transaction)
    requires UnderWay(w, n) && Step(w.books, LockedByOthers(w.transactions, n), w.transactions[n]) == Go(t')
    ensures t'.Running? && w.transactions[n].at < t'.at <= Last(w.books, t'.call) && t'.call == w.transactions[n].call
    ensures var next := w.(transactions := w.transactions[n := t']);
            Next(w, Proceed(n)) == next && UnderWay(next, n) && Served(next, n, t'.call) == Served(w, n, t'.call)
  {
    hide Links, Anchored, Tame, Shaped, Known, Seen, Clear, RowsOf, Unlocked, LockedByOthers, Step, Try;
    GoesFurther(w.books, LockedByOthers(w.transactions, n), w.transactions[n], t');
    StepKeepsHolding(w.books, LockedByOthers(w.transactions, n), w.transactions[n], t');
    LocksStay(w.transactions, n, t');
    assert w.transactions[n := t'][n := Ended] == w.transactions[n := Ended];
    hide Holds;
  }

  lemma Ends(w: World, n: nat)
    requires UnderWay(w, n) && !Step(w.books, LockedByOthers(w.transactions, n), w.transactions[n]).Go?
    ensures Next(w, Proceed(n)) == Served(w, n, w.transactions[n].call)
  {
    var b, t, locks := w.books, w.transactions[n], LockedByOthers(w.transactions, n);
    hide Links, Holds, Seen, Clear, RowsOf, Unlocked, LockedByOthers, Step, Try;
    NeverWaits(b, locks, t);
    if Effective(b, t.call) {
      ServesEffect(w, n);
    }
    if Step(b, locks, t).Commit? {
      CommitIsEffect(b, locks, t, Step(b, locks, t).books);
    }
  }

  lemma ServesEffect(w: World, n: nat)
    requires UnderWay(w, n) && Effective(w.books, w.transactions[n].call)
    ensures var step := Step(w.books, LockedByOthers(w.transactions, n), w.transactions[n]); step.Go? || step.Commit?
  {
    hide Links, Anchored, Tame, Shaped, Known, Seen, Clear, RowsOf, Unlocked, LockedByOthers, Step, Try, Effective;
    NeverFails(w.books, LockedByOthers(w.transactions, n), w.transactions[n]);
  }

  lemma {:induction false} IsServed(w: World, n: nat) returns (times: nat)
    requires UnderWay(w, n)
    ensures Interleaved(w, Steps(n, times)) == Served(w, n, w.transactions[n].call)
    decreases Last(w.books, w.transactions[n].call) - w.transactions[n].at
  {
    hide Links, Holds, Seen, Clear, RowsOf, Unlocked, LockedByOthers, Step, Served, Next;
    var step := Step(w.books, LockedByOthers(w.transactions, n), w.transactions[n]);
    var next := Next(w, Proceed(n));
    var more := 0;
    assert Steps(n, 0) == [];
    if step.Go? {
      StaysUnderWay(w, n, step.t);
      more := IsServed(next, n);
    } else {
      Ends(w, n);
    }
    times := more + 1;
    assert Steps(n, times) == [Proceed(n)] + Steps(n, more);
    FirstThenRest(w, Proceed(n), Steps(n, more));
  }

  /**
   * A call that arrives while nobody holds a row of it is served by its own steps alone, whoever else
   * is under way: its effect, if it is to have one, is that of the call on the tables as they are.
   */
  lemma ArrivalIsServed(w: World, c: Call) returns (times: nat)
    requires Links(w.books) && Clear(RowsOf(w.books, c), LockedByOthers(w.transactions + [Begun(c)], |w.transactions|))
    ensures Interleaved(w, [Arrive(c)] + Steps(|w.transactions|, times))
         == World(After(w.books, c), w.transactions + [Ended], w.committed + if Effective(w.books, c) then [c] else [])
  {
    var n, next := |w.transactions|, w.(transactions := w.transactions + [Begun(c)]);
    BeginningHolds(w.books, c);
    assert UnderWay(next, n);
    times := IsServed(next, n);
    hide Links, UnderWay, LockedByOthers, Interleaved, Try;
    FirstThenRest(w, Arrive(c), Steps(n, times));
    assert next.transactions[n := Ended] == w.transactions + [Ended];
  }

  /** Alone on any reachable tables, every call comes to its end and to its outcome. */
  lemma AloneIsServed(b: Books, c: Call) returns (times: nat)
    requires Inv(b)
    ensures Interleaved(Quiet(b), [Arrive(c)] + Steps(0, times)) == World(After(b, c), [Ended], if Effective(b, c) then [c] else [])
  {
    hide NotesWithin, Balances, Journals, AccountsReconcile, ContactsReconcile, Try, Interleaved;
    assert [] + [Begun(c)] == [Begun(c)];
    NobodyHolds([], c);
    times := ArrivalIsServed(Quiet(b), c);
    assert [] + [Ended] == [Ended] && [] + (if Effective(b, c) then [c] else []) == if Effective(b, c) then [c] else [];
  }

  predicate AllEnded(transactions: seq<Transaction>) {
    forall n :: 0 <= n < |transactions| ==> transactions[n].Ended?
  }

  /** The calls of a run that have an effect. */
  function EffectiveCalls(b: Books, calls: seq<Call>): seq<Call> {
    if calls == [] then [] else
    var before := calls[..|calls| - 1];
    EffectiveCalls(b, before) + if Effective(Run(b, before), calls[|calls| - 1]) then [calls[|calls| - 1]] else []
  }

  /** So every run of the services is one of their interleavings: what a sequence of calls can do, the transactions can. */
  lemma {:induction false} EveryRunIsAnInterleaving(b: Books, calls: seq<Call>) returns (events: seq<Event>)
    requires Inv(b)
    ensures var w := Interleaved(Quiet(b), events);
            w.books == Run(b, calls) && w.committed == EffectiveCalls(b, calls) && AllEnded(w.transactions) && Inv(w.books)
  {
    hide Inv, Try, LockedByOthers;
    if calls == [] {
      events := [];
    } else {
      var before, c := calls[..|calls| - 1], calls[|calls| - 1];
      var sofar := EveryRunIsAnInterleaving(b, before);
      var w := Interleaved(Quiet(b), sofar);
      NobodyHolds(w.transactions, c);
      CallKeepsInvariant(w.books, c);
      InvIsSafe(w.books);
      var times := ArrivalIsServed(w, c);
      events := sofar + ([Arrive(c)] + Steps(|w.transactions|, times));
      OneAfterAnother(Quiet(b), sofar, [Arrive(c)] + Steps(|w.transactions|, times));
    }
  }

  lemma NobodyHolds(transactions: seq<Transaction>, c: Call)
    requires AllEnded(transactions)
    ensures LockedByOthers(transactions + [Begun(c)], |transactions|) == FREE
  {
  }

  lemma {:induction false} OneAfterAnother(w: World, events: seq<Event>, more: seq<Event>)
    ensures Interleaved(w, events + more) == Interleaved(Interleaved(w, events), more)
  {
    hide Next;
    if more == [] {
      assert events + more == events;
    } else {
      OneAfterAnother(w, events, more[..|more| - 1]);
      assert (events + more)[..|events + more| - 1] == events + more[..|more| - 1];
    }
  }
}
