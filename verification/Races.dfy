/**
 * What the order of guards allows. A payment's uses are counted before the payment is claimed, on
 * either side, and so are a debit note's: a use that commits in between survives the void. And a
 * settlement planned before a credit is taken back takes the credited part as an exchange gain or loss.
 */
module Races {
  import opened Wrappers
  import opened Sums
  import opened Posting
  import opened Books
  import opened BooksInvariant
  import opened BooksTheorems
  import opened DocumentedRules
  import opened Transactions
  import opened Serializability

  // ---- one event after another

  /** Two transactions of which the other holds nothing. */
  ghost predicate Alone(transactions: seq<Transaction>, n: nat) {
    && |transactions| == 2 && n < 2 && transactions[n].Running?
    && var other := transactions[1 - n];
      other.Running? ==> other.claims == UNCLAIMED
  }

  /** These events lead there. */
  ghost predicate Leads(start: Books, events: seq<Event>, w: World) {
    Interleaved(Quiet(start), events) == w
  }

  lemma Begins(start: Books, first: Call, second: Call) returns (events: seq<Event>)
    ensures Leads(start, events, World(start, [Begun(first), Begun(second)], []))
  {
    events := [Arrive(first), Arrive(second)];
    assert events[..1] == [Arrive(first)] && events[..1][..0] == [];
    assert Interleaved(Quiet(start), []) == Quiet(start);
    assert Interleaved(Quiet(start), events[..1]) == Next(Quiet(start), Arrive(first));
  }

  lemma StepsAlone(transactions: seq<Transaction>, n: nat)
    requires Alone(transactions, n)
    ensures LockedByOthers(transactions, n) == FREE
  {
  }

  lemma OneMore(start: Books, events: seq<Event>, w: World, n: nat)
    requires Leads(start, events, w)
    ensures Leads(start, events + [Proceed(n)], Next(w, Proceed(n)))
  {
    hide Next;
    assert (events + [Proceed(n)])[..|events|] == events;
  }

  lemma GoesOn(start: Books, events: seq<Event>, w: World, n: nat, t: Transaction) returns (more: seq<Event>)
    requires Leads(start, events, w) && Alone(w.transactions, n) && Step(w.books, FREE, w.transactions[n]) == Go(t)
    ensures Leads(start, more, w.(transactions := w.transactions[n := t]))
  {
    more := events + [Proceed(n)];
    OneMore(start, events, w, n);
    StepsAlone(w.transactions, n);
    hide Step, LockedByOthers, Leads;
  }

  lemma Commits(start: Books, events: seq<Event>, w: World, n: nat, b: Books) returns (more: seq<Event>)
    requires Leads(start, events, w) && Alone(w.transactions, n) && Step(w.books, FREE, w.transactions[n]) == Commit(b)
    ensures Leads(start, more, World(b, w.transactions[n := Ended], w.committed + [w.transactions[n].call]))
  {
    more := events + [Proceed(n)];
    OneMore(start, events, w, n);
    StepsAlone(w.transactions, n);
    hide Step, LockedByOthers, Leads;
  }

  // ---- a payment is voided while its credit is applied

  /** An invoice of 100 paid with 150, and an open invoice of 50. */
  function Overpaid(): Books {
    Run(Opened(Receivable, false, false), RefundedRun()[..5])
  }

  ghost predicate IsOverpaid(b: Books) {
    && b.side == Receivable && b.applications == [] && b.refunds == [] && |b.journal| == 3
    && b.documents == [Document(0, Finalized, OneLine(100), 0, 0, Some(0), None), Document(0, Finalized, OneLine(50), 50, 50, Some(1), None)]
    && b.payments == [PAYMENT]
  }

  const PAYMENT := Payment(0, true, Asset(0), 150, [Direct(0, 100)], 50, 50, 2, None)
  const DRAINED := PAYMENT.(unapplied := 0, txUnapplied := 0)
  const PAID := Document(0, Finalized, OneLine(100), 0, 0, Some(0), None)
  const OPEN := Document(0, Finalized, OneLine(50), 50, 50, Some(1), None)

  lemma OverpaidState()
    ensures IsOverpaid(Overpaid())
  {
    var b0 := Opened(Receivable, false, false);
    var calls := RefundedRun();
    assert calls[..5][..4] == calls[..4] && calls[..5][4] == calls[4];
    hide After;
    assert Run(b0, calls[..5]) == After(Run(b0, calls[..4]), calls[4]);
    InvoicesRun(b0);
    hide Run;
    AfterPayment(Run(b0, calls[..4]));
  }

  function PaymentVoid(at: nat, claims: Claims): Transaction {
    Running(DoVoidPayment(0), at, SettlementRefused, claims)
  }

  function Applying(at: nat, claims: Claims): Transaction {
    Running(DoApplyUnapplied(0, 1, 50), at, Settled(50, 50), claims)
  }

  function CreditTaken(): Claims {
    UNCLAIMED.(payments := map[0 := Version(PAYMENT, DRAINED)])
  }

  function InvoiceSettled(): Claims {
    CreditTaken().(documents := map[1 := Version(OPEN, OPEN.(balance := 0, txBalance := 0))])
  }

  function Applied(b: Books): Books
    requires |b.payments| > 0 && |b.documents| > 1
  {
    b.(payments := b.payments[0 := DRAINED],
       documents := b.documents[1 := OPEN.(balance := 0, txBalance := 0)],
       applications := b.applications + [Application(0, 0, 1, 50, 50, 50, true, None)])
  }

  lemma VoidCounts(b: Books)
    requires IsOverpaid(b)
    ensures Step(b, FREE, PaymentVoid(0, UNCLAIMED)) == Go(PaymentVoid(1, UNCLAIMED))
    ensures Step(b, FREE, PaymentVoid(1, UNCLAIMED)) == Go(PaymentVoid(2, UNCLAIMED))
  {
  }

  /** The application's four steps; the last one commits. */
  lemma ApplySteps(b: Books)
    requires IsOverpaid(b)
    ensures Step(b, FREE, Begun(DoApplyUnapplied(0, 1, 50))) == Go(Applying(1, UNCLAIMED))
    ensures Step(b, FREE, Applying(1, UNCLAIMED)) == Go(Applying(2, CreditTaken()))
    ensures Step(b, FREE, Applying(2, CreditTaken())) == Go(Applying(3, InvoiceSettled()))
    ensures Step(b, FREE, Applying(3, InvoiceSettled())) == Commit(Applied(b))
  {
    SettlesEvenly(50, 50, 50);
    hide Allocate;
  }

  function PaymentGivenUp(): Claims {
    UNCLAIMED.(payments := map[0 := Version(DRAINED, DRAINED.(posted := false))])
  }

  function InvoiceReopened(): Claims {
    PaymentGivenUp().(documents := map[0 := Version(PAID, PAID.(balance := 100, txBalance := 100))])
  }

  lemma VoidClaims(b: Books)
    requires IsOverpaid(b)
    ensures Step(Applied(b), FREE, PaymentVoid(2, UNCLAIMED)) == Go(PaymentVoid(3, PaymentGivenUp()))
  {
    hide Total, Publish, Reverse, PaymentInUse, MayRestore, Moved;
  }

  lemma VoidRestores(b: Books)
    requires IsOverpaid(b)
    ensures Step(Applied(b), FREE, PaymentVoid(3, PaymentGivenUp())) == Go(PaymentVoid(4, InvoiceReopened()))
  {
    hide Total, Publish, Reverse, PaymentInUse;
  }

  lemma VoidCommits(b: Books)
    requires IsOverpaid(b)
    ensures Step(Applied(b), FREE, PaymentVoid(4, InvoiceReopened())).Commit?
    ensures var after := Step(Applied(b), FREE, PaymentVoid(4, InvoiceReopened())).books;
            && |after.payments| == 1 && !after.payments[0].posted
            && |after.documents| == 2 && after.documents[1].balance == 0
            && after.applications == [Application(0, 0, 1, 50, 50, 50, true, None)] && PaymentInUse(after, 0)
  {
    hide Total, Reverse;
    assert Applied(b).applications[0].active;
  }

  /** Both requests are accepted, and the invoice stays settled by credit of a payment that is void. */
  lemma VoidedUnderAnApplication() returns (events: seq<Event>)
    ensures var w := Interleaved(Quiet(Overpaid()), events);
            && w.committed == [DoApplyUnapplied(0, 1, 50), DoVoidPayment(0)]
            && |w.books.payments| == 1 && !w.books.payments[0].posted
            && |w.books.applications| == 1 && w.books.applications[0].active && w.books.applications[0].payment == 0
            && |w.books.documents| == 2 && w.books.documents[1].balance == 0
            && !Inv(w.books)
  {
    OverpaidState();
    var b := Overpaid();
    hide Overpaid, Step, Inv;
    VoidCounts(b);
    ApplySteps(b);
    VoidClaims(b);
    VoidRestores(b);
    VoidCommits(b);
    var void0, apply0 := Begun(DoVoidPayment(0)), Begun(DoApplyUnapplied(0, 1, 50));
    events := Begins(b, void0.call, apply0.call);
    events := GoesOn(b, events, World(b, [void0, apply0], []), 0, PaymentVoid(1, UNCLAIMED));
    events := GoesOn(b, events, World(b, [PaymentVoid(1, UNCLAIMED), apply0], []), 0, PaymentVoid(2, UNCLAIMED));
    var counted := PaymentVoid(2, UNCLAIMED);
    events := GoesOn(b, events, World(b, [counted, apply0], []), 1, Applying(1, UNCLAIMED));
    events := GoesOn(b, events, World(b, [counted, Applying(1, UNCLAIMED)], []), 1, Applying(2, CreditTaken()));
    events := GoesOn(b, events, World(b, [counted, Applying(2, CreditTaken())], []), 1, Applying(3, InvoiceSettled()));
    events := Commits(b, events, World(b, [counted, Applying(3, InvoiceSettled())], []), 1, Applied(b));
    events := GoesOn(b, events, World(Applied(b), [counted, Ended], [apply0.call]), 0, PaymentVoid(3, PaymentGivenUp()));
    events := GoesOn(b, events, World(Applied(b), [PaymentVoid(3, PaymentGivenUp()), Ended], [apply0.call]), 0, PaymentVoid(4, InvoiceReopened()));
    var after := Step(Applied(b), FREE, PaymentVoid(4, InvoiceReopened())).books;
    events := Commits(b, events, World(Applied(b), [PaymentVoid(4, InvoiceReopened()), Ended], [apply0.call]), 0, after);
    if Inv(after) {
      VoidedPaymentIsUnused(after, 0);
    }
  }

  // ---- a debit note is voided while it is applied

  /** A bill of 30 and a debit note of 20, both finalized; then the note is applied to the bill and 30 is paid in advance. */
  function CreditedRun(): seq<Call> {
    [DoCreateDocument(0, OneLine(30)), DoFinalizeDocument(0), DoCreateNote(0, OneLine(20), None), DoFinalizeNote(0),
     DoApplyNote(0, 0, 20), DoCreatePayment(0, Asset(0), 30, [])]
  }

  function Noted(): Books {
    Run(Opened(Payable, true, true), CreditedRun()[..4])
  }

  const BILL := Document(0, Finalized, OneLine(30), 30, 30, Some(0), None)
  const NOTE := Note(0, Finalized, OneLine(20), None, 20, Some(1), None)
  const ADVANCE := Payment(0, true, Asset(0), 30, [], 30, 30, 2, None)

  ghost predicate IsNoted(b: Books) {
    && b.side == Payable && b.gainAccount && b.lossAccount && b.documents == [BILL] && b.notes == [NOTE]
    && b.payments == [] && b.applications == [] && b.uses == [] && b.refunds == [] && |b.journal| == 2
  }

  lemma NotedState()
    ensures IsNoted(Noted())
  {
    var b0 := Opened(Payable, true, true);
    var calls := CreditedRun();
    assert calls[..4][..3] == calls[..3] && calls[..3][..2] == calls[..2] && calls[..2][..1] == calls[..1] && calls[..1][..0] == [];
    hide After;
    var b1, b2, b3 := Run(b0, calls[..1]), Run(b0, calls[..2]), Run(b0, calls[..3]);
    assert Run(b0, calls[..0]) == b0;
    assert b1 == After(b0, calls[0]) && b2 == After(b1, calls[1]) && b3 == After(b2, calls[2]) && Noted() == After(b3, calls[3]);
    hide Run, Noted;
    AfterCreate(b0, 30);
    AfterFinalize(b1, 0, 30);
    AfterNoteCreated(b2, 20);
    AfterNoteFinalized(b3, 20);
  }

  lemma AfterNoteCreated(b: Books, amount: Money)
    ensures After(b, DoCreateNote(0, OneLine(amount), None)) == b.(notes := b.notes + [Note(0, Draft, OneLine(amount), None, amount, None, None)])
  {
    OneLineTotal(amount);
  }

  lemma AfterNoteFinalized(b: Books, amount: Money)
    requires amount > 0 && b.notes == [Note(0, Draft, OneLine(amount), None, amount, None, None)]
    ensures After(b, DoFinalizeNote(0))
         == b.(notes := [Note(0, Finalized, OneLine(amount), None, amount, Some(|b.journal|), None)],
               journal := Post(b.journal, OfNote(0), NoteEntry(b.side, OneLine(amount))))
  {
    OneLineTotal(amount);
  }

  function NoteVoid(at: nat, claims: Claims): Transaction {
    Running(DoVoidNote(0), at, SettlementRefused, claims)
  }

  function Crediting(at: nat, claims: Claims): Transaction {
    Running(DoApplyNote(0, 0, 20), at, SettlementRefused, claims)
  }

  function NoteSpent(): Claims {
    UNCLAIMED.(notes := map[0 := Version(NOTE, NOTE.(unapplied := 0))])
  }

  function BillCredited(): Claims {
    NoteSpent().(documents := map[0 := Version(BILL, BILL.(balance := 10))])
  }

  function NoteApplied(b: Books): Books {
    b.(notes := [NOTE.(unapplied := 0)], documents := [BILL.(balance := 10)], uses := [CreditUse(0, 0, 20, true)])
  }

  lemma NoteVoidCounts(b: Books)
    requires IsNoted(b)
    ensures Step(b, FREE, NoteVoid(0, UNCLAIMED)) == Go(NoteVoid(1, UNCLAIMED))
    ensures Step(b, FREE, NoteVoid(1, UNCLAIMED)) == Go(NoteVoid(2, UNCLAIMED))
  {
  }

  lemma CreditSteps(b: Books)
    requires IsNoted(b)
    ensures Step(b, FREE, Crediting(0, UNCLAIMED)) == Go(Crediting(1, UNCLAIMED))
    ensures Step(b, FREE, Crediting(1, UNCLAIMED)) == Go(Crediting(2, NoteSpent()))
    ensures Step(b, FREE, Crediting(2, NoteSpent())) == Go(Crediting(3, BillCredited()))
    ensures Step(b, FREE, Crediting(3, BillCredited())) == Commit(NoteApplied(b))
  {
    hide Total;
  }

  function NoteGivenUp(): Claims {
    var spent := NOTE.(unapplied := 0);
    UNCLAIMED.(notes := map[0 := Version(spent, spent.(status := Voided))])
  }

  lemma NoteVoidSteps(b: Books)
    requires IsNoted(b)
    ensures Step(NoteApplied(b), FREE, NoteVoid(2, UNCLAIMED)) == Go(NoteVoid(3, NoteGivenUp()))
    ensures Step(NoteApplied(b), FREE, NoteVoid(3, NoteGivenUp())).Commit?
    ensures var after := Step(NoteApplied(b), FREE, NoteVoid(3, NoteGivenUp())).books;
            && |after.notes| == 1 && after.notes[0].status == Voided
            && after.uses == [CreditUse(0, 0, 20, true)] && NoteInUse(after, 0)
            && |after.documents| == 1 && after.documents[0].balance == 10
  {
    hide Total, Reverse;
    assert NoteApplied(b).uses[0].active;
  }

  /** Both requests are accepted, and the bill stays reduced by a debit note that is void. */
  lemma NoteVoidedUnderAUse() returns (events: seq<Event>)
    ensures var w := Interleaved(Quiet(Noted()), events);
            && w.committed == [DoApplyNote(0, 0, 20), DoVoidNote(0)]
            && |w.books.notes| == 1 && w.books.notes[0].status == Voided
            && |w.books.uses| == 1 && w.books.uses[0].active && w.books.uses[0].note == 0
            && |w.books.documents| == 1 && w.books.documents[0].balance == 10
            && !Inv(w.books)
  {
    NotedState();
    var b := Noted();
    hide Noted, Step, Inv;
    NoteVoidCounts(b);
    CreditSteps(b);
    NoteVoidSteps(b);
    var void0, apply0 := NoteVoid(0, UNCLAIMED), Crediting(0, UNCLAIMED);
    events := Begins(b, void0.call, apply0.call);
    events := GoesOn(b, events, World(b, [void0, apply0], []), 0, NoteVoid(1, UNCLAIMED));
    events := GoesOn(b, events, World(b, [NoteVoid(1, UNCLAIMED), apply0], []), 0, NoteVoid(2, UNCLAIMED));
    var counted := NoteVoid(2, UNCLAIMED);
    events := GoesOn(b, events, World(b, [counted, apply0], []), 1, Crediting(1, UNCLAIMED));
    events := GoesOn(b, events, World(b, [counted, Crediting(1, UNCLAIMED)], []), 1, Crediting(2, NoteSpent()));
    events := GoesOn(b, events, World(b, [counted, Crediting(2, NoteSpent())], []), 1, Crediting(3, BillCredited()));
    events := Commits(b, events, World(b, [counted, Crediting(3, BillCredited())], []), 1, NoteApplied(b));
    events := GoesOn(b, events, World(NoteApplied(b), [counted, Ended], [apply0.call]), 0, NoteVoid(3, NoteGivenUp()));
    var after := Step(NoteApplied(b), FREE, NoteVoid(3, NoteGivenUp())).books;
    events := Commits(b, events, World(NoteApplied(b), [NoteVoid(3, NoteGivenUp()), Ended], [apply0.call]), 0, after);
    if Inv(after) {
      VoidedNoteIsUnused(after, 0);
    }
  }

  // ---- a settlement is planned before a credit is taken back

  function PaidAhead(): Books {
    Run(Opened(Payable, true, true), CreditedRun())
  }

  ghost predicate IsPaidAhead(b: Books) {
    && b.side == Payable && b.gainAccount && b.lossAccount && b.documents == [BILL.(balance := 10)] && b.notes == [NOTE.(unapplied := 0)]
    && b.payments == [ADVANCE] && b.uses == [CreditUse(0, 0, 20, true)] && b.applications == []
  }

  lemma PaidAheadState()
    ensures IsPaidAhead(PaidAhead())
  {
    var b0 := Opened(Payable, true, true);
    var calls := CreditedRun();
    NotedState();
    assert calls[..6] == calls && calls[..6][..5] == calls[..5] && calls[..5][..4] == calls[..4];
    hide After;
    var b5 := Run(b0, calls[..5]);
    assert b5 == After(Noted(), calls[4]) && PaidAhead() == After(b5, calls[5]);
    hide Run, Noted, PaidAhead;
    AfterCredit(Noted());
    AfterAdvance(b5);
  }

  lemma AfterCredit(b: Books)
    requires IsNoted(b)
    ensures After(b, CreditedRun()[4]) == NoteApplied(b)
  {
    hide Total;
  }

  lemma AfterAdvance(b: Books)
    requires b.side == Payable && b.payments == [] && |b.journal| == 2
    ensures var after := After(b, CreditedRun()[5]);
            after == b.(payments := [ADVANCE], journal := after.journal)
  {
    hide PaymentEntry;
    assert Allocated(b.documents, [], -1) == b.documents;
  }

  function Settling(at: nat, claims: Claims): Transaction {
    Running(DoApplyUnapplied(0, 0, 30), at, if at == 0 then SettlementRefused else Settled(10, 30), claims)
  }

  function TakingBack(at: nat, claims: Claims): Transaction {
    Running(DoReverseUse(0), at, SettlementRefused, claims)
  }

  function UseClaimed(): Claims {
    UNCLAIMED.(uses := map[0 := Version(CreditUse(0, 0, 20, true), CreditUse(0, 0, 20, false))])
  }

  function NoteReopened(): Claims {
    UseClaimed().(notes := map[0 := Version(NOTE.(unapplied := 0), NOTE)])
  }

  function BillReopened(): Claims {
    NoteReopened().(documents := map[0 := Version(BILL.(balance := 10), BILL)])
  }

  function TakenBack(b: Books): Books {
    b.(notes := [NOTE], documents := [BILL], uses := [CreditUse(0, 0, 20, false)])
  }

  /** The credited bill is closed in full by its transaction balance, for what is left of its base balance. */
  lemma SettlingPlans(b: Books)
    requires IsPaidAhead(b)
    ensures Step(b, FREE, Settling(0, UNCLAIMED)) == Go(Settling(1, UNCLAIMED))
  {
  }

  lemma TakingBackSteps(b: Books)
    requires IsPaidAhead(b)
    ensures Step(b, FREE, TakingBack(0, UNCLAIMED)) == Go(TakingBack(1, UNCLAIMED))
    ensures Step(b, FREE, TakingBack(1, UNCLAIMED)) == Go(TakingBack(2, UseClaimed()))
    ensures Step(b, FREE, TakingBack(2, UseClaimed())) == Go(TakingBack(3, NoteReopened()))
    ensures Step(b, FREE, TakingBack(3, NoteReopened())) == Go(TakingBack(4, BillReopened()))
    ensures Step(b, FREE, TakingBack(4, BillReopened())) == Commit(TakenBack(b))
  {
    OneLineTotal(20);
    OneLineTotal(30);
    hide Total;
  }

  function AdvanceTaken(): Claims {
    UNCLAIMED.(payments := map[0 := Version(ADVANCE, ADVANCE.(unapplied := 0, txUnapplied := 0))])
  }

  function BillSettled(): Claims {
    AdvanceTaken().(documents := map[0 := Version(BILL, BILL.(balance := 20, txBalance := 0))])
  }

  /** The bill as settled on the stale plan, with the difference posted as a loss. */
  function SettledStale(b: Books): Books {
    b.(payments := [ADVANCE.(unapplied := 0, txUnapplied := 0)], documents := [BILL.(balance := 20, txBalance := 0)],
       applications := [Application(0, 0, 0, 30, 10, 30, true, Some(|b.journal|))],
       journal := b.journal + [Entry(OfApplication(0), [Line(FxLoss, 20, 0), Line(Control, 0, 20)], None)])
  }

  lemma SettlingSteps(b: Books)
    requires IsPaidAhead(b)
    ensures Step(TakenBack(b), FREE, Settling(1, UNCLAIMED)) == Go(Settling(2, AdvanceTaken()))
    ensures Step(TakenBack(b), FREE, Settling(2, AdvanceTaken())) == Go(Settling(3, BillSettled()))
    ensures Step(TakenBack(b), FREE, Settling(3, BillSettled())) == Commit(SettledStale(TakenBack(b)))
  {
  }

  /** The settlement has planned, and then the credit has been taken back. */
  lemma TakenBackMeanwhile() returns (events: seq<Event>)
    ensures IsPaidAhead(PaidAhead())
    ensures Leads(PaidAhead(), events, World(TakenBack(PaidAhead()), [Settling(1, UNCLAIMED), Ended], [DoReverseUse(0)]))
  {
    PaidAheadState();
    var b := PaidAhead();
    hide Step, PaidAhead;
    SettlingPlans(b);
    TakingBackSteps(b);
    var settle0, back0 := Settling(0, UNCLAIMED), TakingBack(0, UNCLAIMED);
    events := Begins(b, settle0.call, back0.call);
    events := GoesOn(b, events, World(b, [settle0, back0], []), 0, Settling(1, UNCLAIMED));
    var planned := Settling(1, UNCLAIMED);
    events := GoesOn(b, events, World(b, [planned, back0], []), 1, TakingBack(1, UNCLAIMED));
    events := GoesOn(b, events, World(b, [planned, TakingBack(1, UNCLAIMED)], []), 1, TakingBack(2, UseClaimed()));
    events := GoesOn(b, events, World(b, [planned, TakingBack(2, UseClaimed())], []), 1, TakingBack(3, NoteReopened()));
    events := GoesOn(b, events, World(b, [planned, TakingBack(3, NoteReopened())], []), 1, TakingBack(4, BillReopened()));
    events := Commits(b, events, World(b, [planned, TakingBack(4, BillReopened())], []), 1, TakenBack(b));
  }

  /**
   * The bill keeps a base balance of 20 that its transaction balance no longer shows, and 20 is posted
   * as an exchange loss in a single currency; the same calls one after another close the bill plainly.
   */
  lemma SettledOnAStalePlan() returns (events: seq<Event>)
    ensures var w := Interleaved(Quiet(PaidAhead()), events);
            && w.committed == [DoReverseUse(0), DoApplyUnapplied(0, 0, 30)]
            && w.books == SettledStale(TakenBack(PaidAhead())) && Inv(w.books)
    ensures |TakenBack(PaidAhead()).payments| == 1
            && Run(PaidAhead(), [DoReverseUse(0), DoApplyUnapplied(0, 0, 30)]) == AppliedPlainly(TakenBack(PaidAhead()), 0, 0, 30)
  {
    EveryRunKeepsInvariant(Payable, true, true, CreditedRun());
    events := TakenBackMeanwhile();
    var b := PaidAhead();
    hide Step, Inv, Run;
    SerialOutcome(b);
    hide PaidAhead;
    SettlingSteps(b);
    StaleKeepsInvariant(b);
    var now := TakenBack(b);
    events := GoesOn(b, events, World(now, [Settling(1, UNCLAIMED), Ended], [DoReverseUse(0)]), 0, Settling(2, AdvanceTaken()));
    events := GoesOn(b, events, World(now, [Settling(2, AdvanceTaken()), Ended], [DoReverseUse(0)]), 0, Settling(3, BillSettled()));
    events := Commits(b, events, World(now, [Settling(3, BillSettled()), Ended], [DoReverseUse(0)]), 0, SettledStale(now));
  }

  lemma SerialOutcome(b: Books)
    requires IsPaidAhead(b)
    ensures After(b, DoReverseUse(0)) == TakenBack(b)
    ensures Run(b, [DoReverseUse(0), DoApplyUnapplied(0, 0, 30)]) == AppliedPlainly(TakenBack(b), 0, 0, 30)
  {
    OneLineTotal(20);
    OneLineTotal(30);
    hide Total;
    var calls := [DoReverseUse(0), DoApplyUnapplied(0, 0, 30)];
    assert calls[..1] == [DoReverseUse(0)] && calls[..1][..0] == [];
    assert Run(b, calls[..1]) == TakenBack(b);
    SettlesEvenly(30, 30, 30);
    hide Allocate;
  }

  /** A stale plan is accounted for all the same: it is one more settlement difference. */
  lemma StaleKeepsInvariant(b: Books)
    requires IsPaidAhead(b) && Inv(b) && After(b, DoReverseUse(0)) == TakenBack(b)
    ensures Inv(SettledStale(TakenBack(b)))
  {
    CallKeepsInvariant(b, DoReverseUse(0));
    hide Inv, After;
    StaleIsClaimed(TakenBack(b));
    hide Claimed;
    InvariantKeptExactlyWhen(TakenBack(b), DoApplyUnapplied(0, 0, 30), Settled(10, 30), SettledStale(TakenBack(b)));
  }

  lemma StaleIsClaimed(b: Books)
    requires b.side == Payable && b.lossAccount && b.documents == [BILL] && b.payments == [ADVANCE] && b.applications == []
    ensures Claimed(b, DoApplyUnapplied(0, 0, 30), Settled(10, 30)) == Done(SettledStale(b))
  {
  }
}
