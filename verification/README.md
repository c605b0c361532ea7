# LedgerByte verification model

A Dafny model of the parts of LedgerByte whose correctness no finite set of test runs settles: the
receivables and payables subledger with its journals, its concurrency and its reports, and the
serialized XAdES/QR verifier for e-invoices. `dafny verify dfyconfig.toml` checks everything.

## What is modelled

**The subledger** (`Posting`, `Books`, `BooksInvariant`, `BooksSteps`, `DocumentCalls`, `NoteCalls`,
`CashEntries`, `PaymentCalls`, `SettlementCalls`, `BooksTheorems`, `Outcomes`). Sales invoices, customer
payments, credit notes and customer refunds, with the applications and reversals between them, as the
tables the services keep, in integers of 0.0001. Purchase bills, supplier payments, debit notes and
supplier refunds are the same machine with `side == Payable`: a payment may have no allocations,
journals are mirrored, and voiding a payment also checks that no balance rises above its total. A call
is one database transaction: `Done` with the new tables or `Refused` and rolled back. `Inv` is what
holds in every reachable state, and `EveryRunKeepsInvariant` proves it for every sequence of calls with
any arguments: each balance equals its total less the uses in force, each record has one journal entry,
reversed exactly when the record is undone, every account's balance is what the records in force posted,
and each contact's open balance reconciles with what was billed, credited, paid and refunded.

- `Outcomes` says what each call comes to: when it is accepted, what its rows then hold and what every
  account moves by, from the call's arguments and the open amounts it finds.
- `Subledger` holds the services as a class that changes its tables in place: claims, checks after the
  claim, loops over allocations, postings and rollbacks, proved to leave exactly the tables `Books`
  says.
- `Reconciliation` and `Statements`: control accounts, contact ledgers, running balances, periods.
- `DocumentedRules`: where the services do what the repository's README promises for payments and
  for applying unapplied credit, as an if and only if, with the runs in which they do not.
- `Unwinding`: every reachable state can be undone, call by call, to zero on every account.
- `Transactions`: all fourteen calls as concurrent transactions under READ COMMITTED, in the steps and
  the order of their services, with row locks taken by conditional updates and held to the end.
  `Isolation`, `IsolationSteps` and `Commits` show that what a transaction has claimed stays true while
  others commit. `Serializability` proves what holds under every interleaving of any number of them, and
  exactly when a commit is the call made on the tables as they then are; `Races` holds interleavings in
  which it is not. `Serving` proves that a call whose rows nobody else holds comes to its end and to its
  outcome, so that every run of the services is one of their interleavings.
- `Reports`: trial balance and balance sheet. `NumberSequences`: document numbers.

**The signature verifier** (`JavaArithmetic`, `Tlv`, `Der`, `Xml`, `LiveList`, `Dom`,
`DocumentElements`, `QrBinding`, `SignatureVerifier`). The nine-tag QR payload; the walk through a
certificate's DER with 32-bit wrap-around; the removal of excluded nodes from a linked document through
live node lists; and the early-return pipeline with its flags, from the parsed document on: element
lookups, ids, references, transforms, the digest of the pruned clone, the certificate's link, the
signature and the QR binding. Canonicalisation, digests, base64, certificate decoding and ECDSA are
arbitrary functions, a `Library`, so the results hold whatever they compute. The standards are W3C XML
Signature Syntax and Processing 1.1 (section 3.2), W3C DOM Level 3 Core (section 1.1.1), ITU-T X.690
(sections 8.1.3 and 8.6) and RFC 5280 (section 4.1).

**Two small protocols**: `SingleFlight`, the promise cache, and `FixtureRunner`, the argument machine
of the local fixture runner. `Sums` and `Wrappers` are shared helpers.

## Where the code and its documentation differ

The code is modelled; these are results of the model.

- Refunds and credit-note applications lower only the base balance (`unappliedAmount`, `balanceDue`)
  and leave the transaction balance, while applying unapplied credit checks the transaction balances
  and, when it closes one, takes the whole base balance beside it. After a refund the same credit can
  be applied once more; the difference is booked as realized FX, or the call is refused when no gain
  or loss account is configured. `DocumentedExactlyWhen` gives the exact condition, and
  `RefundedCreditIsAppliedAgain` a run. The contact ledger then closes away from the open balances by
  exactly that difference (`LedgerCloses`). The same mismatch refuses some payments the README allows
  (`PaymentAcceptedExactlyWhen`).
- A paid-through or refund account must be an active posting ASSET account, which account 120 itself
  is. The control account equals the open balances exactly when nothing net went through it as cash
  (`ControlAccountReconciles`, `PaidThroughControl`); on the payable side it cannot happen.
- Every interleaving of every call keeps balances in range, entries single and accounts equal to what
  the records in force posted (`InterleavingsAreSafe`), but not every commit is the call it stands for.
  It is exactly when what the call looked at without a lock is still so
  (`CommitIsSerialExactlyWhenFresh`); of what can be stale, only a void of a row in use or a note beyond
  its original's total breaks the invariant (`InvariantKeptExactlyWhen`).
- Voiding a payment counts its applications and refunds before it claims the payment row, and voiding a
  debit note does the same, unlike voiding an invoice or a credit note. An application that commits in
  between survives the void (`VoidedUnderAnApplication`, `NoteVoidedUnderAUse`). Voiding a bill counts
  first too, but under a row lock, which is enough (`DocumentStaysUnused`).
- Applying unapplied credit plans its settlement on balances it reads before it locks anything. When
  they move before its claims, the claims may still succeed on the old plan; a difference is then booked
  as realized FX that the same calls one after another would not have (`SettledOnAStalePlan`).
- A number-sequence update checks `nextNumber` against the row it read and writes later. Numbers
  issued in between can be issued again (`LateWriteIssuesAgain`). Two prefixes can produce the same
  document number exactly when one is the other followed by digits that a number within the 32-bit
  column can start with (`PrefixesClashExactlyWhen`).
- An excluded reference nested inside the `cbc:ID` of another is removed first, because lists are
  walked backwards, and can change what that ID says (`NestedReferenceTellsThemApart`); the order of
  removal can be seen exactly when some reference reads differently before and after
  (`DropIsPruneExactlyWhen`), which the UBL schema rules out (`PlainIdsAgree`).
- The second-match exit of the id lookup cannot be taken once ids are unique, except for the reference
  "#", to which every element without an id answers (`FoundExactlyWhenThere`).
- The README states `taxableTotal = subtotal - discountTotal`; in tax-inclusive mode the code takes
  the tax out of the taxable amount as well. Line arithmetic is not part of this model.

## Model

| member | source | states |
|---|---|---|
| Posting.ReversalIsPostable | packages/accounting-core/src/index.ts:608-628 | reversing an acceptable entry gives an acceptable entry, and reversing twice gives the original |
| Posting.ReversalCancels | packages/accounting-core/src/index.ts:608-628 | a reversal has the opposite effect on every account and exchanges total debit and credit |
| Posting.GroupedAmounts | apps/api/src/sales-invoices/sales-invoice-accounting.ts:42-60 | grouping by account loses nothing: per account and in all, the taxable amounts of the lines |
| Posting.GroupedOnce | apps/api/src/sales-invoices/sales-invoice-accounting.ts:42-60 | each account has one group, and only accounts of lines have one |
| Posting.GroupedInOrder | apps/api/src/sales-invoices/sales-invoice-accounting.ts:42-60 | groups stand in the order in which their accounts first occur |
| Posting.BodyLinesOnce | apps/api/src/sales-invoices/sales-invoice-accounting.ts:62-94 | an account other than VAT has at most one line in the body, however many of the document's lines it has |
| Posting.BodySums | apps/api/src/sales-invoices/sales-invoice-accounting.ts:62-94 | the lines after the control line carry the whole total, each account its share, VAT only when there is tax, none of them zero |
| Posting.DocumentEntryIsRight | apps/api/src/sales-invoices/sales-invoice-accounting.ts:26-99 | the finalization journal of any lines with a positive total is accepted and charges every account exactly its share |
| Posting.NoteEntryIsMirrored | apps/api/src/credit-notes/credit-note-accounting.ts:26-97 | a credit note's journal is accepted and is the mirror image of a document's with the same lines |
| Posting.RedirectionMoves | apps/api/src/purchase-bills/purchase-bill.service.ts:1108-1118 | redirecting tracked lines keeps total and tax and moves exactly the tracked amounts to the clearing account |
| Posting.RedirectedEntryIsRight | apps/api/src/purchase-bills/purchase-bill.service.ts:1108-1118 | the redirected bill's journal still balances and the clearing account holds the tracked lines |
| CashEntries.PaymentEntryIsRight | apps/api/src/customer-payments/customer-payment-accounting.ts:33-106 | a payment's journal balances, takes what was received from the control account and puts it on the cash account, whatever the allocations |
| CashEntries.PaymentEntryLines | apps/api/src/customer-payments/customer-payment-accounting.ts:33-106 | the entry has the cash line, one control-account line for every allocation in order, and one for the rest when there is one |
| CashEntries.RefundEntryIsRight | apps/api/src/customer-refunds/customer-refund-accounting.ts:12-34 | a refund's journal balances and does the opposite of a payment |
| CashEntries.AdjustmentEntryIsRight | apps/api/src/foreign-exchange/realized-fx-adjustment.ts:3-39 | a realized FX adjustment balances and moves the control account by what was taken beyond what was settled, against the gain account or the loss account by its direction on each side |
| CashEntries.AllocatedAt | apps/api/src/customer-payments/customer-payment.service.ts:963-985 | after a payment's allocations every document has moved by exactly the sum of those that name it |
| CashEntries.PlanCovers | apps/api/src/customer-payments/customer-payment.service.ts:925-951 | an accepted plan never takes more than a document's base balance |
| SettlementCalls.SettledWithin | packages/accounting-core/src/index.ts:223-359 | a settlement takes no more than is open on either side in either currency |
| BooksTheorems.CallKeepsInvariant | apps/api/src/customer-payments/customer-payment.service.ts:231-1297 | every one of the fourteen calls, with any arguments, keeps the whole invariant |
| BooksTheorems.ClaimedKeeps | apps/api/src/customer-payments/customer-payment.service.ts:231-1297 | once a call's claims have succeeded it keeps balances, journals and accounts whatever else it looked at; unused rows and contacts need the counts of a void, notes within their documents exactly the check of the reference |
| BooksTheorems.EveryRunKeepsInvariant | README.md:899-971 | the invariant holds after every sequence of calls from empty books, on either side |
| BooksTheorems.BalancesStayWithin | README.md:1042-1047 | no balance is ever below zero or above the amount it started from |
| BooksTheorems.OneEntryPerOrigin | README.md:908-919 | no record has two journal entries and no entry two reversals |
| Outcomes.CreateDocumentOutcome | apps/api/src/sales-invoices/sales-invoice.service.ts:454-519 | accepted exactly for lines off the control account; one draft with the contact, lines and total asked for, and nothing else |
| Outcomes.FinalizeDocumentOutcome | apps/api/src/sales-invoices/sales-invoice.service.ts:641-808 | accepted exactly when finalized or a draft with a positive total; the row opens its total and every account moves by the lines' charge |
| Outcomes.VoidDocumentOutcome | apps/api/src/sales-invoices/sales-invoice.service.ts:810-925 | a finalized document is voided exactly when all of it is open in both currencies, and every account moves back by its charge |
| Outcomes.CreateNoteOutcome | apps/api/src/credit-notes/credit-note.service.ts:595-647 | accepted exactly when the original is the contact's own finalized document with room left; one draft with just what was asked for |
| Outcomes.FinalizeNoteOutcome | apps/api/src/credit-notes/credit-note.service.ts:757-912 | a draft is finalized exactly when it has a positive total and its original is still the contact's finalized document; every account moves by the opposite charge |
| Outcomes.VoidNoteOutcome | apps/api/src/credit-notes/credit-note.service.ts:914-995 | a finalized note is voided exactly when all of it is unapplied; accounts move back and its original has the room again |
| Outcomes.ApplyNoteOutcome | apps/api/src/credit-notes/credit-note.service.ts:232-340 | accepted exactly within both base balances of rows in force of one contact; both drop by the amount and the use records it |
| Outcomes.ReverseUseOutcome | apps/api/src/credit-notes/credit-note.service.ts:342-451 | accepted exactly when the use is in force, and both rows have the amount back |
| Outcomes.CreatePaymentOutcome | apps/api/src/customer-payments/customer-payment.service.ts:881-1139 | one row with exactly the contact, account, amount and allocations of the call, each document down by what names it, and the amount moved from the control account to the account asked for |
| Outcomes.VoidPaymentOutcome | apps/api/src/customer-payments/customer-payment.service.ts:1141-1297 | a posted payment is voided exactly when all it did not allocate itself is unapplied in both currencies; documents and accounts have everything back |
| Outcomes.ApplyUnappliedOutcome | apps/api/src/customer-payments/customer-payment.service.ts:231-456 | accepted exactly within the transaction balances and configured accounts; a closed transaction balance closes the base balance beside it, and the difference goes to the gain or loss account |
| Outcomes.ReverseApplicationOutcome | apps/api/src/customer-payments/customer-payment.service.ts:458-641 | accepted exactly when the application is in force; both rows and every account have back what it took |
| Outcomes.CreateRefundOutcome | apps/api/src/customer-refunds/customer-refund.service.ts:147-225 | accepted exactly for an asset account and within the unapplied amount of the contact's own source; the source, the row and the accounts are those asked for |
| Outcomes.VoidRefundOutcome | apps/api/src/customer-refunds/customer-refund.service.ts:227-312 | always accepted; the source and the accounts have the amount back |
| BooksSteps.ReverseKeepsPairs | apps/api/src/sales-invoices/sales-invoice.service.ts:927-998 | creating or reusing a reversal keeps entries and reversals paired one to one |
| BooksSteps.ReverseSubtracts | apps/api/src/sales-invoices/sales-invoice.service.ts:927-998 | reversing an entry takes its effect off every account |
| BooksSteps.ReverseKeepsOthers | apps/api/src/sales-invoices/sales-invoice.service.ts:927-998 | reversing one record's entry leaves every other record's entry as it was |
| DocumentCalls.UnusedDocument | apps/api/src/sales-invoices/sales-invoice.service.ts:865-900 | the three counts of an invoice void find every use in force: when they are zero, nothing is allocated to it |
| DocumentCalls.FinalizeDocumentJournals | apps/api/src/sales-invoices/sales-invoice.service.ts:641-808 | finalizing posts one acceptable entry for the document and touches no other record's |
| DocumentCalls.VoidDocumentBalances | apps/api/src/sales-invoices/sales-invoice.service.ts:810-925 | voiding a document keeps every balance equal to its history |
| DocumentCalls.VoidDocumentTotals | apps/api/src/sales-invoices/sales-invoice.service.ts:810-925 | voiding keeps every account and every contact reconciled |
| NoteCalls.CreateNoteWithin | apps/api/src/credit-notes/credit-note.service.ts:1033-1081 | notes stay within their original documents exactly when the linked-total check passes |
| NoteCalls.UnusedNote | apps/api/src/credit-notes/credit-note.service.ts:962-974 | the two counts of a note void find every use in force |
| NoteCalls.VoidNoteBalances | apps/api/src/credit-notes/credit-note.service.ts:914-995 | voiding a note keeps every balance equal to its history |
| NoteCalls.ApplyNoteTotals | apps/api/src/credit-notes/credit-note.service.ts:232-340 | applying a note posts nothing and keeps every account and contact reconciled |
| NoteCalls.ReverseUseTotals | apps/api/src/credit-notes/credit-note.service.ts:342-451 | reversing an application of a note keeps every account and contact reconciled |
| PaymentCalls.CreatePaymentDocuments | apps/api/src/customer-payments/customer-payment.service.ts:881-1139 | a payment's allocations leave every document's balances equal to its history and not below zero |
| PaymentCalls.CreatePaymentTotals | apps/api/src/customer-payments/customer-payment.service.ts:881-1139 | a payment keeps every account and contact reconciled |
| PaymentCalls.VoidPaymentDocuments | apps/api/src/customer-payments/customer-payment.service.ts:1141-1297 | voiding a payment gives every document back exactly what it took |
| PaymentCalls.VoidPaymentTotals | apps/api/src/customer-payments/customer-payment.service.ts:1141-1297 | voiding a payment keeps every account and contact reconciled |
| SettlementCalls.ApplyUnappliedBalances | apps/api/src/customer-payments/customer-payment.service.ts:231-456 | applying unapplied credit keeps both balances of both rows equal to their histories and not below zero |
| SettlementCalls.ApplyUnappliedTotals | apps/api/src/customer-payments/customer-payment.service.ts:231-456 | applying keeps accounts and contacts reconciled, with the FX adjustment accounting for any difference |
| SettlementCalls.ReverseApplicationBalances | apps/api/src/customer-payments/customer-payment.service.ts:458-641 | reversing an application restores both rows by what it took |
| SettlementCalls.ReverseApplicationAccounts | apps/api/src/customer-payments/customer-payment.service.ts:1587-1635 | reversing an application takes back its FX adjustment on every account |
| SettlementCalls.CreateRefundBalances | apps/api/src/customer-refunds/customer-refund.service.ts:443-516 | a refund lowers its source by what it pays back and never below zero |
| SettlementCalls.VoidRefundBalances | apps/api/src/customer-refunds/customer-refund.service.ts:518-574 | voiding a refund restores its source exactly |
| SettlementCalls.VoidRefundTotals | apps/api/src/customer-refunds/customer-refund.service.ts:227-312 | voiding a refund keeps every account and contact reconciled |
| Subledger.GroupByAccount | apps/api/src/sales-invoices/sales-invoice-accounting.ts:42-60 | the grouping loop computes the grouping function |
| Subledger.BuildEntry | apps/api/src/sales-invoices/sales-invoice-accounting.ts:26-99 | the builder's loops compute the entry the lemmas speak about, control line first on the debit side and last on the credit side |
| Subledger.BuildPayment | apps/api/src/customer-payments/customer-payment-accounting.ts:33-106 | the payment builder's loop computes the payment's entry |
| Subledger.Subledger.CreateOrReuseReversal | apps/api/src/sales-invoices/sales-invoice.service.ts:927-998 | reuses an existing reversal or posts the opposite lines and marks the entry |
| Subledger.Subledger.FinalizeDocument | apps/api/src/sales-invoices/sales-invoice.service.ts:641-808 | claims the draft, posts, stores the entry: the new tables and the answer are those of the call |
| Subledger.Subledger.VoidDocument | apps/api/src/sales-invoices/sales-invoice.service.ts:810-925 | an invoice is claimed before its uses are counted and the claim rolled back when there is one; a bill is counted first; either way the tables of the call |
| Subledger.Subledger.FinalizeNote | apps/api/src/credit-notes/credit-note.service.ts:757-912 | the new tables and the answer are those of the call |
| Subledger.Subledger.VoidNote | apps/api/src/credit-notes/credit-note.service.ts:914-995 | a credit note is claimed before its uses are counted and the claim rolled back when there is one; a debit note is counted first; either way the tables of the call |
| Subledger.Subledger.ApplyNote | apps/api/src/credit-notes/credit-note.service.ts:232-340 | two conditional updates, the second of which undoes the first when it misses, and a use: the tables of the call, or none of it |
| Subledger.Subledger.ReverseUse | apps/api/src/credit-notes/credit-note.service.ts:342-451 | the use is claimed before the note and the document are restored, either of which may undo it all: the tables of the call |
| Subledger.Subledger.PlanAllocations | apps/api/src/customer-payments/customer-payment.service.ts:925-951 | the planning loop with its running open amounts decides exactly the recursive plan |
| Subledger.Subledger.SpendDocuments | apps/api/src/customer-payments/customer-payment.service.ts:963-985 | spends the documents in turn up to the first that cannot cover its amount, and says how far it got |
| Subledger.Subledger.RestoreDocuments | apps/api/src/customer-payments/customer-payment.service.ts:1236-1256 | restores the documents in turn up to the first that cannot take its amount back, and says how far it got |
| Subledger.Subledger.CreatePayment | apps/api/src/customer-payments/customer-payment.service.ts:881-1139 | validation, plan, conditional updates with a rollback half way through, posting: the tables and the answer of the call |
| Subledger.Subledger.VoidPayment | apps/api/src/customer-payments/customer-payment.service.ts:1141-1297 | claim, restoring loop, reversal, with a rollback half way through: the tables of the call |
| Subledger.Subledger.ApplyUnapplied | apps/api/src/customer-payments/customer-payment.service.ts:231-456 | plans first, then claims the payment and the document, either of which may miss the plan and undo it all: the tables and the answer of the call |
| Subledger.Subledger.ReverseApplication | apps/api/src/customer-payments/customer-payment.service.ts:458-641 | claims the application and reverses its entry before it restores both rows, either of which may undo it all: the tables of the call |
| Subledger.Subledger.CreateRefund | apps/api/src/customer-refunds/customer-refund.service.ts:147-225 | nothing is posted unless the conditional update of the source succeeds: the tables of the call |
| Subledger.Subledger.VoidRefund | apps/api/src/customer-refunds/customer-refund.service.ts:227-312 | claims and reverses before it restores the source, and rolls both back when it cannot |
| Subledger.Subledger.Serve | README.md:1064-1066 | any call from tables that satisfy the invariant leaves tables that do, and a failing one changes nothing |
| Reconciliation.ControlAccountReconciles | README.md:1209-1225 | account 120 or 210 stands at open documents less unapplied credit plus net cash put through it, so it equals them exactly when that is zero |
| Reconciliation.PayablesAlwaysReconcile | README.md:1238-1252 | the payable control account always equals open bills less unapplied supplier credit |
| Reconciliation.LedgerCloses | apps/api/src/contacts/contact-ledger.service.ts:1125-1447 | however sorted, a contact's ledger closes at open documents less unapplied credit less the settlement differences in force |
| Reconciliation.LedgerColumns | apps/api/src/contacts/contact-ledger.service.ts:1125-1447 | documents and refunds fill the increase column, notes and payments the decrease column, and what was voided fills the other one once more |
| Reconciliation.LedgerRowsNumber | apps/api/src/contacts/contact-ledger.service.ts:1125-1447 | every record has one row, one more once it has been taken back, and a payment one more for each of its allocations |
| Reconciliation.RunningBalances | apps/api/src/contacts/contact-ledger.service.ts:1810-1819 | every row's balance is the opening balance plus the rows up to it |
| Statements.Statement | apps/api/src/contacts/contact-ledger.service.ts:653-671 | opening balance, rows shown, running balances and closing balance of a period |
| Statements.OpeningBalance | apps/api/src/contacts/contact-ledger.service.ts:1832-1841 | the opening balance is the activity before the period |
| Statements.FilterRows | apps/api/src/contacts/contact-ledger.service.ts:1854-1861 | exactly the rows of the period, in order |
| Statements.InPeriodExactly | apps/api/src/contacts/contact-ledger.service.ts:1854-1861 | a statement shows exactly the rows dated on or between its two days, each as often as the ledger has it |
| Statements.InPeriodInOrder | apps/api/src/contacts/contact-ledger.service.ts:1854-1861 | and in the ledger's order |
| Statements.ClosingIsBalanceAt | apps/api/src/contacts/contact-ledger.service.ts:653-671 | a statement closes at the ledger's balance at the end of the period, wherever the period starts |
| Statements.AdjacentPeriodsMeet | README.md:1227-1231 | the closing balance of a period is the opening balance of the next |
| Statements.ChainedStatementsAreTheLedger | README.md:1227-1231 | any chain of consecutive periods shows every row up to its end once and in order |
| Statements.NeutralRowsChangeNothing | README.md:1216-1220 | an informational row changes no other row's running balance, wherever it stands |
| DocumentedRules.DocumentedExactlyWhen | apps/api/src/customer-payments/customer-payment.service.ts:231-456 | applying unapplied credit does what the README says exactly when the four open amounts agree in the stated way |
| DocumentedRules.PlainOutcome | packages/accounting-core/src/index.ts:300-341 | the call moves just the amount on both sides exactly when the settlement does |
| DocumentedRules.PaymentAcceptedExactlyWhen | apps/api/src/customer-payments/customer-payment.service.ts:1347-1403 | a payment is accepted exactly when the documented conditions hold and every allocation settles evenly in the base and the transaction balance |
| DocumentedRules.CallKeepsInStep | apps/api/src/customer-payments/customer-payment.service.ts:231-1297 | without refunds and note applications base and transaction balances stay equal |
| DocumentedRules.DocumentedWithoutRefundsAndCredits | README.md:1044-1047 | in every such run every later application is as documented |
| DocumentedRules.RefundedCreditIsAppliedAgain | apps/api/src/customer-payments/customer-payment.service.ts:321-335 | a run in which refunded credit settles an invoice against the loss account |
| DocumentedRules.PaidThroughControl | apps/api/src/customer-payments/customer-payment.service.ts:1328-1345 | a run in which nothing is owed and 100 stays on account 120 |
| Unwinding.NextUndo | README.md:1056-1060 | in every state with anything in force some reversal or void is accepted and leaves one thing less |
| Unwinding.Unwind | README.md:1056-1079 | from every state that satisfies the invariant there is a sequence of accepted undo calls that ends with nothing in force |
| Unwinding.UnwoundIsFlat | README.md:942-971 | with nothing in force every account and every contact is at zero |
| Unwinding.EveryRunUnwinds | README.md:908-914 | every run can be undone to zero on every account and for every contact |
| Unwinding.RepeatingChangesNothing | README.md:1060 | finalizing or voiding again is accepted and changes nothing |
| Isolation.HoldsOn | apps/api/src/customer-payments/customer-payment.service.ts:344-383 | what a transaction has claimed, planned and counted under a lock stays true while another commits |
| Isolation.DocumentStaysUnused | apps/api/src/purchase-bills/purchase-bill.service.ts:924-966 | while a document's row is locked it cannot come into use, so counting before the claim is enough there |
| IsolationSteps.StepKeepsHolding | apps/api/src/customer-payments/customer-payment.service.ts:231-1297 | every step of every call locks only free rows and leaves its own claims as its call needs them |
| Serializability.CommitIsClaimed | apps/api/src/customer-payments/customer-payment.service.ts:231-1297 | whatever was stale, a commit is exactly what its call comes to once its claims have succeeded, and finds its row still in force |
| Serializability.InterleavingsAreSafe | README.md:1062-1066 | under every interleaving of all fourteen calls, in the code's order, no record is posted or reversed twice, no once-only call takes effect twice, every account is what the records in force posted, and every balance is what its history leaves and in range |
| Serializability.ClaimedIsSerialExactlyWhen | apps/api/src/customer-payments/customer-payment.service.ts:302-383 | a claimed call is the call itself exactly when its plan, its evenness, its reference and its counts are those of the tables as they are |
| Serializability.CommitIsSerialExactlyWhenFresh | README.md:1062-1066 | in every world any interleaving leads to, a commit is the serial call exactly when what it read without a lock is still so; a credit note's void always is |
| Serializability.InvariantKeptExactlyWhen | apps/api/src/customer-payments/customer-payment.service.ts:1187-1219 | a commit breaks the invariant exactly when it voids a row in use or creates a note beyond its original's total |
| Serializability.FreshInterleavingIsSerial | README.md:1062-1066 | an interleaving without a stale commit leaves exactly the tables of its committed calls one after another |
| Serving.ArrivalIsServed | apps/api/src/sales-invoices/sales-invoice.service.ts:706-769 | whoever else is under way, a call whose rows nobody holds is served by its own steps alone and leaves the tables the call makes of the committed ones |
| Serving.AloneIsServed | apps/api/src/customer-payments/customer-payment.service.ts:231-1297 | for every call and reachable tables some number of steps ends it, with its outcome, committed exactly when it has an effect |
| Serving.EveryRunIsAnInterleaving | README.md:1062-1066 | every run of the services is one of their interleavings, with the same tables and the same calls committed |
| Races.VoidedUnderAnApplication | apps/api/src/customer-payments/customer-payment.service.ts:1187-1219 | an interleaving of a payment void and an application that both commit, leaving an invoice settled by a void payment |
| Races.NoteVoidedUnderAUse | apps/api/src/purchase-debit-notes/purchase-debit-note.service.ts:595-615 | an interleaving of a debit note void and its application that both commit, leaving a bill reduced by a void note |
| Races.SettledOnAStalePlan | apps/api/src/supplier-payments/supplier-payment.service.ts:797-870 | an interleaving in which a settlement planned before a credit was taken back leaves 20 owed and a loss of 20, where the same calls in turn close the bill plainly |
| Reports.AggregateLines | apps/api/src/reports/reports.service.ts:2293-2303 | the map holds every account's debit and credit totals |
| Reports.BuildRows | apps/api/src/reports/reports.service.ts:1659-1688 | the rows of the trial balance, quiet accounts left out unless asked for |
| Reports.TrialBalance | apps/api/src/reports/reports.service.ts:1690-1724 | rows and all six column totals; the period columns are the period's lines, the opening ones agree exactly when the opening lines balance, and the flag is true exactly when all lines do |
| Reports.ByAccountIsByLine | apps/api/src/reports/reports.service.ts:1659-1724 | adding up anything by account and by line comes to the same when every line is on one listed account |
| Reports.TrialBalanceAgreesExactlyWhen | apps/api/src/reports/reports.service.ts:1690-1724 | quiet accounts left out or not: the period columns show every line once, opening and closing columns agree exactly when their lines balance |
| Reports.RowsShowAccounts | apps/api/src/reports/reports.service.ts:1659-1688 | every row shows its account's opening and closing balance in one column, on the side it stands on, and its movements; exactly the active listed accounts, or all on request, have one row each |
| Reports.RowsInOrder | apps/api/src/reports/reports.service.ts:1659-1688 | the rows stand in the order of the accounts |
| Reports.LineInItsSection | apps/api/src/reports/reports.service.ts:1771-1790 | a line counts in the section of its account's type and in no other, debits up in assets and expenses and credits up in the rest |
| Reports.LineInNetProfit | apps/api/src/reports/reports.service.ts:1726-1758 | a line on a profit-and-loss account counts in the net profit, credits up, and no other line does |
| Reports.DatedWithin | apps/api/src/reports/reports.service.ts:1144-1164 | a report covers exactly the lines of entries dated on or between its days |
| Reports.PeriodsAddUp | apps/api/src/reports/reports.service.ts:534-545 | the opening lines and the period's lines are all lines up to the period's end |
| Reports.BalanceSheetAgreesExactlyWhen | apps/api/src/reports/reports.service.ts:1771-1813 | assets equal liabilities, equity and retained earnings exactly when the lines balance as a whole |
| Reports.ReportsBalance | README.md:1360-1384 | in every reachable state both reports balance for every range of dates, reversed entries and their reversals included |
| NumberSequences.PaddedReadsBack | apps/api/src/number-sequences/number-sequence.service.ts:215-217 | padding never hides which number it is |
| NumberSequences.SamePrefixIsInjective | apps/api/src/number-sequences/number-sequence.service.ts:215-217 | under one prefix equal document numbers are equal numbers, whatever the paddings |
| NumberSequences.PrefixesClashExactlyWhen | apps/api/src/number-sequences/number-sequence.service.ts:162-187 | two valid prefixes can produce the same document number exactly when one extends the other by digits that some number within the 32-bit column starts with |
| NumberSequences.IssuedNumbersAreDistinct | apps/api/src/number-sequences/number-sequence.service.ts:45-63 | while the prefix is kept and no write lowers the number, no document number is issued twice |
| NumberSequences.UpdateTakesEffect | apps/api/src/number-sequences/number-sequence.service.ts:98-106 | an accepted update shows in the next document number: its prefix, its number and its padding, and the rest as before |
| NumberSequences.UpdateRefused | apps/api/src/number-sequences/number-sequence.service.ts:162-213 | one that lowers the number or asks for an impossible prefix or padding changes nothing |
| NumberSequences.LateWriteIssuesAgain | apps/api/src/number-sequences/number-sequence.service.ts:98-106 | one written later sets the number back exactly when the sequence has moved past it, and then numbers repeat |
| Tlv.Parse | scripts/zatca-c14n11-helper.java:236-240 | accepts exactly the concatenations of nine records with tags 1 to 9 and returns their values; an index error only near the largest array |
| Tlv.ReadRecord | scripts/zatca-c14n11-helper.java:238 | reads one record and moves past it, or fails when nothing readable starts there |
| Tlv.ReadLength | scripts/zatca-c14n11-helper.java:238 | reads a short, one-byte or two-byte length |
| Tlv.DecodeInvertsEncode | scripts/zatca-c14n11-helper.java:236-240 | decoding any encoding of records returns them |
| Tlv.DecompositionIsUnique | scripts/zatca-c14n11-helper.java:236-240 | a payload is the encoding of one list of records only |
| Tlv.RecordOrderIsIrrelevant | scripts/zatca-c14n11-helper.java:236-240 | the order of the records does not change the values |
| Tlv.CompleteWhenAllTags | scripts/zatca-c14n11-helper.java:239 | all nine slots are filled exactly when the records are a payload |
| Tlv.UnreadableIsFatal | scripts/zatca-c14n11-helper.java:238 | once a record cannot be read no continuation makes the bytes a payload |
| Der.DerElement | scripts/zatca-c14n11-helper.java:243 | with 32-bit arithmetic, returns exactly the element at the offset, or fails, or a negative end |
| Der.ReadLongLength | scripts/zatca-c14n11-helper.java:243 | the length loop computes the big-endian length wrapped to 32 bits |
| Der.AuthoritySignature | scripts/zatca-c14n11-helper.java:242 | returns the signature bits exactly for bytes shaped as a certificate, and throws otherwise |
| Der.ElementsAreNested | scripts/zatca-c14n11-helper.java:242 | on success the three elements are consecutive, inside the outer one, and end where it ends |
| Der.SignatureOfWritten | scripts/zatca-c14n11-helper.java:242 | the signature of any written certificate is the one written into it |
| Der.WholeIsWritten | scripts/zatca-c14n11-helper.java:243 | an element is found exactly where one is written |
| Xml.ThreePassesAreOne | scripts/zatca-c14n11-helper.java:257 | the three removals in turn are one top-down pruning |
| Xml.PrunedIsClean | scripts/zatca-c14n11-helper.java:257 | the result holds no excluded node at any depth |
| Xml.PruneFixesCleanOnly | scripts/zatca-c14n11-helper.java:257 | pruning changes nothing exactly when there is nothing excluded, so pruning twice is pruning once |
| Xml.PruneUndoesEnveloping | scripts/zatca-c14n11-helper.java:105-107 | pruning gives back an invoice exactly when the signed one is that invoice with excluded subtrees put in |
| Xml.SameHashInput | scripts/zatca-c14n11-helper.java:105-107 | documents that envelop the same invoice have the same hash input |
| Xml.DropIsPruneExactlyWhen | scripts/zatca-c14n11-helper.java:257 | for a document and its parts, dropping top down and removing in the code's order agree exactly when no reference's QR reading changes under pruning |
| Xml.PlainIdsAgree | scripts/zatca-c14n11-helper.java:257 | where ids hold no elements no reading changes |
| Xml.TrimTakesBlanks | scripts/zatca-c14n11-helper.java:248 | trimming takes away what is blank at either end and nothing else |
| Xml.NestedReferenceTellsThemApart | scripts/zatca-c14n11-helper.java:257-258 | an input on which they do not |
| LiveList.MemberStays | scripts/zatca-c14n11-helper.java:258 | when the loop visits an index, the live list still holds the original item there |
| LiveList.VisitMember | scripts/zatca-c14n11-helper.java:258 | visiting one item extends the pruning by exactly that item |
| Dom.CutIsLinked | scripts/zatca-c14n11-helper.java:259 | unlinking a node leaves the links of a tree without its subtree |
| Dom.XmlDocument.Remove | scripts/zatca-c14n11-helper.java:259 | the document loses exactly that node's subtree |
| Dom.XmlDocument.RemoveMembers | scripts/zatca-c14n11-helper.java:258 | the backward loop over the live list never meets a missing item and leaves the pruned tree |
| Dom.XmlDocument.RemoveExcludedNodes | scripts/zatca-c14n11-helper.java:257 | the document's content becomes the pruned content |
| Dom.UnsignedCopy | scripts/zatca-c14n11-helper.java:105-106 | the clone holds the hash input and the original is untouched |
| DocumentElements.HasDuplicateIds | scripts/zatca-c14n11-helper.java:254 | true exactly when two id attributes of the document share a value |
| DocumentElements.UniqueIdElement | scripts/zatca-c14n11-helper.java:253 | returns the only candidate with the id, or nothing when there is none or more than one |
| DocumentElements.IdNamesOneElement | scripts/zatca-c14n11-helper.java:72-101 | after the duplicate check no non-empty id names two elements |
| DocumentElements.FoundExactlyWhenThere | scripts/zatca-c14n11-helper.java:99-101 | so the lookup finds an element exactly when one has the id, and never takes its second-match exit unless the id is empty |
| DocumentElements.IdsAreValues | scripts/zatca-c14n11-helper.java:254 | the ids that are compared are the values of the attributes called `Id`, `ID` or `id` |
| DocumentElements.SiblingsInOrder | scripts/zatca-c14n11-helper.java:251 | elements are listed sibling after sibling, |
| DocumentElements.HoldsWhatFollows | scripts/zatca-c14n11-helper.java:251 | and each right before what it holds |
| DocumentElements.DirectIsFirst | scripts/zatca-c14n11-helper.java:250 | `direct` finds exactly the first child with the name |
| DocumentElements.DescendantIsOnly | scripts/zatca-c14n11-helper.java:251 | `descendant` finds exactly the only element below with the name |
| DocumentElements.TextInOrder | scripts/zatca-c14n11-helper.java:248 | the text of an element is that of its text nodes and elements in order, without comments |
| DocumentElements.CleanExactly | scripts/zatca-c14n11-helper.java:257 | the hash input is unchanged exactly when no element is an extension, a signature or a reference whose first id says QR |
| QrBinding.FiguresExactly | scripts/zatca-c14n11-helper.java:212-221 | the figures compared are those the invoice shows: seller through the first party, entity and name, the rest where it stands only once, and the first of the tax amounts |
| QrBinding.PayloadExactly | scripts/zatca-c14n11-helper.java:205-211 | the bytes parsed are the decoded text of the only object in the only reference whose first id says QR |
| QrBinding.FindQrReference | scripts/zatca-c14n11-helper.java:207 | the loop finds the only QR reference and reports a second one exactly when there is one |
| QrBinding.SlotsBind | scripts/zatca-c14n11-helper.java:222-230 | the nine slots say what they must exactly when the records of the payload do, however it is read |
| QrBinding.CompareRecords | scripts/zatca-c14n11-helper.java:222-231 | no mismatch exactly when all nine values bind, the ninth to the bits in the certificate; otherwise the code of the first that does not |
| QrBinding.QrProblem | scripts/zatca-c14n11-helper.java:204-232 | nothing is wrong exactly when the one QR reference carries a payload of nine records that say what the invoice, its hash, its signature and its certificate say |
| SignatureVerifier.ResolveReferences | scripts/zatca-c14n11-helper.java:86-98 | succeeds exactly for one empty URI and one fragment, and says which is which; otherwise says whether the first it cannot place is external |
| SignatureVerifier.VerifySerialized | scripts/zatca-c14n11-helper.java:64-142 | valid exactly when the source is acceptable and the parsed document satisfies every condition on its own elements, pruned content, certificate and QR records; every flag is set exactly when its check and those before it passed, and a status that belongs to one check names the first that did not |
| SignatureVerifier.SignatureProblem | scripts/zatca-c14n11-helper.java:76-85 | nothing is wrong exactly when the only signature has the expected id, parts and algorithms |
| SignatureVerifier.ReferencesProblem | scripts/zatca-c14n11-helper.java:86-103 | nothing is wrong exactly when there is one approved reference of either kind, in either order, and the properties it names are there |
| SignatureVerifier.ApprovedDocumentTransforms | scripts/zatca-c14n11-helper.java:161-169 | true exactly for the three exclusions and then the canonicalisation |
| SignatureVerifier.CheckReferences | scripts/zatca-c14n11-helper.java:86-104 | passes exactly when the references are approved, and only then sets the flag |
| SignatureVerifier.CheckDigests | scripts/zatca-c14n11-helper.java:105-110 | passes exactly when the claimed digests are those of the pruned document and of the signed properties |
| SignatureVerifier.CertificateProblem | scripts/zatca-c14n11-helper.java:171-180 | nothing is wrong exactly when digest, issuer and serial number name the certificate |
| SignatureVerifier.CheckCertificate | scripts/zatca-c14n11-helper.java:111-115 | passes exactly when the embedded certificate is on the curve and named by the signed properties, and returns it |
| SignatureVerifier.CheckSignature | scripts/zatca-c14n11-helper.java:116-124 | passes exactly when the certificate's key signed the canonical signed info, and sets the flag only then |
| SignatureVerifier.CheckQr | scripts/zatca-c14n11-helper.java:125-132 | ends valid exactly when the QR code binds the hash of the pruned document, and in one failure otherwise |
| SignatureVerifier.SignedPropertiesAreTheNamed | scripts/zatca-c14n11-helper.java:99-101 | in an accepted document no second element can stand in for the signed properties that were digested |
| SignatureVerifier.AcceptedMeans | scripts/zatca-c14n11-helper.java:64-142 | acceptance ties together: the payload decomposes, its sixth record is the pruned document's hash that the reference claims, its ninth the certificate's signature bits |
| SignatureVerifier.AcceptedRestsOn | scripts/zatca-c14n11-helper.java:76-124 | what acceptance rests on element by element: signature, references, properties, the hashes they claim, the certificate that names and signs them |
| SignatureVerifier.DescribedExactly | scripts/zatca-c14n11-helper.java:76-85 | the signature looked at is the document's only one, with its first signed info and value and the first methods named in it |
| SignatureVerifier.SourceExactly | scripts/zatca-c14n11-helper.java:67-69 | accepted sources have 1 to 2097152 bytes and neither word anywhere in their text |
| SignatureVerifier.EnvelopingsClaimOneHash | scripts/zatca-c14n11-helper.java:105-107 | all accepted envelopings of one invoice claim the hash of that invoice |
| SignatureVerifier.FailWith | scripts/zatca-c14n11-helper.java:133-141 | each of the four handlers ends in its own status and code |
| SingleFlight.Flight.Get | apps/api/api/single-flight.ts:4-10 | the caller gets the cached attempt, or a new one that is then cached |
| SingleFlight.Flight.Catch | apps/api/api/single-flight.ts:5-8 | the callback clears the variable, which can only hold its own attempt |
| SingleFlight.OneInFlight | apps/api/api/single-flight.ts:1-11 | after any events at most one attempt is unfinished, and a pending callback is the cached attempt's |
| SingleFlight.CallersShare | apps/api/api/single-flight.ts:4-10 | callers get the same attempt until a callback has run |
| SingleFlight.SuccessIsForever | apps/api/api/single-flight.ts:1-11 | after a success the factory is never called again and everyone gets that value |
| SingleFlight.RetriesFollowFailures | apps/api/api/single-flight.ts:5-8 | the factory has been called once more than it has failed, or exactly as often when nothing is cached |
| FixtureRunner.Parse | apps/api/scripts/dev04-fixture-runner.ts:287-401 | the loop with its skipping index computes the options of the items it reads |
| FixtureRunner.AbsorbedFacts | apps/api/scripts/dev04-fixture-runner.ts:309-381 | switches are set exactly when they were parsed, and values are the last ones parsed |
| FixtureRunner.Run | apps/api/scripts/dev04-fixture-runner.ts:1136-1176 | help, a printed plan and the executor are reached each exactly under its conditions on what was parsed, the executor with the URL that was classified and a plan that enables it |
| FixtureRunner.ExecutesOnlyWhenAsked | apps/api/scripts/dev04-fixture-runner.ts:316-390 | a run executes only if its arguments hold `--execute` and all six approval flags, and `--dry-run` or `--cleanup-plan` at most as another flag's value |
| FixtureRunner.CommandLineReadsBack | apps/api/scripts/dev04-fixture-runner.ts:309-381 | reading a command line undoes writing it, for any known flags in any order with their values in either form |
| FixtureRunner.BlanksChangeNothing | apps/api/scripts/dev04-fixture-runner.ts:303-307 | blank arguments and `--` are passed over |
| FixtureRunner.OnlyKnownFlags | apps/api/scripts/dev04-fixture-runner.ts:309-381 | when the arguments can be read, each is blank, a value of the flag before it, or a flag that is known and allowed |
| FixtureRunner.CommandExecutes | apps/api/scripts/dev04-fixture-runner.ts:316-390 | a command line with the flag for execution, the six approvals, a fitting marker and a local database is executed |
| FixtureRunner.MarkersOfFamilies | apps/api/scripts/dev04-fixture-runner.ts:939-970 | a `DEV03-` marker fits just the plan of its own family, or that of all |
| FixtureRunner.Connects | apps/api/scripts/dev04-fixture-runner.ts:544-557 | a run reaches a connection exactly when it may execute and its marker is not of the `DEV04-` family, and then to the local URL parsed last |

## Left out

- Foreign currency, exchange rates and FX revaluation: the subledger is modelled at rate one; the
  paths with a rate, a carrying basis or a rounding residue are not part of this model.
- Line arithmetic: rounding, discounts and the tax modes; a line carries its taxable amount and tax.
- Editing and deleting drafts, idempotency keys, fiscal periods, permissions, tenants, audit logs and
  unique indexes.
- Receivable and payable books run separately, each with its own accounts; bank, inventory valuation,
  payroll and cash-expense postings are not in the journal.
- Row ids are positions, and a journal entry's id is assigned when its transaction commits.
- Dates inside the subledger: ledger rows are taken in any order, and report dates are given to the
  entries from outside.
- Purchase returns and cash expenses in the supplier ledger: neutral rows, which
  `NeutralRowsChangeNothing` covers.
- SELECT ... FOR UPDATE is modelled for document voids only; the locks settlements and credit
  applications take the same way are left out, which allows more interleavings than the database does.
  Edits of drafts take no part in them.
- Lock waits are steps that do nothing, and deadlocks are broken by giving a transaction up; fairness
  is not modelled.
- FixtureRunner.Run: text patterns and URL classification are parameters, and what the executor writes
  is left out.
- Canonicalisation, SHA-256, ECDSA, X.509 decoding, base64, text decoding and the comparisons of
  amounts, issuers and serial numbers are arbitrary functions, the same for the same input; the parser's
  outcome, a document or an exception with its code, is given. The
  error code beside a status is stated for `FailWith` and the QR comparisons only.
- Issuing or setting a number that the 32-bit column cannot hold.
- DOM nodes are ids with child lists and parents; removal relinks them in place, aliasing between
  documents is not modelled beyond the clone.
- The ZATCA onboarding, custody and evidence endpoints, storage, email and the web client.
