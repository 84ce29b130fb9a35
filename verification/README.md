# Marketplace bot: verified model

A Dafny model of the ticket, ledger, membership and token logic of the marketplace bot and its API, with proofs of
what that logic promises over all inputs, all runs and, where calls overlap, all interleavings.
`dafny verify dfyconfig.toml` checks the whole project.

## What is modelled

| file | part of the system |
|---|---|
| `Text.dfy`, `Decimal.dfy`, `Money.dfy`, `TicketId.dfy`, `CardNumber.dfy`, `Validation.dfy` | the codecs and scanners: text normalisation, amounts in minor units, ticket ids, the payment-card scan, receipts and withdrawal forms |
| `Catalog.dfy`, `Records.dfy`, `Approvals.dfy` | ticket types, status graphs, one record and every step that changes it, with the service's guards |
| `Store.dfy`, `TicketService.dfy`, `Totals.dfy` | the ticket table, the payment ledger and the number counter: as values, and as a repository class and a service class whose methods are proved to do what the value functions say |
| `Authority.dfy`, `Creation.dfy`, `Effects.dfy` | who may act, when each call succeeds and what it then changes, on the fields of the actor, the input and the ticket, without the functions the model is made of |
| `SequentialRuns.dfy`, `PaymentRules.dfy`, `Payout.dfy` | runs of uninterrupted calls, when a payment succeeds and when a sale is paid once, and a withdrawal from its opening to its payment |
| `Interleaving.dfy`, `InterleavedResults.dfy`, `StaleWrites.dfy`, `Embedding.dfy` | any number of calls in flight, every read, check and write a step of its own; exactly which writes break what uninterrupted calls keep |
| `RecordInvariants.dfy`, `Screening.dfy`, `StoredAmounts.dfy`, `Paths.dfy`, `Identities.dfy` | an induction principle for stored records under every interleaving; what the screen keeps out of the tables and what it does not; every log is a path of its workflow; what an id tells |
| `Stamps.dfy` | approval stamps over runs and interleavings |
| `Witnesses.dfy` | concrete runs from the empty tables |
| `Roles.dfy`, `Reconcile.dfy` | member tiers, exclusive grants, and the repair of stored tiers |
| `RefreshTokens.dfy`, `SaasToken.dfy` | single-use refresh on the server, and the client side of a strict rotation that survives restarts |
| `Keyset.dfy`, `Confirmations.dfy`, `JoinWindow.dfy`, `Itoa.dfy` | keyset pages, the confirmation prompts, the raid window, integer printing |
| `Wrappers.dfy`, `Sets.dfy` | optional values, results, and one fact about finite sets |

The two ticket models answer different questions. In `SequentialRuns` a call runs to its end before the next begins;
that is where the ledger mirrors the tickets, logs only grow, closed is final and the quota holds. In `Interleaving` a
call may save a record computed from a row that has changed since; what survives there is stated in
`InterleavedResults`, and `StaleWrites` says for each of those four properties exactly when a run keeps it.
`Embedding` shows that every sequential run is one of the interleavings, so whatever the first model reaches the second
reaches too.

## Assumptions

- A list of rows, a clock reading, the answer of a remote service, a freshly minted token, the success of a write and
  the entry a map iteration visits first are inputs of the model: the results hold whatever they are, except where a
  lemma says what it needs.
- Text is a sequence of code points, and a Go string is taken to be valid UTF-8. `len` is the number of UTF-8 bytes.
  Case mapping is exact for ASCII and for the four other code points that map to an ASCII letter; all others stay.
- Times are milliseconds since the epoch, so a stored time always parses and is never the zero time (the token expiry
  of `SaasToken` can be absent). Numbers are mathematical integers except where a bound of 64 bits is part of the
  behaviour: parsed amounts and `Itoa`.
- Statuses, ticket types and role names are enumerations with a last constructor for every name the catalog does not
  know. `Lexicon` stands for the tables the model does not spell out: Unicode letters, decimal digits beyond ASCII, and
  every finding of the sensitive-input screen other than a card number.
- The database executes one statement atomically, keeps its unique keys, and commits or rolls back the payment
  transaction as a whole. Stored JSON and cursors decode to what was encoded. `Save`, a lookup and a write in the
  source, is one atomic row write here. Lists come in the order of insertion.
- Token hashes do not collide, and a server never issues a token twice.

## Where the code differs from what one might expect

- README.md:72 says that one sale cannot be recorded twice. The code makes the receipt and the ticket single-use, not
  the sale. `PaymentRules.PaidExactlyWhenPayable` gives the exact condition for a payment,
  `PaymentRules.SalesPaidOnceExactly` the exact condition under which a run pays each sale once, and
  `Witnesses.SomeSaleIsPaidTwice` a run that pays one sale twice.
- A paid withdrawal need not carry an approval stamp: the generic status change reaches `approved` too.
  `Stamps.StampedIff` and `Stamps.StampedExactly` say exactly when the stamp is there,
  `Witnesses.SomePaymentIsUnstamped` gives a run.
- A closed ticket still takes a claim, a handoff and a resolution: `Approvals.ClosedAdmitsExactly`.
- With calls in flight a save from a stale row can erase a payment and part of a log, open a closed ticket again, and
  exceed a quota. `StaleWrites.MirroredExactly`, `HistoryExactly`, `ClosingExactly` and `QuotaExactly` say exactly when;
  `Witnesses.SomePaymentIsErased`, `SomeClosedTicketReopens` and `SomeQuotaIsExceeded` give schedules from the start.
- Create screens a withdrawal as it was typed and stores it reworded, so a stored amount can show digits in which the
  screen finds a card number although it found none in what was typed: `StoredAmounts.StoredAmountCanShowCard`. The
  fields of all other tickets, and every reason, resolution and receipt, are stored as they were screened:
  `Screening.StoredTicketsAreClean`.
- A grant of a tier takes the rival role away before it adds the new one, and ignores a removal that fails. So verify
  and seller approval can lower a member's tier, or leave two member roles. `Roles.GrantKeepsExactly` and
  `Roles.TiersKeptExactly` say exactly when they do neither; `Roles.FailedAddDemotes` and
  `Roles.FailedRemovalConflicts` are one case each.
- Two roles of the same name count as a tier conflict: `Roles.DuplicateRoleConflicts`.
- An amount printed under a non-canonical spelling of a currency without decimals, or under a spelling with a letter
  beyond ASCII, does not read back: `Money.RoundTripExactly`; `Money.LowerCaseYenDoesNotReadBack` is one.
- A receipt typed with letters beyond ASCII can be refused for its length in bytes while its canonical spelling is
  accepted: `Validation.SpellingsAgree`.
- A row stored by a grant that could not remove a rival role names a tier the roles no longer show, and reconciliation
  leaves it alone: `Reconcile.GrantedRowIsSettled`.
- The least 64-bit integer prints as a lone sign: `Itoa.Format`.

## Model

| member | source | states |
|---|---|---|
| Text.NormalizeIdempotent | modules/ticket/workflow.go:138-140 | normalising a text twice is normalising it once; the result is trimmed, free of control characters and never longer in bytes |
| Text.StripExactly | modules/ticket/workflow.go:138-140 | character by character, exactly the controls but tab and line feed, the zero-width characters and the bidirectional marks go, and all others stay in order |
| Text.NormalizeExactly | modules/ticket/workflow.go:138-140 | a visible text between blanks normalises to itself, whatever invisible character is put into it |
| Money.ParseAmountExact | modules/ticket/withdrawal.go:80-110 | an amount is accepted if and only if it is in the decimal grammar, at most 40 bytes, and its scaled value lies in 1..2^63-1; that value is the answer |
| Money.SpellingsAre | modules/ticket/withdrawal.go:80-110 | the grammar is digits, with no zero in front of another digit, and in a currency with decimals a dot and one or two digits if need be |
| Money.OneAndAHalf | modules/ticket/withdrawal.go:80-110 | "1.5" is 150 cents and prints as "1.50"; it is no amount of yen |
| Money.MoneyRoundTrip | modules/ticket/withdrawal.go:58-110 | printing then parsing gives back amount, currency and display, for every positive 64-bit amount and canonical currency |
| Money.RoundTripExactly | modules/ticket/withdrawal.go:58-110 | for any accepted spelling of a currency the round trip holds if and only if it is in ASCII letters and a currency without decimals is written canonically |
| Money.LowerCaseYenDoesNotReadBack | modules/ticket/withdrawal.go:58-110 | five yen under "jpy" print with decimals, which the parser refuses |
| Money.FormatReads | modules/ticket/withdrawal.go:68-78 | a printed amount is a text of the grammar that denotes the amount it was printed from |
| Money.DisplayIsCanonical | modules/ticket/withdrawal.go:80-110 | the display of an accepted amount is itself accepted, as the same amount |
| Money.DisplayInjective | modules/ticket/withdrawal.go:68-78 | two amounts of one currency never print alike |
| TicketId.ParseIDExact | modules/ticket/id.go:10-38 | an id parses if and only if it has the pattern's shape, and then to its only reading |
| TicketId.IdRoundTrip | modules/ticket/id.go:13-38 | a formatted id gives back code, region, user and number, even when the user part has hyphens and digits |
| TicketId.SerialOfFormat | modules/ticket/id.go:13-26 | the trailing number of an id is the number it was built from, so ids of different numbers differ |
| TicketId.RegionExactly | modules/ticket/id.go:13-26 | a listed region goes into the id trimmed and in upper case, anything else as XX |
| TicketId.KeptExactly | modules/ticket/id.go:13-26 | of the ASCII characters of a user name exactly letters, digits, dots, underscores and hyphens are kept, letters in lower case |
| TicketId.UserExactly | modules/ticket/id.go:13-26 | the user part is the first twenty characters kept, or "member" when there are none |
| TicketId.SomeId | modules/ticket/id.go:13-26 | the 125th ticket, a withdrawal of Alex in Indonesia, is WD-ID-alex-00125 |
| CardNumber.HasCardNumber | modules/ticket/safety.go:28-76 | the loop over runs and buffers finds exactly what `HasCardExactly` describes: a string of 13 to 19 digits, not starting with zero, whose Luhn sum is divisible by ten, in a piece between digits beyond ASCII |
| CardNumber.Flush | modules/ticket/safety.go:42-61 | the right-to-left accumulation computes the sum that `LuhnIsAnnexB` ties to ISO/IEC 7812-1, Annex B, and judges length and first digit |
| CardNumber.LuhnIsAnnexB | modules/ticket/safety.go:42-61 | the sum is the one worked out by hand from the right: the last digit, then the digit before it doubled, less nine from five on, and so on in pairs |
| CardNumber.HasCardExactly | modules/ticket/safety.go:28-76 | a text has a card number if and only if between two digits beyond ASCII, or the ends, its digits are 13 to 19, do not start with zero, and that sum is divisible by ten |
| CardNumber.KnownCardIsFound | modules/ticket/safety.go:28-76 | 4111111111111111 is found and 4111111111111112 is not |
| CardNumber.OnlyDigitsCount | modules/ticket/safety.go:28-76 | without digits beyond ASCII the verdict depends on the subsequence of digits alone: letters break nothing |
| CardNumber.SingleDigitErrorDetected | modules/ticket/safety.go:28-76 | a text with a card number never keeps one when a single digit changes |
| CardNumber.AdjacentSwapDetected | modules/ticket/safety.go:28-76 | swapping neighbouring digits is noticed exactly unless they are equal or 0 and 9, or when a zero comes first |
| Validation.AcceptedTextStable | modules/ticket/workflow.go:142-168 | an accepted text validates again to itself and stays a valid resolution |
| Validation.TextExactly | modules/ticket/workflow.go:142-168 | a text is accepted as its normal form, unless it is over 900 bytes, empty, or holds a card number or another finding, in that order |
| Validation.ReferenceExactly | modules/ticket/withdrawal.go:112-137 | which receipts are accepted, character by character, and which are refused as sensitive, as a bank account or as a wallet |
| Validation.ReferenceCanonical | modules/ticket/withdrawal.go:112-137 | an accepted receipt validates again to itself and is neither a card number nor an account |
| Validation.SpellingsAgree | modules/ticket/withdrawal.go:112-137 | a spelling is accepted, and as the same receipt, exactly when its canonical spelling is and the typed text is at most two bytes over the limit |
| Validation.CleanFormStable | modules/ticket/withdrawal.go:139-173 | an accepted withdrawal form asks for a positive 64-bit amount in a supported currency, and resubmitting the cleaned form changes nothing |
| Catalog.TransitionStaysInGraph | modules/ticket/workflow.go:21-116 | a generic move stays in the graph, leaves no closed ticket, and never leads to paid or back to open |
| Catalog.ClosableInThree | modules/ticket/workflow.go:21-116 | from every status at most three generic moves reach closed |
| Records.ScanForReference | modules/ticket/withdrawal.go:232-237 | the loop over the loaded tickets finds the receipt exactly when one shows it |
| Records.NewRecordGood | modules/ticket/record.go:69-83 | a new record replays from its log and satisfies the record invariant |
| Records.DecideKeeps | modules/ticket/record.go:85-161 | every successful step keeps the record invariant, adds one event, and leaves untouched what was fixed at creation, paid, approved or closed |
| Records.DecideNeverPays | modules/ticket/service.go:214-315 | no call other than a payment makes or changes a payment |
| Records.PayKeeps | modules/ticket/withdrawal.go:219-254 | a payment starts from an approved and unpaid record, keeps the invariant, and books a receipt no loaded ticket shows |
| Authority.DeniedCall | modules/ticket/service.go:82-90 | an update or payment by a bot, by nobody, by a member who is neither owner nor administrator, or by the opener, changes nothing and says why |
| Authority.OutsidersDoNotMatter | modules/membership/verify.go:88-93 | a run leaves what it leaves without the calls of outsiders |
| Authority.OutsidersDoNotInterfere | modules/membership/verify.go:88-93 | so does every interleaving without the steps of their calls |
| Authority.NoOutsiderInFlight | modules/ticket/service.go:82-90 | under every interleaving an update or payment in flight is by the owner or an administrator, not a bot, and not the opener |
| Effects.UpdatedExactly | modules/ticket/service.go:214-392 | an update succeeds if and only if the ticket exists, the actor may act on it, and the ticket admits the action; no table ever refuses the write |
| Effects.UpdateRefused | modules/ticket/record.go:85-161 | otherwise nothing changes and the answer is the first reason that applies |
| Effects.UpdateEffect | modules/ticket/record.go:85-161 | what a successful claim, handoff, resolution, status change, withdrawal approval or seller approval changes on the stored ticket, the event it logs, and that nothing else changes |
| Effects.PaymentEffect | modules/ticket/withdrawal.go:219-254 | what a successful payment writes to the ticket, its log and the ledger, field by field |
| Effects.PaymentRefused | modules/ticket/service.go:317-370 | a payment that is not booked changes nothing; the answer is the first reason that applies, and a booked receipt is a duplicate wherever it was found |
| Effects.PaymentAddsUp | modules/ticket/repository.go:155-176 | a payment adds what its ticket asked for to the total of that currency, and to no other |
| Effects.AssignedToTheLast | modules/ticket/record.go:85-123 | over every run a ticket is assigned to the actor of the last successful claim or the target of the last successful handoff, and carries the last successful resolution |
| Approvals.PaidIsStampedIff | modules/ticket/withdrawal.go:188-217 | one record under any successful calls: approved or showing a payment, it carries a stamp if and only if no call approved it generically, whatever the lists said |
| Stamps.StampedIff | modules/ticket/service.go:278-370 | over any run a withdrawal that is approved or shows a payment, closed or not, carries a stamp if and only if no successful call approved it through the generic status change |
| Stamps.PaidWithoutStampOnTables | modules/ticket/service.go:278-370 | any open withdrawal can be approved generically and then paid by the service calls, and ends without a stamp |
| Stamps.StampedExactly | modules/ticket/service.go:278-370 | under every interleaving all such withdrawals carry a stamp at all times if and only if no generic approval is ever saved, stale saves or not |
| Stamps.StampedUnderInterleaving | modules/ticket/service.go:299-370 | so they do in every interleaving without a generic approval |
| Approvals.ClosedAdmitsExactly | modules/ticket/record.go:85-161 | which calls still succeed on a closed ticket: a claim when unassigned, a handoff, a valid resolution, nothing else |
| Store.OneRowPerTicket | migrations/postgres/000002_discord_marketplace.up.sql:67-68 | in sound tables two rows of one ticket or one receipt are the same row |
| Store.SaveKeepsSound | modules/ticket/repository.go:47-61 | a whole-row save keeps the tables sound however stale the row it was computed from |
| Store.SavePaymentKeepsSound | modules/ticket/repository.go:132-154 | so does the commit of a payment, which writes both rows or none |
| Store.DraftIsOfType | modules/ticket/service.go:92-145 | what Create prepares carries the workflow of its type, and a positive 64-bit request exactly on a withdrawal |
| Creation.PreparedExactly | modules/ticket/service.go:92-145 | a ticket is prepared if and only if its type is known, the member may open it, the region exists, every required field was filled in or has a stand-in, and no field holds a secret; what it then holds |
| Creation.WithdrawalPreparedExactly | modules/ticket/withdrawal.go:139-173 | a withdrawal is prepared if and only if a Seller without restriction typed exactly the five fields, none with a secret, with a known region, an amount, a receipt and a payment method; the request and form it then holds |
| Creation.CreatedExactly | modules/ticket/service.go:92-177 | Create succeeds if and only if the ticket can be prepared, the member has fewer than three open tickets and none of the type, another admin is available, and no ticket has the thread |
| Creation.CreateEffect | modules/ticket/service.go:147-177 | the one row a successful Create adds, field by field, under a new id and the next number |
| Creation.RefusedCreate | modules/ticket/service.go:147-177 | a refused Create changes nothing, except that a clash of threads is found out after the number was taken |
| Screening.SecretInputRefused | modules/ticket/service.go:135-137 | Create refuses an input with a card number or another finding in a field, and stores nothing |
| RecordInvariants.HoldsInEveryInterleaving | modules/ticket/service.go:92-392 | what holds of every new record and is kept by every decision and payment holds of every stored record under every interleaving |
| Screening.StoredTicketsAreClean | modules/ticket/safety.go:28-107 | under every interleaving no field of a stored ticket other than a withdrawal, and no reason, resolution or receipt of any, holds a card number or another finding |
| Screening.RunsStoreNothingSecret | modules/ticket/safety.go:28-107 | so in every run, with the sale reference and the payment method of a withdrawal |
| StoredAmounts.StoredAmountCanShowCard | modules/ticket/service.go:135-145 | a typed amount in which the screen finds nothing is stored with a second decimal, and the screen finds a card number in that |
| Identities.IdsTell | modules/ticket/id.go:13-38 | under every interleaving the id of a stored ticket, up to sixteen digits of its number, parses to the code of its type and of no other, its region and its number |
| Paths.LogsArePaths | modules/ticket/workflow.go:21-116 | under every interleaving the log of a stored ticket is a path along the edges of its workflow from open to its status |
| Paths.NothingSkipped | modules/ticket/workflow.go:21-69 | a transaction in delivery has a confirmed payment in its log, an approved or paid withdrawal the step from open to approved, and a closed ticket an outcome |
| Store.ListedExactly | modules/ticket/repository.go:85-107 | the lists hold exactly the open tickets, and exactly the tickets of one opener, each once and in the order of the table |
| Store.BuildTicketGood | modules/ticket/service.go:147-177 | the record Create builds is good, unpaid, open, its opener's, and its id ends in its number |
| Totals.LedgerAsTickets | modules/ticket/repository.go:155-176 | a sum over ledger rows is the sum over the tickets they pay, when no ticket has two rows |
| Totals.TotalNext | modules/ticket/repository.go:155-176 | one more row adds its amount to the total of its currency, and to no other |
| TicketService.Repository.NextSeq | modules/ticket/repository.go:23-45 | each number is one more than the last, and nothing else changes |
| TicketService.Repository.Save | modules/ticket/repository.go:47-61 | inserts or overwrites one row, or refuses a thread that another ticket has and changes nothing |
| TicketService.Repository.SavePayment | modules/ticket/repository.go:132-154 | ticket row and ledger row together, or, on any clash, neither: the first write is rolled back |
| TicketService.Repository.Select | modules/ticket/repository.go:85-107 | exactly the rows kept, in table order |
| TicketService.Repository.OutgoingExists | modules/ticket/repository.go:117-123 | true exactly when a ledger row has the receipt |
| TicketService.Repository.TotalPayments | modules/ticket/repository.go:155-176 | the number of rows, and for exactly the currencies that occur the sum of their rows |
| TicketService.Repository.Snapshot | modules/ticket/repository.go:155-176 | the counts per status, the open tickets, the payments and the totals agree with the tables |
| TicketService.StatusCountIs | modules/ticket/repository.go:155-176 | the count of a status is the number of rows that have it |
| TicketService.NormalizeFields | modules/ticket/service.go:103-109 | the loop leaves the non-empty fields, normalised |
| TicketService.FillFields | modules/ticket/service.go:115-135 | required fields are filled from the aliases in order, or the call fails |
| TicketService.CheckActiveLimit | modules/ticket/record.go:52-67 | the counting loop refuses a second open ticket of the type and a fourth open ticket |
| TicketService.CountOtherAdmins | modules/ticket/service.go:154-162 | positive exactly when an admin other than the opener is available |
| TicketService.PrepareTicket | modules/ticket/service.go:92-145 | the checks of Create and their order, error by error |
| TicketService.RecordWithdrawalPayment | modules/ticket/withdrawal.go:219-254 | the payment step with its scan, error by error |
| TicketService.Service.Create | modules/ticket/service.go:92-177 | result and tables are those of the sequential model; a refused save still uses up the number |
| TicketService.Service.Update | modules/ticket/service.go:214-315 | read, decide, save is one step of the sequential model |
| TicketService.Service.Handoff | modules/ticket/service.go:232-258 | the search for the target among the available admins is one step of the sequential model |
| TicketService.Service.RecordPayment | modules/ticket/service.go:317-370 | read, scan, reference check and commit are one step of the sequential model |
| SequentialRuns.RunKeepsInv | modules/ticket/service.go:92-392 | over every run the tables stay sound, no ticket disappears, and every ticket only evolves |
| SequentialRuns.CheckedPaymentCommits | modules/ticket/service.go:342-370 | a payment that passes the receipt check is never refused by the database |
| SequentialRuns.ActiveLimitIsQuota | modules/ticket/record.go:52-67 | the limit over the listed rows lets a ticket through exactly when the member's set of open tickets has room and no ticket of the type |
| SequentialRuns.LedgerMirrorsTickets | modules/ticket/service.go:317-370 | ledger rows and paid tickets are in bijection, and a row says what its ticket says |
| SequentialRuns.PayoutsConserved | modules/ticket/repository.go:155-176 | the reported count and the totals per currency are those of the paid tickets |
| SequentialRuns.ClosedForGood | modules/ticket/record.go:114-141 | a closed ticket keeps status, closing time, withdrawal and seller approval through any further calls, and has a valid resolution |
| SequentialRuns.QuotaHolds | modules/ticket/record.go:52-67 | no member ever has more than three open tickets, nor two open tickets of one type |
| SequentialRuns.HistoryIsTheSource | modules/ticket/record.go:69-161 | every record replays from its log, calls only extend the log, and after the first event nobody but others acts |
| SequentialRuns.CreateNeverOverwrites | modules/ticket/service.go:163-177 | a successful Create adds one row under an id no ticket had |
| PaymentRules.PaidExactlyWhenPayable | modules/ticket/service.go:317-370 | a payment succeeds if and only if the ticket is an approved withdrawal of somebody else, the caller an admin, and the receipt valid and new |
| PaymentRules.PaymentKeepsSaleOnce | modules/ticket/service.go:317-370 | a successful payment keeps every sale paid once if and only if no other ticket for its sale shows a payment |
| PaymentRules.SalesPaidOnceExactly | modules/ticket/service.go:317-370 | a run pays each sale once if and only if every successful payment in it found its sale unpaid |
| PaymentRules.SameSalePaidTwice | modules/ticket/withdrawal.go:219-254 | two payable withdrawals for one sale are both paid, under two receipts |
| Payout.WithdrawalCanBePaid | modules/ticket/service.go:92-370 | a withdrawal that may be opened can be approved and paid by any other admin under a new receipt, and ends paid, stamped and booked |
| Payout.PathAddsOne | modules/ticket/service.go:92-370 | that path adds one ticket with what it was opened with and changes no other |
| Witnesses.SomeWithdrawalIsPaid | modules/ticket/service.go:92-370 | such a path with concrete values, from the empty tables |
| Witnesses.SomeSaleIsPaidTwice | modules/ticket/service.go:317-370 | a run from the empty tables in which two sellers are paid for one sale |
| Witnesses.SomePaymentIsUnstamped | modules/ticket/service.go:278-297 | a run from the empty tables that pays a withdrawal without a stamp |
| Embedding.RunsAreInterleavings | modules/ticket/service.go:92-370 | every run of uninterrupted calls is an interleaving that leaves no call in flight |
| Interleaving.StepKeeps | modules/ticket/service.go:92-392 | every single read, check or write of any call keeps the tables sound and what the other calls in flight remember usable |
| Interleaving.RunStepsKeeps | modules/ticket/service.go:92-392 | so does every interleaving of any number of calls, and the tables only grow |
| InterleavedResults.NoDoublePayment | modules/ticket/repository.go:132-154 | under every interleaving no ticket and no receipt has two ledger rows |
| InterleavedResults.PaymentsAreProved | modules/ticket/service.go:342-370 | under every interleaving a stored payment has a ledger row that agrees with it in every field, and its payer is not the seller |
| InterleavedResults.RecordsStaySound | modules/ticket/withdrawal.go:188-254 | under every interleaving each record replays from its log, paid means a payment is present, a payment means paid or closed, and neither approver nor payer is the seller |
| InterleavedResults.CreationNeverOverwrites | modules/ticket/service.go:163-177 | under every interleaving the id of a ticket being created is free until it is saved, and the save adds one row |
| InterleavedResults.CreationIsBinding | modules/ticket/service.go:214-370 | under every interleaving tickets and rows stay, with the amount, currency, sale and seller of creation |
| InterleavedResults.SellerNeverOverpaid | modules/ticket/repository.go:132-154 | under every interleaving a seller's ledger total in a currency never exceeds what the seller's tickets asked for |
| InterleavedResults.UnchangedUpdateIsAtomic | modules/ticket/service.go:214-315 | a save that finds the row it was computed from does what an uninterrupted call does |
| InterleavedResults.UnchangedPayIsAtomic | modules/ticket/service.go:317-370 | so does a payment commit, accepted or refused, whatever its lists and its receipt check saw |
| StaleWrites.MirrorStep | modules/ticket/service.go:214-370 | one step keeps the ledger mirroring the tickets if and only if it is not a save that overwrites a payment its record does not show |
| StaleWrites.MirroredExactly | modules/ticket/service.go:214-370 | a run keeps the mirror at all times if and only if no save overwrites a payment it has not seen |
| StaleWrites.LogStep | modules/ticket/repository.go:47-61 | one step only extends the logs if and only if its record has every event the ticket has, or writes the very log that is there |
| StaleWrites.HistoryExactly | modules/ticket/repository.go:47-61 | a run only extends the logs if and only if every write in it does |
| StaleWrites.ClosingStep | modules/ticket/record.go:125-141 | one step leaves closed tickets as they are if and only if it was decided on that closing, or is the same closing again |
| StaleWrites.ClosingExactly | modules/ticket/record.go:125-141 | a run leaves closed tickets as they are if and only if no write in it overwrites a closing it has not seen |
| StaleWrites.QuotaStep | modules/ticket/service.go:147-176 | one step keeps every quota if and only if a ticket it opens, new or reopened, has room in the table at the write |
| StaleWrites.QuotaExactly | modules/ticket/service.go:147-176 | a run keeps every quota at all times if and only if every write that opens a ticket finds room then |
| InterleavedResults.StaleClaimErasesPayment | modules/ticket/repository.go:47-61 | a claim saved from a stale row removes a payment from the ticket and its event from the log, while the ledger row stays |
| InterleavedResults.StaleClaimReopens | modules/ticket/repository.go:47-61 | a claim saved from a stale row opens a closed ticket again |
| InterleavedResults.StaleListsExceedQuota | modules/ticket/service.go:147-176 | two openings that list before either saves exceed the quota |
| Witnesses.SomePaymentIsErased | modules/ticket/repository.go:47-61 | a schedule from the start whose last save makes the ledger no longer mirror the tickets, and a log no longer extend what it was |
| Witnesses.SomeClosedTicketReopens | modules/ticket/repository.go:47-61 | a schedule from the start that closes a ticket and opens it again |
| Witnesses.SomeQuotaIsExceeded | modules/ticket/service.go:147-176 | a schedule from the start that exceeds a quota |
| Roles.ComputeMemberTier | modules/membership/roles.go:80-104 | the loops answer conflict, none or the one tier held |
| Roles.MemberTierCounts | modules/membership/roles.go:80-104 | a definite tier means exactly one member role and no legacy role; none means neither |
| Roles.DuplicateRoleConflicts | modules/membership/roles.go:84-99 | two roles of one name are a conflict, for each member role |
| Roles.TierExactly | modules/membership/roles.go:80-115 | each tier is exactly its one member role held once, without the others and without a role of the old scheme; a restriction is one of three roles |
| Roles.EligibleExactly | modules/membership/roles.go:135-151 | who may open which ticket: a withdrawal a Seller, a seller verification a Buyer, a campaign or affiliate ticket either, none of them under a restriction, all others anyone |
| Roles.SellerApprovalExactly | modules/membership/verify.go:72-86 | exactly a Buyer or a Seller without a restriction is approved as a seller |
| Roles.VerificationExactly | modules/membership/verify.go:18-70 | who is verified, who is verified already, and who is refused |
| Roles.ExclusiveGrant | modules/membership/roles.go:153-169 | the role of the tier is added, and exactly the rival roles held are removed, each as often as it is held |
| Roles.GrantIsExclusive | modules/discordbot/bot.go:510-529 | whatever role changes fail, a grant leaves exactly the tier granted if and only if no legacy role is held, every rival role held came off, and the role went on or was held once |
| Roles.TierAfterGrant | modules/discordbot/bot.go:510-529 | the tier a member without a conflict ends with, for every outcome of the removal and of the add |
| Roles.GrantKeepsExactly | modules/discordbot/bot.go:510-529 | a grant makes no conflict and lowers no tier if and only if the rival role held comes off exactly when the new role goes on, and is then no higher |
| Roles.ActKeepsTiers | modules/membership/verify.go:18-93 | verify, seller approval or a role pick makes no conflict and lowers no tier if and only if its grant is clean in that sense; a restricted member's tier never changes |
| Roles.TiersKeptExactly | modules/discordbot/bot.go:510-529 | over any run, with any role changes failing, no action makes a conflict or lowers the tier if and only if every grant in it is clean |
| Roles.RestrictedNeverPromoted | modules/membership/verify.go:18-86 | a restricted member keeps the tier and the restriction through any run, whatever fails |
| Roles.TiersStayExclusive | modules/membership/verify.go:18-120 | when every change of a member role works, at most one member role is held at the end and the tier is kept or raised |
| Roles.FailedAddDemotes | modules/discordbot/bot.go:520-528 | an approved Buyer whose Seller role cannot be added ends with no tier |
| Roles.FailedRemovalConflicts | modules/discordbot/bot.go:520-528 | an approved Buyer whose Buyer role cannot be removed ends with both roles, a conflict |
| Reconcile.ComputeNames | modules/discordbot/members.go:61-66 | the names of the roles the guild lists, in order |
| Reconcile.NamesExactly | modules/discordbot/members.go:61-66 | each listed id contributes its name, in order, and every other id nothing |
| Reconcile.LiveTierExactly | modules/discordbot/members.go:56-72 | the live tier and restriction of a member, role by role; bots and missing users have none |
| Reconcile.RepairMembers | modules/discordbot/members.go:56-104 | the loop writes the repairs of a prefix of the members, all of them unless a write fails, and counts them |
| Reconcile.PruneRows | modules/discordbot/members.go:106-124 | the loop deletes rows of members who left, all of them unless a write fails, and counts them |
| Reconcile.ReconcileTiers | modules/discordbot/members.go:33-124 | one run succeeds exactly when no write fails; its table and counts are those of the specification, and of a prefix of it otherwise |
| Reconcile.EveryMemberSettled | modules/discordbot/members.go:33-124 | with unique ids every definite member has a matching row, tier-less members keep a row only as none, conflicts and bots are untouched, and exactly the departed rows are gone |
| Reconcile.RepairCountExact | modules/discordbot/members.go:55-101 | the repaired count is the number of rows that are new or different |
| Reconcile.SecondRunIsQuiet | modules/discordbot/members.go:33-124 | a second run changes nothing and returns (0, 0) |
| Reconcile.TierCounts | modules/discordbot/members.go:169-192 | buyers and sellers by live roles, and everyone else who is human |
| Reconcile.StoredCountsAreLive | modules/discordbot/members.go:145-192 | after a run the stored headcount of a tier, over humans without a conflict, is the live count |
| Reconcile.GrantedRowIsSettled | modules/discordbot/members.go:197-214 | the row setTier stores after a reported grant is left alone by the next run, and agrees with the roles if and only if no legacy role was held and every rival role could be removed |
| Reconcile.GuildMembers | modules/discordbot/members.go:129-143 | the paging loop ends with the whole member list, as long as the last member of each full page has a user |
| RefreshTokens.TokenRepository.SaveRefreshToken | modules/auth/repository.go:40-42 | one new row, or a refusal that changes nothing |
| RefreshTokens.TokenRepository.RevokeRefreshToken | modules/auth/repository.go:59-68 | true exactly for the call that turns the row from live to revoked |
| RefreshTokens.TokenRepository.RevokeRefreshTokensByUserID | modules/auth/repository.go:70-75 | every row of the user is revoked and no other row changes |
| RefreshTokens.AuthService.Login | modules/auth/service.go:37-58 | a fresh session starts with one live token |
| RefreshTokens.AuthService.Refresh | modules/auth/service.go:62-93 | succeeds exactly when the presented token is stored, not revoked and not expired and the new one is not stored; it is spent before its replacement is stored; missing, revoked and expired tokens change nothing |
| RefreshTokens.AuthService.Logout | modules/auth/service.go:95-105 | exactly the token, or exactly the tokens of the user, are revoked |
| RefreshTokens.SpentAtMostOnce | modules/auth/repository.go:59-68 | under every interleaving a token wins the revoke at most once, and then stays revoked |
| RefreshTokens.NeverMoreTokensThanLogins | modules/auth/service.go:37-105 | under every interleaving a user's live tokens plus rotations under way never exceed the user's logins |
| RefreshTokens.RefreshIsItsSteps | modules/auth/service.go:62-93 | the interleaved steps of one refresh, run without interruption, leave what the service method leaves, in every outcome |
| RefreshTokens.LoginAndLogoutSteps | modules/auth/service.go:37-105 | the steps of a login add one live token of its user; a logout revokes the one token, or all of the user, and no other row changes |
| RefreshTokens.FindsExactly | modules/auth/repository.go:44-57 | a call finds a token exactly when it is stored, not revoked and not expired |
| RefreshTokens.SpentBeforeExpiry | modules/auth/service.go:62-93 | under every interleaving a call about to spend a token found it at an earlier step, not revoked and before its expiry |
| RefreshTokens.WinsWereFound | modules/auth/service.go:62-93 | every revoke that counts, other than by a logout, belongs to such a call |
| SaasToken.Token.constructor | modules/discordbot/saas_token.go:43-53 | a start adopts the access token with its expiry, and the refresh token, each from the file where that has one and from the environment otherwise |
| SaasToken.Token.ReadFile | modules/discordbot/saas_token.go:192-215 | the file outranks the environment field by field, where it is not empty |
| SaasToken.Token.Access | modules/discordbot/saas_token.go:79-101 | a token with more than a minute left is returned as it is; otherwise what is asked, returned and kept in memory and in the file, case by case |
| SaasToken.Token.Rotate | modules/discordbot/saas_token.go:121-162 | succeeds exactly on a complete pair that is persisted; memory follows even when the file does not |
| SaasToken.Token.Persist | modules/discordbot/saas_token.go:166-188 | the file holds the chain in memory, or is unchanged |
| SaasToken.SaasGet | modules/discordbot/bot.go:296-316 | at most two requests, the second only after a 401 with a refresh token at hand; the body is that of the last request, on status 200 only |
| SaasToken.RetryUsesNewToken | modules/discordbot/bot.go:296-316 | a retry is sent only with an access token received after the rejection |
| SaasToken.HoldsRetiredExactly | modules/discordbot/saas_token.go:79-215 | the client holds a replaced token if and only if the last rotation's reply was lost, or was not persisted and the client restarted since |
| SaasToken.ReplaysExactly | modules/discordbot/saas_token.go:79-215 | a run presents no replaced token if and only if no rotation is asked for after a lost reply, or after a rotation that was not persisted and a restart |
| SaasToken.NeverReplays | modules/discordbot/saas_token.go:79-215 | when replies arrive and are persisted, no run of accesses, invalidations and restarts presents a replaced token |
| SaasToken.NeverReplaysInOneLife | modules/discordbot/saas_token.go:121-162 | without a restart delivery alone is enough |
| SaasToken.LostReplyReplays | modules/discordbot/saas_token.go:130-137 | a lost reply leads to a replay |
| SaasToken.UnsavedRestartReplays | modules/discordbot/saas_token.go:166-188 | a rotation that is not persisted leads to a replay after a restart |
| Keyset.TopKeys | modules/user/repository.go:58-68 | the greatest keys, in strictly descending order, at most as many as asked for |
| Keyset.NewestFirst | modules/user/repository.go:58-68 | a page comes newest first, rows of one time by descending id |
| Keyset.PageExactly | modules/user/repository.go:58-68 | a row is on the page if and only if it is older than the cursor and fewer than limit such rows are newer |
| Keyset.UserRepository.FindListKeyset | modules/user/repository.go:58-68 | the page of visible users below the cursor; half a cursor counts for none |
| Keyset.UserRepository.ListUsers | modules/user/service.go:53-75 | a page of at most limit rows, none of them deleted, whose next cursor is its last row and is there exactly when more rows follow |
| Keyset.AuditRepository.Narrow | modules/audit-log/repository.go:29-44 | exactly the rows that match every given field |
| Keyset.AuditRepository.FindListKeyset | modules/audit-log/repository.go:29-50 | the page of matching rows below the cursor |
| Keyset.AuditRepository.ListLogs | modules/audit-log/service.go:28-50 | the same page protocol with the limit one above the page size; every row shown matches every field given |
| Keyset.RequestLimit | infrastructure/httplib/pagination.go:28-33 | the limit of a request is between 1 and 100: the default when none, or none above zero, was asked for, what was asked for up to the bound, and the bound above it |
| Keyset.WalkDescends | modules/user/service.go:53-75 | whatever changes between the pages, the rows of a walk come in strictly descending order, so none twice |
| Keyset.WalkIsComplete | modules/user/service.go:53-75 | a walk that reaches an empty cursor has shown every row present throughout exactly once |
| Keyset.FollowCursors | modules/user/service.go:53-75 | on a fixed store the walk ends with the full list in descending order |
| Keyset.ZeroLimitShowsNothing | modules/user/service.go:53-75 | a limit of zero would end every walk empty, so the handler's lower bound of one matters |
| Confirmations.Bot.PutConfirm | modules/discordbot/ops.go:90-109 | expired prompts go, at most one other prompt goes when the table is full, and the prompt is stored |
| Confirmations.Bot.TakeConfirm | modules/discordbot/ops.go:111-123 | a prompt of the right message is removed, and returned unless it has expired |
| Confirmations.NeverOverfull | modules/discordbot/ops.go:90-109 | over any run the table holds at most 1000 prompts |
| Confirmations.HoldsOutstanding | modules/discordbot/ops.go:90-123 | the table holds exactly the prompts put and since then not replaced, swept, evicted or taken |
| Confirmations.TakeFiresExactly | modules/discordbot/ops.go:111-123 | a take fires if and only if such a prompt of its message is outstanding and has not expired |
| Confirmations.FiresOnce | modules/discordbot/ops.go:90-123 | between two takes that fire under one key there is a put under it |
| JoinWindow.Bot.NoteJoin | modules/discordbot/ops.go:71-88 | the list kept is that of all joins so far; the alarm goes out from eight on |
| JoinWindow.BurstCountsTheLastMinute | modules/discordbot/ops.go:71-88 | while the clock does not run backwards, the length of the trimmed list is the number of all joins of the last minute |
| Itoa.Format | modules/discordbot/ops.go:129-149 | the text is the decimal numeral for every 64-bit integer except the least, which prints as a lone sign |
| Itoa.FillDigits | modules/discordbot/ops.go:137-143 | the backward loop fits the buffer and leaves the numeral |

## Left out

- TicketService.Service.Update: one method with an action parameter stands for Claim, SetResolution, Transition, ApproveWithdrawal and ApproveSeller, which share the shape of read, decide and save.
- TicketService.Repository.Select: the lists are in insertion order; the source orders by opening time.
- Reconcile.GuildMembers: requires a user on the last member of every full page; the source dereferences it.
- Keyset.AuditRepository.ListLogs: requires a limit of at least one, which the handler's page size plus one always is.
- JoinWindow.BurstCountsTheLastMinute: requires joins in the order of the clock, as Go's monotonic clock readings give them.
- `Queue` paging, `NextStatuses`, `NeedsReminder`, `Mutasi`, `Whoami` and the lookup by thread: reads whose statements would repeat their bodies.
- The lookup of a picked role by its button id: a pick is an action on a role that is not a member role.
- The User tier granted on join is not an action of the tier runs; its grant is covered by `Roles.GrantKeepsExactly`, which holds for every tier.
- The rows' JSON columns and the conversion between record and row.
- The regular expressions for labelled secrets, keys and seed phrases: one unknown predicate.
- Discord calls, panels, embeds, modals, guild, role and AutoMod synchronisation.
- HTTP handlers, routing, middleware, configuration, logging, metrics and health checks.
- Password hashing, JWT signing and parsing, SHA-256, UUIDs, base64 and time formats.
- The request limiter, the outbox worker, the HTTP client, uploads and file storage.
- Tables of commands, emoji and role colours.
