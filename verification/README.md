# Verification of the Moadian client

A Dafny model of the parts of this repository that decide which tax number an invoice is filed under,
whether its money adds up, and what became of it — and proofs about every input, every run and every
interleaving of them. `dafny verify dfyconfig.toml` checks everything.

## What is modelled

| Modules | Part of the program |
|---|---|
| `Verhoeff`, `Text`, `TaxId`, `Mistyping`, `Transpositions`, `KnownIds` | the check digit as the dihedral group D5; the 22-character tax id; reading a serial back out of it |
| `CounterFile`, `CounterProtocol`, `SerialCounter`, `CounterLaws`, `Recovery`, `Host` | the serial counter as a step system of calls, process deaths and power losses; the counter object; its repair tool and going on after it; all memories of a host |
| `Rounding`, `Arithmetic`, `ArithmeticLaws`, `MoneyLaws`, `Complaints` | the money rules and the filling-in of computed amounts |
| `Records`, `Reconcile`, `ReconcileLaws`, `Lifecycle`, `LifecycleRuns`, `Cancellation`, `Verdicts`, `Inquiries`, `Handlers`, `Interleaving` | the record store, the batch of verdicts, the invoice handlers and every run of them, also with submissions that wait while other requests run |
| `Pipeline`, `PipelineLaws`, `Identities`, `Polling` | batch submission and the bounded poll loop |
| `Matrix`, `MatrixLaws` | the obligation table, its compressed form, loading and enforcing it |
| `Sessions`, `AccountRoutes`, `AccountLaws`, `AccountGaps` | tokens, the two revocation cutoffs, the account administration routes |
| `MockService` | the stand-in service: nonces, batches, inquiries |

Code that changes state is a class with methods, each proved equal to a function of the old state; the
properties are then proved about those functions. In the counter protocol the file keeps every name it
has held since the last directory sync, and a power loss may leave any of them; the lock is the one on
the lock file, so calls may come through one counter object or many, in one process or several.

## Where the code and its documentation part

- `tools/serial.py:61-63` verifies the check digit because an id copied by eye "arrives with a transposed
  character". The digit is taken over a decimal rendering, not over the characters of the id, so it does
  not catch every transposition. Exactly which exchanges of neighbours are accepted is stated for each of
  the 21 places: `Transpositions.MemorySwapIff` (0 to 4), `FirstSwapIff` (5), `HexSwapIff` (6 to 19),
  `SerialSwapIff` (within the serial, where memory and day drop out) and `LastSwapIff` (20).
  `TranspositionAccepted` is one that slips through, in any memory on any day; two unequal digits of the
  memory never do (`MemoryDigitsSwapRefused`), nor a slip of one decimal digit of the memory, the day or the
  serial (`Mistyping.MemorySlipRefused`, `DecimalSlipRefused`).
- The second of the two tax ids in the help of the repair tool (`tools/serial.py:31-32`) is none: the tool
  refuses it (`KnownIds.HelpIdRefused`).
- The tool's help offers it whenever a counter is "lost or suspect". It reads the counter first, so a damaged
  file is refused whatever it is asked (`CounterLaws.DamagedNotRepaired`), and until someone replaces the file
  no serial is issued (`CounterProtocol.DamagedIssuesNothing`). A file that is simply gone starts over, which is
  safe exactly when nothing was issued (`CounterLaws.DeletedFileSafeIff`).
- A serial is "monotonic" in the order in which the lock is released. Callers may resume in another order
  (`CounterProtocol.ReturnsMayOvertake`). The order of two serials is always that of the releases
  (`CounterProtocol.SerialsFollowReleases`), which of two waiting calls is first is open
  (`CounterProtocol.EitherMayGoFirst`), and a call begun after another returned gets a greater serial
  (`CounterProtocol.LaterCallsGetMore`).
- `_reconcile` writes back records read before the batch. It equals fresh reads exactly under the
  condition of `ReconcileLaws.BatchIsFreshIff`; a confirmed cancellation that stands before its target
  in the batch is otherwise lost (`ReconcileLaws.ItemCancelledIff`).
- The guard of `submit_invoice` "that matters" is checked before an await and not again. A record is filed
  once exactly when no other submission of it is finished between the two steps of one, and its filing is
  kept exactly when it is not deleted there either (`Interleaving.KeptExactly`, `FilingsKeptIff`); both
  happen (`OverlappingSubmitsFileTwice`, `DeletedWhileSent`).
- `inquire_one` does not look at the state: a cancelled record can become confirmed again
  (`Cancellation.InquireOneRevives`). Nothing else ends a cancellation (`Cancellation.StaysCancelledIff`).
- An override to conditional over another base obligation is enforced whatever the header says
  (`MatrixLaws.HeaderCheckedByTable`), and on body lines and carried goods only required fields are
  checked (`MatrixLaws.LineCheckedByTable`). Rules of the payment section are loaded and never enforced.
- `revoke_all_sessions` promises to void every token issued so far. A token of the same instant survives
  (`Sessions.SweepEnds`). The two cutoffs record the last sweep and the last ending of a user's own
  sessions, whatever the clock does (`Sessions.AcceptedIffLastNotLater`); they stand for the full history
  exactly when the clock, by the later of the two, was not behind an earlier ending
  (`Sessions.LastTellsLogIff`). With a clock set back, ended sessions can revive
  (`Sessions.ClockGoingBackRevives`).
- A refused account update may already have set the password (`AccountRoutes.RefusedUpdate`).
- The guard on the last administrator never decides while a request is one step, from letting the caller
  in to writing (`AccountRoutes.LastAdminNeverRefused`). It decides exactly when the caller lost their own
  standing in between (`AccountRoutes.GuardDecidesIff`), and then it keeps the system open
  (`AccountRoutes.AlwaysAWayIn`). It does not hold the accounts still until the write: there is a way in at
  all times exactly when every write leaves somebody in place (`AccountGaps.AlwaysAWayInIff`), which it does
  while nobody's standing is taken in the gap of another request that takes some
  (`AccountGaps.WayInWhileApart`); two administrators who remove each other both pass the guard
  (`AccountGaps.MutualRemovalLocksOut`).
- The response to a batch "need not be in request order". Order is ignored exactly when no two answers to
  one uid contradict each other (`PipelineLaws.MatchedIgnoresOrderIff`).

## Model

| member | source | states |
|---|---|---|
| Verhoeff.TableIsDihedral | backend/src/moadian/taxid/verhoeff.py:15-27 | the multiplication table is the product of rotations and reflections of a pentagon |
| Verhoeff.Associative | backend/src/moadian/taxid/verhoeff.py:15-27 | the product is associative on all digits |
| Verhoeff.InverseLaw | backend/src/moadian/taxid/verhoeff.py:41-42 | the inverse table gives the inverse on both sides, which is the only right inverse |
| Verhoeff.CancelBoth | backend/src/moadian/taxid/verhoeff.py:15-27 | a factor between two equal ones is determined by the product |
| Verhoeff.PermutedStep | backend/src/moadian/taxid/verhoeff.py:29-39 | each row of the permutation table is row 1 applied to the row before, with period 8 |
| Verhoeff.AntiSymmetric | backend/src/moadian/taxid/verhoeff.py:29-39 | row 1 tells every two unequal digits in one order from the same two in the other |
| Verhoeff.ChecksumSplit | backend/src/moadian/taxid/verhoeff.py:60-65 | the checksum of a number of any length splits anywhere into a product |
| Verhoeff.CheckDigit | backend/src/moadian/taxid/verhoeff.py:45-65 | the loop computes the inverse of the checksum, or reports the empty text or first bad character |
| Verhoeff.Validate | backend/src/moadian/taxid/verhoeff.py:68-73 | the loop accepts exactly the numbers whose checksum from position 0 is the identity |
| Verhoeff.OnlyTheCheckDigitValidates | backend/src/moadian/taxid/verhoeff.py:60-73 | for a number of any length a trailing digit validates if and only if it is its check digit |
| Verhoeff.SingleChangeRefused | backend/src/moadian/taxid/verhoeff.py:68-73 | changing any one digit of a valid number makes it invalid |
| Verhoeff.AdjacentSwapRefused | backend/src/moadian/taxid/verhoeff.py:68-73 | exchanging any two unequal neighbouring digits of a valid number makes it invalid |
| Verhoeff.CheckDigitsDiffer | backend/src/moadian/taxid/verhoeff.py:60-65 | numbers of equal length that differ in one digit, or by one exchange of unequal neighbours, have different check digits |
| TaxId.Shape | backend/src/moadian/taxid/provider.py:98-122 | a generated id is 22 characters, holds the upper-case memory, the day and the serial, and its serial segment is the `inno` text |
| TaxId.GeneratedWhen | backend/src/moadian/taxid/provider.py:77-111 | an id is generated exactly for six ASCII alphanumerics, a serial of ten hex digits and a day of five |
| TaxId.SameIdIff | backend/src/moadian/taxid/provider.py:98-114 | two generated ids are equal if and only if upper-case memory, serial and day are |
| TaxId.DayOfMillis | backend/src/moadian/taxid/provider.py:60-65 | the day of an invoice dated in milliseconds is the floor by 86 400 000, before the epoch too |
| TaxId.SerialOfGenerated | backend/tools/serial.py:58-85 | the repair tool reads every generated id back as its memory and serial, also where they overflow the padding of the control text |
| TaxId.SerialInRange | backend/tools/serial.py:58-85 | whatever text is accepted, six characters of memory and a serial from 0 to the maximum come out |
| TaxId.ReadIffGenerated | backend/tools/serial.py:58-85 | among texts laid out as ids, exactly those that can be generated are accepted |
| TaxId.ReadAsTyped | backend/tools/serial.py:65 | a generated id may be typed in either case and with blanks around it |
| KnownIds.KnownIdRead | backend/tools/serial.py:26-32 | A1121604C220002F095011 is generated for memory A11216, serial 49321217 and any instant of its day, and reads back as these |
| KnownIds.HelpIdRefused | backend/tools/serial.py:31-32 | A1121604C220002F095022 fails its check digit, which is 5 |
| Transpositions.ReadWithDigitOf | backend/tools/serial.py:58-85 | an id that keeps the check digit of another memory, day or serial is read, as what it says, if and only if both control texts weigh the same |
| Transpositions.BlockIff | backend/src/moadian/taxid/verhoeff.py:60-65 | replacing a block of a number by one of equal length keeps its checksum if and only if the blocks weigh the same at their place |
| Transpositions.HexSwapIff | backend/tools/serial.py:58-85 | exchanging any two neighbours of the hex part is accepted if and only if the day and serial it then says weigh what those of the id weigh; with texts of equal length the memory drops out |
| Transpositions.SerialSwapIff | backend/tools/serial.py:58-85 | within the serial, while both serials take the same number of digits, it is accepted if and only if the two serials weigh the same, in every memory on every day |
| Transpositions.MemorySwapIff | backend/tools/serial.py:58-85 | exchanging two neighbours of the memory is accepted if and only if both orders weigh the same where they stand |
| Transpositions.MemoryDigitsSwapRefused | backend/tools/serial.py:58-85 | two unequal neighbouring digits of the memory are never exchanged unnoticed |
| Transpositions.FirstSwapIff | backend/tools/serial.py:58-85 | exchanging the last memory character with the first of the day: no hex number for a letter past F, else accepted if and only if the control texts weigh the same |
| Transpositions.LastSwapIff | backend/tools/serial.py:58-85 | exchanging the last serial character with the check digit is accepted if and only if that character is the check digit of the serial it then says |
| Transpositions.TranspositionAccepted | backend/tools/serial.py:61-85 | the witness: the id of serial 35 with its last two hex digits exchanged is accepted as serial 50, in every memory on every day |
| Transpositions.DecimalSlipRefused | backend/tools/serial.py:58-85 | an id that says a day or a serial a single decimal digit away from its own is refused |
| Mistyping.MemorySlipRefused | backend/tools/serial.py:61-85 | replacing a memory character by one a single decimal digit away is refused with a wrong check digit |
| CounterProtocol.SerialsNeverRepeat | backend/src/moadian/pipeline.py:91-166 | over every interleaving of calls, kills, power losses, failures, repairs and damage to the file, from any file, serials are issued strictly increasing and no two callers receive the same |
| CounterProtocol.IssuedSurvives | backend/src/moadian/pipeline.py:147-162 | whatever name a power loss leaves holds synced data, at least every issued serial and at most the visible value |
| CounterProtocol.StepKeeps | backend/src/moadian/pipeline.py:91-166 | every single step keeps the invariant: file history ascending and covering what is issued, one lock holder, whose serial is above all issued |
| CounterProtocol.RunKeeps | backend/src/moadian/pipeline.py:91-166 | so does every run |
| CounterProtocol.LaterCallsGetMore | backend/src/moadian/pipeline.py:91-101 | a call begun after another has returned receives a greater serial |
| CounterProtocol.ReplacedFileKeeps | backend/src/moadian/pipeline.py:128-145 | a file replaced with no call in flight is safe if and only if, when readable, it is not behind any issued serial |
| CounterProtocol.DamageKeeps | backend/src/moadian/pipeline.py:128-145 | a file that cannot be read, or holds no number or a negative one, does no harm to what was issued |
| CounterProtocol.DamagedIssuesNothing | backend/src/moadian/pipeline.py:128-145 | once the file is damaged between calls, no run issues or hands out another serial |
| CounterLaws.CallsInTurn | backend/src/moadian/pipeline.py:91-101 | on a new file the n-th of n calls in turn issues serial n |
| CounterLaws.ExhaustedIff | backend/src/moadian/pipeline.py:94-99 | so up to the last serial ten hex digits can write, and then the counter is exhausted |
| CounterLaws.DeletedFileSafeIff | backend/src/moadian/pipeline.py:131-132 | deleting the file between calls is safe if and only if nothing was issued |
| CounterLaws.RepairOnlyRaises | backend/tools/serial.py:125-168 | what the tool writes is the highest of the ids or the number given, a serial that fits, different from the counter's and below it only if forced |
| CounterLaws.RepairTwice | backend/tools/serial.py:153-155 | run a second time it finds nothing to do |
| CounterLaws.DamagedNotRepaired | backend/tools/serial.py:115-119 | a damaged file is refused, forced or not, and left |
| CounterLaws.ForeignIdRefused | backend/tools/serial.py:134-141 | an id of one memory is refused for the counter of another |
| CounterProtocol.ReleasesAlone | backend/src/moadian/pipeline.py:91-166 | a call left alone leaves exactly its serial on disk and issues it |
| CounterProtocol.SerialsFollowReleases | backend/src/moadian/pipeline.py:91-126 | of any two calls that returned in any run, the one that released the lock earlier has the smaller serial |
| CounterProtocol.EitherMayGoFirst | backend/src/moadian/pipeline.py:91-126 | two calls waiting on a free lock can be finished in either order, the first getting the smaller serial |
| CounterProtocol.ReturnsMayOvertake | backend/src/moadian/pipeline.py:91-101 | a run exists in which the caller of serial 2 resumes before the caller of serial 1 |
| SerialCounter.MonotonicSerialCounter.Call | backend/src/moadian/pipeline.py:91-101 | returns one more than the file's value and leaves exactly that, synced; or refuses an exhausted, unreadable, non-numeric or negative file and leaves it |
| SerialCounter.MonotonicSerialCounter.Read | backend/src/moadian/pipeline.py:128-145 | an absent file reads as 0, and each unusable file is refused with its reason |
| SerialCounter.MonotonicSerialCounter.Write | backend/src/moadian/pipeline.py:147-166 | the file's history is then the one synced value |
| SerialCounter.MonotonicSerialCounter.Repair | backend/tools/serial.py:107-172 | the whole decision of the tool: what it refuses and in which order, when it does nothing, and the value it writes |
| SerialCounter.CallIsTheProtocolAlone | backend/src/moadian/pipeline.py:91-166 | the object's call and the interleaved protocol agree on the file, the serial and the failures |
| SerialCounter.HighestIsMaximum | backend/tools/serial.py:126-144 | the value taken from a list of ids is an upper bound of their serials and one of them |
| SerialCounter.FirstComplaint | backend/tools/serial.py:128-141 | the first id that cannot be used decides the refusal |
| SerialCounter.RepairCovers | backend/tools/serial.py:125-168 | without --force, on ids that include every filed one, the counter ends at or above every filed serial whatever the file held; an unreadable file goes on refusing |
| SerialCounter.RecoverableIffUpperCase | backend/tools/serial.py:65-141 | a filed id is usable for a memory if and only if the memory is given in upper case |
| Recovery.ForgetRun | backend/src/moadian/pipeline.py:91-166 | with no call in flight, what follows in a run is a run of its own from the file as it stands, whatever was logged before |
| Recovery.BeyondRun | backend/src/moadian/pipeline.py:91-166 | if every surviving name covers a value, every serial drawn in any run from there is above it |
| Recovery.FiledNeverReused | backend/tools/serial.py:9-24 | after a loss of the file and a repair from ids that include every filed one, whatever else was drawn and never filed, every serial issued in any run that follows is above every filed serial, and those serials increase |
| SerialCounter.RecoveredRunsNeverRepeat | backend/tools/serial.py:9-24 | the case in which an id was filed under every serial issued before: then no serial of both runs together is issued twice |
| Host.MemoriesAreIndependent | backend/src/moadian/api/app.py:334-344 | each memory's counter goes through its own steps alone, however the steps of all memories interleave |
| Host.TaxIdsNeverRepeat | backend/src/moadian/pipeline.py:349-362 | any two serials handed out on a host, in any memories, for invoices of any dates, make different 22-character ids that carry their `inno` |
| Host.CaseVariantsCollide | backend/src/moadian/config/profiles.py:38-40 | memories that differ in case only would share tax ids, which is why profiles admit upper case only |
| Rounding.RoundShift | backend/src/moadian/rules/arithmetic.py:381-402 | half-even rounding commutes with taking away whole rials unless the amount is a half and the whole odd, and is then off by one |
| Rounding.HalfToEven | backend/src/moadian/rules/arithmetic.py:381-402 | half a rial goes to the even side |
| Arithmetic.CheckArithmetic | backend/src/moadian/rules/arithmetic.py:90-378 | the loop yields the violations of each line in order, then of the totals, then of the settlement |
| Arithmetic.Recompute | backend/src/moadian/rules/arithmetic.py:381-402 | the loop over fields yields every line filled in from its own inputs and every total from the filled lines |
| Complaints.ReportedIff | backend/src/moadian/rules/arithmetic.py:90-378 | a rule is reported for a line, or for the bill, if and only if it is broken there, each rule under its own name |
| Complaints.LinesInOrder | backend/src/moadian/rules/arithmetic.py:367-378 | lines are reported in order |
| Complaints.ReportOrder | backend/src/moadian/rules/arithmetic.py:367-378 | and before the bill as a whole |
| MoneyLaws.QuantityAdds | backend/src/moadian/rules/arithmetic.py:59-65 | outside currency and tickets a quantity may be priced in parts, so may a fee, and one unit costs the fee |
| MoneyLaws.CurrencyAdds | backend/src/moadian/rules/arithmetic.py:59-65 | currency is priced by amount and rate, additively, whatever quantity and fee say; a ticket costs its fee |
| MoneyLaws.SplitLine | backend/src/moadian/rules/arithmetic.py:389-401 | a line billed in two parts comes to the same up to a rial |
| MoneyLaws.RecomputedTax | backend/src/moadian/rules/arithmetic.py:80-87 | after recompute at one rate the tax is that rate on the discounted total, up to half a rial a line |
| MoneyLaws.RecomputedCurrencyTax | backend/src/moadian/rules/arithmetic.py:80-87 | in currency it is the rate on what was converted |
| MoneyLaws.RecomputedGoldTax | backend/src/moadian/rules/arithmetic.py:80-87 | for gold it is ten percent of the charges and the rate on the amount before discount, up to half a rial of each |
| MoneyLaws.AcceptedTax | backend/src/moadian/rules/arithmetic.py:90-378 | an accepted bill's tax is the rate on its discounted total up to a rial a line, one more and the rate on a rial |
| MoneyLaws.ExportBalances | backend/src/moadian/rules/arithmetic.py:49-56 | a filled-in export bill is its declared values, its tax and its other charges |
| ArithmeticLaws.RecomputedMeetsEquations | backend/src/moadian/rules/arithmetic.py:381-402 | after recompute, for any body and pattern, no equation is violated; line and total complaints are gone if and only if the body is not empty and every line is in its domain |
| ArithmeticLaws.RecomputedAcceptedIff | backend/src/moadian/rules/arithmetic.py:286-402 | a recomputed bill is accepted outright if and only if it has lines, all in their domain, and its settlement fits: both parts positive, below the bill, together the discounted total up to a rial |
| ArithmeticLaws.RecomputeTwice | backend/src/moadian/rules/arithmetic.py:381-402 | recompute is idempotent |
| ArithmeticLaws.LineRounding | backend/src/moadian/rules/arithmetic.py:59-77 | a line's discounted amount misses the plain difference by at most one rial, and does so exactly for a half-rial product with an odd deduction |
| ArithmeticLaws.RecomputedBalances | backend/src/moadian/rules/arithmetic.py:389-401 | outside pattern 7 the bill balances to the rial; outside pattern 3 the discounted total misses by at most one rial per such line |
| ArithmeticLaws.AcceptedBalances | backend/src/moadian/rules/arithmetic.py:90-378 | an accepted bill of n lines is out by at most n + 4, 2n + 3 and n + 5 rials in its three balances |
| ArithmeticLaws.BoundsAreReached | backend/src/moadian/rules/arithmetic.py:90-378 | for every n an accepted bill reaches all three bounds |
| Records.FindBelowIsHighest | backend/src/moadian/store/records.py:482-493 | looking up a tax id finds the highest id of the profile that carries it, or that there is none |
| Records.AwaitingIsAscending | backend/src/moadian/store/records.py:465-480 | the pending list holds distinct ids in ascending order, all sent, of the profile and with a reference |
| Records.RecordStore.Insert | backend/src/moadian/store/records.py:409-431 | a new row under an id never used before |
| Records.RecordStore.Save | backend/src/moadian/store/records.py:432-448 | writes every column but the profile, and nothing if the row is gone |
| Records.RecordStore.FindByTaxId | backend/src/moadian/store/records.py:482-493 | the backward scan finds the highest row carrying the id |
| Records.RecordStore.ListAwaitingInquiry | backend/src/moadian/store/records.py:465-480 | the scan lists the first `limit` pending ids, all for a negative limit |
| Records.RecordStore.Delete | backend/src/moadian/store/records.py:500-505 | removes that row only, or reports that there is none |
| Reconcile.ReconcileRecords | backend/src/moadian/api/app.py:266-331 | the batch: references asked for a hundred at a time, last answer per reference kept, records written back as first read, cancellations through fresh reads |
| Reconcile.Ask | backend/src/moadian/api/app.py:286-295 | the loop over chunks gathers what all chunks answer together |
| Reconcile.ApplyCancellation | backend/src/moadian/api/app.py:235-263 | cancels the highest other row carrying the named tax id unless already cancelled, and nothing else |
| ReconcileLaws.TableFollowsRows | backend/src/moadian/api/app.py:299-331 | what a batch does to the table is what it does to each row on its own |
| ReconcileLaws.BatchIsFreshIff | backend/src/moadian/api/app.py:266-331 | the batch ends in the same store as one record at a time with fresh reads if and only if no answered record was voided earlier in the batch, or its verdict and a later item undo that |
| ReconcileLaws.BatchIsFreshInOrder | backend/src/moadian/api/app.py:266-331 | they agree when no confirmed cancellation stands before its own target |
| ReconcileLaws.ItemCancelledIff | backend/src/moadian/api/app.py:235-331 | an answered record of a batch ends up cancelled if and only if a later item voids it |
| ReconcileLaws.OtherCancelledIff | backend/src/moadian/api/app.py:235-331 | any other record ends up cancelled if and only if it was or some item voids it |
| Verdicts.AnsweredEnds | backend/src/moadian/api/app.py:196-331 | an answered record of a batch ends cancelled if a later item voids it, else confirmed if and only if the answer is a success, rejected if and only if it is a failure, sent otherwise; the answer is noted |
| Verdicts.UnansweredStays | backend/src/moadian/api/app.py:299-303 | a record without answer that nothing voids is left exactly as it was |
| Verdicts.VerdictsAreAnswers | backend/src/moadian/api/app.py:196-331 | in every run without single inquiries each confirmed record's last answer is a success and each rejected one's a failure |
| Inquiries.AsksAboutWaiting | backend/src/moadian/api/app.py:960-976 | an unlimited pending inquiry is about exactly the sent records of the profile that have a reference |
| Inquiries.LimitTakesFirst | backend/src/moadian/store/records.py:465-480 | a limit takes those with the lowest ids |
| Inquiries.GatheredIsLast | backend/src/moadian/api/app.py:286-295 | of several answers to a reference the last counts |
| Inquiries.EveryoneIsAnswered | backend/src/moadian/api/app.py:286-300 | of a service that answers requests of 1 to 100 references, every record asked about gets its own answer, however many there are |
| Inquiries.SentIsWaiting | backend/src/moadian/api/app.py:930-946 | a submission answered with a reference leaves a record that waits for a verdict under it |
| Inquiries.FiledIsAsked | backend/src/moadian/api/app.py:930-976 | in every run an unlimited pending inquiry asks about every filed record still sent, by the reference the service gave |
| Lifecycle.InvoiceApi.SaveInvoice | backend/src/moadian/api/app.py:767-787 | a new row, draft or invalid by the report, under a new id |
| Lifecycle.InvoiceApi.UpdateInvoice | backend/src/moadian/api/app.py:810-847 | rewrites a draft of the profile; any other row is refused and untouched |
| Lifecycle.InvoiceApi.DeleteInvoice | backend/src/moadian/api/app.py:855-881 | removes a draft of the profile; any other row is refused and untouched |
| Lifecycle.InvoiceApi.SubmitInvoice | backend/src/moadian/api/app.py:884-953 | moves the draft to sent with what the service gave, or marks it invalid, or refuses; a failed sending leaves no trace |
| Lifecycle.InvoiceApi.InquirePending | backend/src/moadian/api/app.py:960-976 | reconciles the pending list of the profile |
| Lifecycle.InvoiceApi.InquireOne | backend/src/moadian/api/app.py:983-1001 | reconciles one record with a reference, in whatever state it is |
| Handlers.RefusedIff | backend/src/moadian/api/app.py:831-951 | a request on a draft is refused as unknown, or as no draft, exactly when it is, and then changes nothing |
| Handlers.SubmissionRefused | backend/src/moadian/api/app.py:917-946 | an unsound submission is stored as invalid and not sent; a sound one that is not sent leaves no trace |
| Handlers.InquiryRefusedIff | backend/src/moadian/api/app.py:990-1001 | a single inquiry is refused exactly for an unknown record, one without reference, or no answer, and then changes nothing |
| Handlers.DraftsStored | backend/src/moadian/api/app.py:767-881 | what is saved or updated is stored as given with its report, what is deleted is gone, and no other record changes |
| Handlers.ProfilesApart | backend/src/moadian/api/app.py:767-1001 | over every run the requests of other profiles never touch a record |
| LifecycleRuns.StepKeeps | backend/src/moadian/api/app.py:767-1001 | every request keeps the states' promises and the filings, and settles what was settled |
| LifecycleRuns.RecordsSettle | backend/src/moadian/api/app.py:767-1001 | in every run a record that left the drafts stays, keeps payload, tax id, uid and reference, and is filed at most once with what the service gave for it; each state carries what it promises, a draft a sound report and an invalid record an unsound one |
| LifecycleRuns.PendingInquiryIsFresh | backend/src/moadian/api/app.py:266-331 | in every reachable store the pending inquiry equals fresh reads while no confirmed cancellation stands before its target |
| Cancellation.CancelledOnlyByConfirmed | backend/src/moadian/api/app.py:235-263 | in every run without single inquiries each cancelled record names a filed ins = 3 record of its profile that names its tax id and about which the organization's answer was a success |
| Cancellation.CancelledForGood | backend/src/moadian/api/app.py:252-262 | in such runs a cancelled record stays cancelled |
| Cancellation.ConfirmedCancellationTakesEffect | backend/src/moadian/api/app.py:235-263 | a cancellation confirmed by a pending inquiry cancels the highest other record with the named tax id, if that was filed before it |
| Cancellation.StaysCancelledIff | backend/src/moadian/api/app.py:767-1001 | in every reachable store a cancelled record stays through any request, and stays cancelled if and only if that is not a single inquiry about it that brings a verdict |
| Cancellation.InquireOneRevives | backend/src/moadian/api/app.py:983-1001 | a cancelled record asked about alone stays cancelled if and only if the answer is no verdict |
| Interleaving.TwoStepsAreSubmit | backend/src/moadian/api/app.py:884-953 | the handler up to its await and after it, with nothing between, are the whole handler: same table, same filings |
| Interleaving.StepKeeps | backend/src/moadian/api/app.py:767-1001 | every step, with submissions waiting, keeps the rows' promises, deletes only what it says and appends at most its own filing |
| Interleaving.FiledIsNeverBegun | backend/src/moadian/api/app.py:903-915 | a record on which something was filed is refused to every later submission |
| Interleaving.GapTells | backend/src/moadian/api/app.py:902-946 | while a submission waits, its record is there unless deleted in the gap, and has a filing only if one was finished in the gap |
| Interleaving.KeptExactly | backend/src/moadian/api/app.py:884-953 | over every run no record is filed twice if and only if no finished submission was overtaken by another of its record between its steps, and every filing's record is there if and only if none was deleted there |
| Interleaving.FilingsKeptIff | backend/src/moadian/api/app.py:767-1001 | over every run all filings are on their records, once each, if and only if no finished submission had its record filed or deleted in its gap |
| Interleaving.OverlappingSubmitsFileTwice | backend/src/moadian/api/app.py:902-946 | the witness: two submissions begun on one draft are both filed and the record keeps the second uid and payload only |
| Interleaving.DeletedWhileSent | backend/src/moadian/api/app.py:855-946 | the other witness: a draft deleted while being sent is filed and has no record |
| Pipeline.InvoicePipeline.Submit | backend/src/moadian/pipeline.py:226-251 | the loop over chunks of 1000 does what the chunk-by-chunk specification does to results, counter and events, and raises when it does |
| Pipeline.InvoicePipeline.SubmitBatch | backend/src/moadian/pipeline.py:291-318 | one chunk built, sent and matched by uid |
| Pipeline.InvoicePipeline.BuildPackets | backend/src/moadian/pipeline.py:320-347 | packets in input order, each checked before its serial is drawn |
| Pipeline.InvoicePipeline.WithIdentity | backend/src/moadian/pipeline.py:349-362 | an id of the caller's is left alone; a blank one costs one serial, from which both id and `inno` come |
| PipelineLaws.SubmissionAccounts | backend/src/moadian/pipeline.py:226-347 | either one result per invoice in input order with its own uid and tax id and one serial per blank invoice, or an exception that says which serials were drawn and what the counter holds: before the first invalid invoice, one per blank; for a chunk without answer, one per blank up to its end |
| Identities.FiledUnderDrawn | backend/src/moadian/pipeline.py:226-362 | in a submission without exception an id of the caller's is left alone, and each invoice without one goes out under an id of the serial drawn for it, this memory and its own day, with the `inno` that is part of it, in a chunk of at most 1000 |
| Identities.DrawnIdsDiffer | backend/src/moadian/pipeline.py:349-362 | the ids of two invoices that had none differ, whatever their days |
| PipelineLaws.TraceDraws | backend/src/moadian/pipeline.py:349-362 | as many serials are drawn as there are blank invoices |
| PipelineLaws.DrawnAfterAnswers | backend/src/moadian/pipeline.py:235-241 | no serial is drawn for a chunk before every earlier chunk was answered |
| PipelineLaws.MatchedIgnoresOrderIff | backend/src/moadian/pipeline.py:303-317 | the matched results are the same for every permutation of a response if and only if no two answers to a packet contradict each other |
| PipelineLaws.SubmissionIgnoresOrder | backend/src/moadian/pipeline.py:226-318 | so the whole submission does not depend on the order of any response |
| Polling.RequestsPartition | backend/src/moadian/pipeline.py:364-370 | the requests of a round join to the references in order, each with 1 to 100 of them |
| Polling.Inquire | backend/src/moadian/pipeline.py:364-370 | a round's results are the answers to those requests in order |
| Polling.ReferencesAre | backend/src/moadian/pipeline.py:273 | what is polled for are the non-empty references of the submissions, in order |
| Polling.RoundAnswersAll | backend/src/moadian/pipeline.py:364-370 | of a service that answers requests of 1 to 100 references, a round gets an answer to each, in order |
| Polling.AwaitResults | backend/src/moadian/pipeline.py:253-287 | polling ends, after 1 to 1 + ceil((timeout - min_wait) / poll_interval) rounds, with the last round's results, in which nothing is in progress or the deadline has passed; the first round comes after the mandatory wait and each other after the interval or what is left of the time |
| Matrix.EmitPattern | backend/tools/extract_table1.py:346-403 | the loops produce a pattern's types, entries and exclusions |
| Matrix.EmitSection | backend/tools/extract_table1.py:364-395 | per section, each row becomes an entry or, if it never applies, an exclusion |
| Matrix.LoadSection | backend/src/moadian/rules/spec.py:166-236 | the loops rebuild the dictionary of rules, exclusions last, and refuse a conditional rule that names no condition |
| Matrix.CheckHeader | backend/src/moadian/rules/engine.py:201-240 | the loop makes each rule's complaint in order |
| Matrix.CheckLine | backend/src/moadian/rules/engine.py:252-287 | the loop complains of missing required fields only |
| MatrixLaws.TypesOfAre | backend/tools/extract_table1.py:348-356 | a pattern's types are, in ascending order, those some field has a say for |
| MatrixLaws.RuleForType | backend/src/moadian/rules/spec.py:54-58 | a rule gives the table's word for each listed type, and the primary type's word for any other |
| MatrixLaws.EmittedLoads | backend/src/moadian/rules/spec.py:206-236 | what is emitted loads, and each field's rule is the one its row becomes |
| MatrixLaws.MatrixRoundTrip | backend/tools/extract_table1.py:338-404 | emitted, loaded and asked for a type, a field has the table's obligation if and only if the type is listed or the table is silent for the primary type |
| MatrixLaws.ComplaintIsFound | backend/src/moadian/rules/engine.py:201-240 | a field is complained of exactly when the rule found under its name does |
| MatrixLaws.HeaderCheckedByTable | backend/src/moadian/rules/engine.py:201-240 | for a listed type the header complaints are, both ways, the table's required, enforced conditional and inapplicable fields |
| MatrixLaws.LineCheckedByTable | backend/src/moadian/rules/engine.py:252-287 | for a listed type the only complaints of a body line or a carried good are, both ways, the missing fields the table requires |
| MatrixLaws.BlockTypesAre | backend/tools/extract_table1.py:348-361 | a block lists the types some field has a say for, ascending, or type 1 if there are none |
| MatrixLaws.ExcludedIff | backend/tools/extract_table1.py:372-381 | a field is listed as not belonging exactly when the table says so for the primary type and in so many words for every listed one |
| MatrixLaws.LoadRefusedIff | backend/src/moadian/rules/spec.py:181-190 | a section is refused exactly when a conditional field names no condition |
| MatrixLaws.NoTypeIsPrimary | backend/src/moadian/rules/spec.py:54-58 | an invoice without a type is judged as one of the primary type |
| MatrixLaws.RowsInOrder | backend/tools/extract_table1.py:364-395 | entries and exclusions come in the order of the rows |
| MatrixLaws.ComplaintsInOrder | backend/src/moadian/rules/engine.py:201-287 | complaints come in the order of the rules |
| Sessions.UserStore.SetPassword | backend/src/moadian/auth/store.py:183-191 | a long enough password ends that user's sessions; a short one changes nothing |
| Sessions.UserStore.Update | backend/src/moadian/auth/store.py:193-221 | changes role and standing of that user where given, nothing else |
| Sessions.UserStore.RevokeAllSessions | backend/src/moadian/auth/store.py:248-258 | moves the global cutoff to now |
| Sessions.CutoffsAreLast | backend/src/moadian/auth/store.py:183-258 | for any clock the stored global and own cutoffs are the times of the last sweep and of the last event that ended the user's own sessions |
| Sessions.AcceptedIffLastNotLater | backend/src/moadian/auth/security.py:187-223 | for any clock a token is accepted, as its user stands now, if and only if it has not expired, its user is there and active and neither of these last events is later than its iat |
| Sessions.RefusedBecause | backend/src/moadian/auth/security.py:203-222 | each reason for refusing a token is given if and only if it is the first that holds |
| Sessions.StandingIsLast | backend/src/moadian/auth/store.py:156-225 | a user's role and standing are those last given by an update, or at creation |
| Sessions.AroundIff | backend/src/moadian/auth/store.py:156-225 | a user is there if and only if created and not deleted since |
| Sessions.LastTellsLogIff | backend/src/moadian/auth/security.py:217-222 | the last events stand for the full history, for every iat, if and only if no event that ended the user's sessions carries a later time than the later of them |
| Sessions.CutoffTellsLog | backend/src/moadian/auth/security.py:217-222 | while the clock does not go back, the stored cutoff passes a time if and only if an event later than that time ended the user's sessions |
| Sessions.AcceptedIffNotEnded | backend/src/moadian/auth/security.py:187-223 | an unexpired token is accepted if and only if its user is there and active and nothing in the full history later than its iat revoked it |
| Sessions.ReplacementAccepted | backend/src/moadian/auth/routes.py:95-99 | the token minted after ending one's own sessions is accepted if and only if the other kind of last event is not later than it, and always while the clock does not go back |
| Sessions.SweepEnds | backend/src/moadian/auth/store.py:248-258 | a sweep leaves exactly the accepted sessions whose tokens are not older than it |
| Sessions.ClockGoingBackRevives | backend/src/moadian/auth/store.py:248-258 | the witness: with a clock set back, a second sweep brings a session ended by the first to life |
| AccountRoutes.AccountApi.UpdateUser | backend/src/moadian/auth/routes.py:134-171 | what is written before each refusal and after none, in order |
| AccountRoutes.AccountApi.DeleteUser | backend/src/moadian/auth/routes.py:174-196 | deletes, or deactivates and ends sessions, or refuses and changes nothing |
| AccountLaws.UpdateRefusedIff | backend/src/moadian/auth/routes.py:134-159 | each reason for refusing an update, the last administrator apart, is given exactly in its case |
| AccountLaws.UpdateDoes | backend/src/moadian/auth/routes.py:134-171 | an accepted update gives the user the role and standing asked for, ends their sessions if it sets a password, and touches nothing else |
| AccountLaws.RemovalRefusedIff | backend/src/moadian/auth/routes.py:183-188 | an unknown user or oneself is refused, and a refusal writes nothing |
| AccountLaws.RemovalDoes | backend/src/moadian/auth/routes.py:174-196 | an accepted removal deletes the user, or deactivates them and ends their sessions, and touches nobody else |
| AccountLaws.RemovedIsLockedOut | backend/src/moadian/auth/routes.py:174-196 | no token of a removed user is accepted, and being made active again brings back no earlier session |
| AccountLaws.OutsiderChangesNothing | backend/src/moadian/auth/routes.py:85-99 | who is no active administrator can do nothing but end their own sessions with a new password, given the right one |
| AccountLaws.AdministratorDoes | backend/src/moadian/auth/routes.py:116-212 | what creating, sweeping, revoking and a change of password do to the accounts, and nothing else |
| AccountRoutes.CallerKeepsStanding | backend/src/moadian/auth/routes.py:134-212 | no request of an administrator takes that administrator's own standing |
| AccountRoutes.GuardDecidesIff | backend/src/moadian/auth/routes.py:105-188 | the guard refuses if and only if someone other than the only active administrator asks to unseat them, and that caller is no active administrator any more |
| AccountRoutes.ChangeLeavesAdminIff | backend/src/moadian/auth/routes.py:105-108 | a written change leaves an active administrator if and only if it does not unseat the only one at that moment |
| AccountRoutes.AdminRemains | backend/src/moadian/auth/routes.py:134-212 | the body of any route, run for a caller let in at any earlier time, leaves an active administrator if there was one |
| AccountRoutes.AlwaysAWayIn | backend/src/moadian/auth/routes.py:105-212 | over every run of requests, with callers let in at any earlier time and bodies as one step, an active administrator remains if there was one |
| AccountGaps.TwoStepsAreBody | backend/src/moadian/auth/routes.py:134-196 | deciding and writing without a gap are the body of the route |
| AccountGaps.AlwaysAWayInIff | backend/src/moadian/auth/routes.py:105-212 | over every run of decisions and writes, with anything in the gaps, there is an active administrator at all times if and only if every write leaves one in place at its moment |
| AccountGaps.WayInWhileApart | backend/src/moadian/auth/routes.py:105-212 | that is so while no change that takes someone's standing is written in the gap of another that does |
| AccountGaps.MutualRemovalLocksOut | backend/src/moadian/auth/routes.py:174-196 | the witness: a run in which the only two administrators decide to remove each other, both passing the guard, and nobody is left |
| AccountRoutes.LastAdminNeverRefused | backend/src/moadian/auth/routes.py:105-108 | while a request is one step, from letting the caller in to writing, the last-administrator guard never refuses it |
| AccountRoutes.RefusedUpdate | backend/src/moadian/auth/routes.py:134-159 | a refused update has changed nothing but a long enough password given with it |
| MockService.MockState.ConsumeNonce | backend/src/moadian/mock/server.py:234-244 | burns an issued, unused, unexpired nonce, or refuses with the reason and changes nothing |
| MockService.MockState.Invoice | backend/src/moadian/mock/server.py:638-683 | verifies the whole batch, then stores it by reference number; any refusal changes nothing |
| MockService.LetInIff | backend/src/moadian/mock/server.py:223-244 | over every run a request is let in if and only if the latest issue of its nonce is within its lifetime and nobody was let in since |
| MockService.ShutOutBecause | backend/src/moadian/mock/server.py:234-244 | over every run the reason for shutting a request out is that its nonce was never issued, or used since its last issue, or has run out |
| MockService.NonceLetsInOnce | backend/src/moadian/mock/server.py:234-244 | between two requests let in on one nonce it was issued anew |
| MockService.TakenIffClean | backend/src/moadian/mock/server.py:659-667 | a batch is collected if and only if every packet is readable and no uid repeats within it or was stored before, and then all packets in order |
| MockService.RefusedForFirst | backend/src/moadian/mock/server.py:662-667 | a batch is refused for the first packet that spoils it |
| MockService.BatchAllOrNothing | backend/src/moadian/mock/server.py:638-670 | with reference numbers of its own a clean batch of 1 to 1000 is appended whole; any other batch changes nothing |
| MockService.StoredUidsDistinct | backend/src/moadian/mock/server.py:653-670 | over every run no two stored submissions share a uid, whatever their reference numbers |
| MockService.PagesConcatenate | backend/src/moadian/mock/server.py:734-755 | consecutive pages over an unchanged window join to that window, cut after the last page |
| MockService.InquiryIsAbout | backend/src/moadian/mock/server.py:474-486 | a paged inquiry is refused for a bad page, status or window in that order, and else drawn from what has the status and was received in the span, by default the last day |
| MockService.WindowKeepsOrder | backend/src/moadian/mock/server.py:474-486 | the window keeps the order of storing |
| MockService.InquiryByUidUnambiguous | backend/src/moadian/mock/server.py:708-732 | in every reachable state each answer by uid is the one stored submission with that uid, taxpayer and time, and missing only if there is none |

## Left out

- Cryptography, certificates, base64, JSON and PDF handling: a packet is its uid and its invoice, a signature or decryption is taken as judged.
- The text of the generated YAML and of the counter file: the model has what they hold (for the counter: missing, unreadable, not a number, or a number).
- HTTP routing, dependency injection, settings, profile files, catalogue search and routes that only read.
- Buyers, goods, `counts_by_state` and the schema migration in the record store: single statements over one table.
- Timestamps and the reported summary of `_reconcile`; of an answer the model keeps status and reference.
- Message texts, titles, references, and the expected and actual amounts of a violation; enumerations and length checks.
- IEEE rounding in the money rules: quantities, rates and prices are reals, money amounts integers.
- Non-ASCII white space, letters and digits in a tax id as typed; time zones (instants are seconds since the epoch).
- Interleavings inside `_reconcile`, and writes of other requests between its reads and its writes: all handlers but the submission are atomic steps.
- AccountRoutes.AlwaysAWayIn: takes the body of an account route, guard and write, as one step; what a gap between them costs is AccountGaps.AlwaysAWayInIff.
- The thread lock of a counter object: it only takes interleavings away. Counters on several hosts or without `fcntl`, repairs with `--force` and ids given by callers carry no promise of uniqueness.
- A repair or damage to the file while calls are in flight: the tool writes outside the lock, so the protocol allows both only when none is.
- Pipeline.InvoicePipeline.Submit: draws from a counter nobody else is using meanwhile; interleaved draws are the subject of the counter protocol. Fetching the server key is not modelled.
- Records handed out by the store are values, so a handler's changes to a record it holds are seen only once saved, as with the rows of the database.
- Sessions.ReplacementAccepted: of the token library only the expiry is modelled; clock checks it makes on `iat` are not.
- Hashing and comparing passwords: a request carries whether its current password is right and its new one long enough. Duplicate or malformed user names are one refusal of creating a user.
- The mock's payments, taxpayer look-ups, inquiry by reference and its hook for expiring a nonce.
