# Hours ledger and invoicing: a verified model

A model, in Dafny, of the hours ledger and the invoicing engine of a client portal, with proofs about every state its
operations can reach. Around it: the arithmetic of taxes and of calendar months, the numbering of documents under
concurrency, the tickets of a client that is disabled and reactivated, the version trees of documents, and the counter
of repeated requests. `dafny verify dfyconfig.toml` checks all of it.

## How it is laid out

- `Ledger.dfy` holds the tables of one client as values (rows, counters, cycles, credit notes with their lines,
  variable statements) and, as one function per operation, the effect of each database transaction or the error that
  refuses it. `After(ops)` is the state a run of operations leads to; "reachable" below always means a state of that
  form, whatever the operations and their order.
- `Store.dfy` holds the same tables as fields of a class. Its methods work step by step as the services do, loops
  included, and each one is proved to commit exactly what the ledger function says, or to leave every table alone.
- `Effects.dfy` says what each operation means to its caller, of the tables before and after it: which error refuses
  it, and otherwise every table it leaves. `Selection.dfy` and `Variables.dfy` say what a request to bill means, of the
  request, the rows and the statements alone. They say it in terms of their own, which the ledger
  functions are then proved to meet.
- `Journal.dfy` puts the run of operations beside the tables. Its methods ensure those effects and keep the tables
  equal to where the run leads.
- `Invariants.dfy` states what every reachable state keeps and proves that every operation keeps it. `History.dfy`
  states what no later run can undo.
- `Chains.dfy`, `Accounts.dfy`, `Balance.dfy`, `Refunds.dfy`, `Lifecycle.dfy` and `Reentry.dfy` draw the theorems from
  those two; `Prices.dfy` adds what prices and hours mean. `Witnesses.dfy` has the runs that reach the states in which
  a weaker promise fails.
- `Reports.dfy`, `Grouping.dfy` and `Rollup.dfy` are what is read off the ledger: previews, documents, cards.
- `Tax.dfy` and `Calendar.dfy` are the arithmetic; `Totals.dfy` and `Outcomes.dfy` are shared vocabulary.
- `Numbering.dfy`, `Tickets.dfy`, `Versions.dfy` and `DuplicateRequests.dfy` stand on their own.

Units: money counts cents, hours count ten-thousandths, hourly rates count cents, tax and exchange rates count
ten-thousandths, instants count milliseconds, a month is one integer. Amounts, prices and hours of a row are never
negative. Rows are never removed from the table, so a row is named by its position and positions follow creation time.
Every run starts from an empty ledger. Checks that the services make just before their transaction are part of the
atomic step; only the numbering splits the count from the insert. The converted price of a variable is rounded half up
to whole guaranies. Products and quotients in `Tax` are repeated sums and differences; `Tax.ProductIsProduct` and
`Tax.RoundingBounds` turn them into the usual ones.

## What the model shows about the code

- No movement is net-charged twice, whatever chain of credits and re-billings follows it, and stored totals stay the
  tax computation over what is stamped, through every later edit, deletion, reversal and note.
- The guard BILLABLE_INTEGRITY_VIOLATION and the guard for billable rows without a working day are never reached.
- A reversal event without a version is not idempotent: delivered again it takes the next live charge of the task. It
  is harmless exactly when the task has no other live charge of its own.
- The handler of a reversal does not ask whether its charge is already on an invoice. The emitters refuse first:
  deleting a billed manual entry (`src/modules/time-tracking/time-tracking.service.ts:378-403`), and every path that
  takes a task out of DONE (the guard of `src/modules/task/task-hours-guard.service.ts:128-162`, called from
  `src/modules/task/task.service.ts:448`, `src/modules/board/board.service.ts:367`,
  `src/modules/ticket/ticket.service.ts:294` and `src/modules/task/task-approval.service.ts:244`). So only a race, or
  the call of `revertConfirmation` with which an approval clears entries of the older flow
  (`src/modules/time-tracking/time-tracking.service.ts:532-536`), can tombstone a stamped charge. The model takes every
  reversal the handler accepts, which is more than the emitters send; should one slip through, the stored total and the
  document both keep counting the charge.
- An invoice of chosen months that spans more than 240 months does not close the months beyond, so mirrors of those
  rows can be left out of later monthly invoices. Up to 240 months every mirror is taken.
- A mirror whose original was billed late, on the invoice of another month, depends on a third invoice: cancelling the
  only one that closed the month of the work leaves the mirror out of reach of every other month.
- An edit accepts a rate with any number of decimals, prices with it as typed, and stores it in whole cents. The price
  is then that of the stored rate for all hours exactly when the typed rate is whole cents: 1000 hours at 0.005 cost
  5.00 beside a stored rate of 0.01.
- The comment at `src/modules/client/client.service.ts:468-483` promises that every ticket closed by the disabling comes
  back. A ticket that was closed by hand and reopened keeps its close reason
  (`src/modules/ticket/ticket.service.ts:847-858` does not clear it), so the sweep closes it and nothing brings it back.
- The comment at `src/common/middleware/duplicate-request.middleware.ts:57` promises one warning per window and key. A
  later request inside the window of a warning warns again exactly when the counted requests that have left the window
  are one more than those that arrived in between. A steady stream warns on every request from the fourth on at 250 to
  333 ms, once at less, never at more.
- Version numbers are not always unique within a document: a deleted newest version gives its number to the next one.
  They are unique exactly while no two files were made from the same one.
- Adding a tax and extracting it again is exact at every rate. Extracting and adding again is within one cent of every
  total exactly at the rates up to 200%.

## Model

| member | source | states |
|---|---|---|
| `Store.Tables.RevertEntry` | src/modules/client/hours.listener.ts:74-175 | the newest matching charge is tombstoned, refunded and given back to its counter together, or nothing changes |
| `Store.Tables.BillableItems` | src/modules/botmaker-billing/billing-variables.service.ts:269-278 | the loop keeps exactly the items that are enabled and of positive value, in order, each with its name, its USD value and whole guaranies within half a guarani of value times rate |
| `Store.Tables.CollectCommercial` | src/modules/botmaker-billing/billing-variables.service.ts:257-282 | the loop over the periods yields, for each one, the lines of its statement if that is unsealed, and as contributing exactly the periods with an unsealed statement that has an enabled item of positive value |
| `Store.Tables.WriteCycle` | src/modules/client-billing/client-billing.service.ts:1448-1537 | draft, stamping by id, sealing by contributing period and totals over the stamped rows amount to one atomic issue, or roll back |
| `Store.Tables.CloseCycle` | src/modules/client-billing/client-billing.service.ts:1368-1548 | refuses with the first error that applies, in the order of the checks; otherwise commits the issue |
| `Store.Tables.WriteCreditLines` | src/modules/client-billing/client-billing.service.ts:1988-2021 | line by line, the frozen lines and, if the hours go back, one mirror for each |
| `Store.Tables.WriteCreditNote` | src/modules/client-billing/client-billing.service.ts:1960-2030 | note, lines and mirrors in one transaction, with the tax terms of the invoice |
| `Store.Tables.EmitCreditNote` | src/modules/client-billing/client-billing.service.ts:1909-2050 | refuses with the first error that applies; otherwise commits the note |
| `Journal.Services.Sound` | src/modules/client-billing/client-billing.service.ts:1368-2050 | whatever services were called in whatever order, the tables keep the whole invariant of the ledger |
| `Journal.Services.AddHours` | src/modules/client/client.service.ts:976-1004 | a purchase row of those hours is added, the contracted counter grows by it and is still the sum of the live purchases; nothing else moves |
| `Journal.Services.ConfirmEntry` | src/modules/client/client.service.ts:1371-1520 | a row is added if and only if worked time of a support task arrives under a new key. Its hours, task, day and kind are those of the entry; a charge has the rate of its task, or else of the client, and is priced to the cent exactly if there is one; internal work has neither. The counter of its kind grows by its hours |
| `Journal.Services.RevertEntry` | src/modules/client/hours.listener.ts:74-175 | nothing happens if no live charge of the task, and of the entry if keyed, is there; otherwise the newest one is tombstoned, refunded with its own hours, task and day, and its counter falls by its hours |
| `Journal.Services.DeleteHours` | src/modules/client/client.service.ts:1006-1202 | which error refuses which row: gone, billed, a refund; any other row is tombstoned and no other row changes. The orphan-refund error never occurs; a mirror moves no counter, and the counters stay the sums of what is live |
| `Journal.Services.EditHours` | src/modules/client/client.service.ts:1220-1340 | which error refuses which edit; a kept rate prices the new hours, a typed one prices them as typed and is stored in whole cents, none or zero clears rate and price. The counters stay the sums of what is live, and no invoice adds up to anything else |
| `Journal.Services.UpsertVariables` | src/modules/botmaker-billing/billing-variables.service.ts:176-224 | refused if and only if the statement is sealed; otherwise it holds the new items, and its period bills one line for each of them that is enabled and positive, at any rate; no other statement changes |
| `Journal.Services.RemoveVariables` | src/modules/botmaker-billing/billing-variables.service.ts:232-249 | refused if and only if the statement is sealed; otherwise it is gone and its period bills nothing; no other statement changes |
| `Journal.Services.CloseCycle` | src/modules/client-billing/client-billing.service.ts:1368-1548 | which error refuses which request. Otherwise a row gets the new number if and only if it is live unbilled priced support work, worked no later than the cutoff and the end of the latest month asked for, in a month asked for or, for one month, in a month some invoice in force spans; a statement is sealed if and only if it is unsealed, asked for and has an item that counts. The draft has the dates, variables, rate, hours, sums and tax terms of exactly that |
| `Journal.Services.ReopenCycle` | src/modules/client-billing/client-billing.service.ts:1616-1690 | which error refuses which invoice; a draft or sent one without credit notes is cancelled for the reason given and holds no row, statement or note; its rows and statements lose their stamp only |
| `Journal.Services.UpdateCycle` | src/modules/client-billing/client-billing.service.ts:1700-1737 | the four changes of status that are possible, and the error of any other; sending and payment are dated, notes replaced; document and balance stay, and the dates tell what is sent and paid |
| `Journal.Services.WriteOffCycle` | src/modules/client-billing/client-billing.service.ts:1750-1815 | succeeds if and only if the invoice is sent; the reason becomes a new line below its notes, document and balance stay |
| `Journal.Services.EmitCreditNote` | src/modules/client-billing/client-billing.service.ts:1909-2050 | which error refuses which request. Otherwise exactly the rows asked for are frozen as lines; unless the hours are not to come back, each has one mirror with its charge and nothing else; the note records the choice, the reason, the hours and the tax of the invoice over their sum, and the balance falls by its total |
| `Selection.WindowIsResolved` | src/modules/client-billing/client-billing.service.ts:1138-1176 | the dates of a request: why they are refused, and otherwise cutoff, start and end by the oldest and latest month asked for |
| `Selection.TakesExactly` | src/modules/client-billing/client-billing.service.ts:1181-1226 | a row is taken if and only if it is open priced support work within the cutoff and the months of the request |
| `Selection.StartIsResolved` | src/modules/client-billing/client-billing.service.ts:1231-1238 | an invoice of chosen months starts with the month of the oldest row it bills |
| `Selection.EmissionAnswers` | src/modules/client-billing/client-billing.service.ts:1368-1428 | on a sound ledger, the error of an emission in the order of the checks, said of the rows, statements and rate alone; nothing else refuses one |
| `Variables.ConvertedIsConversion` | src/modules/botmaker-billing/exchange-rate/convert-variables.ts:35-37 | whole guaranies within half a guarani of value times rate, halves up |
| `Variables.ItemLinesItemize` | src/modules/botmaker-billing/billing-variables.service.ts:269-278 | the lines of a statement are one for each item that is enabled and positive, in order, and no other |
| `Variables.CollectLinesCollect` | src/modules/botmaker-billing/billing-variables.service.ts:257-282 | collecting distinct periods gives each the lines of its open statement, and no other period any |
| `Variables.CollectedAmount` | src/modules/client-billing/client-billing.service.ts:1413-1422 | what is collected amounts to something if and only if one item is worth half a guarani |
| `Ledger.FindCharge` | src/modules/client/hours.listener.ts:108-121 | the newest row that the event matches, and none only if no row matches |
| `Ledger.ResolveLines` | src/modules/client-billing/client-billing.service.ts:1822-1868 | succeeds if and only if the invoice accepts credit and every row asked for is on it, live, billable, priced and never credited; the result lists those rows once each |
| `Ledger.OldestTaken` | src/modules/client-billing/client-billing.service.ts:1231-1238 | the oldest working day among the rows an emission takes, and none exactly when it takes no row |
| `Invariants.ReachableInv` | src/modules/client-billing/client-billing.service.ts:1368-2050 | the invariant of the ledger (quota, links, stamps, credit lines, notes, totals, seals) holds in every reachable state |
| `Invariants.ApplyKeepsInv` | src/modules/client/client.service.ts:976-1520 | each of the fourteen operations keeps the invariant |
| `Invariants.RevertKeepsInv` | src/modules/client/hours.listener.ts:114-153 | a reversal keeps quota, tombstones and refunds consistent |
| `Invariants.DeleteKeepsInv` | src/modules/client/client.service.ts:1045-1202 | a deletion keeps quota and links, for mirrors and for ordinary rows |
| `Invariants.EditKeepsInv` | src/modules/client/client.service.ts:1220-1340 | an edit keeps quota, and never reaches what is billed or credited |
| `Invariants.IssueKeepsInv` | src/modules/client-billing/client-billing.service.ts:1448-1537 | an emission stamps rows inside its months, seals what it bills and stores the totals of what it stamped |
| `Invariants.ReopenKeepsInv` | src/modules/client-billing/client-billing.service.ts:1641-1672 | a cancellation leaves nothing stamped or sealed with the invoice, and no credited row free |
| `Invariants.CreditKeepsInv` | src/modules/client-billing/client-billing.service.ts:1942-2021 | a credit note is the tax of its invoice over its own lines; mirrors are unique, credited and free of quota |
| `Invariants.CollectedOfPeriod` | src/modules/botmaker-billing/billing-variables.service.ts:257-282 | collecting distinct periods takes the lines of each one once, and of no other |
| `History.ApplyPersists` | src/modules/client-billing/client-billing.service.ts:1368-2050 | no operation changes a link, a credited charge, an issued document, a note or a line, and status only moves up |
| `History.ReplayPersists` | src/modules/client-billing/client-billing.service.ts:1368-2050 | the same through every run |
| `Prices.PricesFollowHoursAndRates` | src/modules/client/client.service.ts:1288-1302 | in every reachable state a priced row is a charge with a rate, and its price is its own hours times its own stored rate to within half a cent plus half a cent per hour, whatever edits and credits happened |
| `Prices.EditPricesTheTypedRate` | src/modules/client/client.service.ts:1288-1302 | an edit prices the hours with the rate as typed, rounded to the cent once, and stores that rate in whole cents |
| `Prices.StoredRateReprices` | src/modules/client/client.service.ts:1288-1302 | the price of an edit is the price at the stored rate for all hours if and only if the typed rate is whole cents |
| `Prices.ApplyKeepsPrices` | src/modules/client/client.service.ts:1288-1302 | each of the fourteen operations keeps every price near its hours at its stored rate, edits with rates of any number of decimals included |
| `Prices.HoursAreRoundedTwice` | src/modules/client/hours.listener.ts:54-58 | seconds go to minutes and minutes to ten-thousandths of an hour: within half a minute and half a ten-thousandth of what was worked |
| `Chains.NoHourIsChargedTwice` | src/modules/client-billing/client-billing.service.ts:1988-2021 | in every reachable state, billed minus credited over the chain of a movement is 0 or its own price; the price exactly when its last row is invoiced and uncredited |
| `Chains.ChainsAreLinear` | src/modules/client-billing/client-billing.service.ts:2003-2020 | mirrors never fork: of two rows of a chain, one was copied from the other |
| `Chains.FollowedIsCredited` | src/modules/client-billing/client-billing.service.ts:1988-2021 | every row of a chain but the last one is credited |
| `Chains.ChainsKeepTheCharge` | src/modules/client/client.service.ts:1259-1266 | all rows of a chain have the price, hours, rate and day of the root |
| `Chains.CreditedRowStaysStamped` | src/modules/client-billing/client-billing.service.ts:1641-1672 | a credited row keeps its invoice and its charge through every later run, and that invoice is never cancelled |
| `Accounts.QuotaIsConserved` | src/modules/client/client.service.ts:976-1004 | the three counters equal the summed hours of live purchase, usage and loan rows, mirrors left out, in every reachable state |
| `Accounts.TotalsAreFrozen` | src/modules/client-billing/client-billing.service.ts:1476-1525 | stored amounts never move, and while an invoice is in force they are the tax over its stamped rows plus its variables, after any run |
| `Accounts.CancelledHoldsNothing` | src/modules/client-billing/client-billing.service.ts:1641-1672 | a cancelled invoice holds no rows, statements or notes, for ever |
| `Accounts.VariablesAreBilledOnce` | src/modules/client-billing/client-billing.service.ts:1240-1256 | an invoice in force billed, for each month, one line for each enabled positive item of the statement it sealed, and nothing for a month it did not seal |
| `Accounts.SealedStatementsAreKept` | src/modules/botmaker-billing/billing-variables.service.ts:176-249 | a sealed statement neither changes nor goes while its invoice is in force, through every run |
| `Accounts.CancellingFreesItsVariables` | src/modules/client-billing/client-billing.service.ts:1660-1665 | cancelling makes billable again exactly the variables the invoice had billed |
| `Accounts.CancellingFreesItsRows` | src/modules/client-billing/client-billing.service.ts:1655-1659 | cancelling frees exactly the rows of the invoice, charges untouched, and none of them was credited |
| `Balance.BalanceIsOutstanding` | src/modules/client-billing/client-billing.service.ts:528-538 | without tax or with tax included, the balance is exactly the uncredited stamped amount plus variables, and never negative |
| `Balance.BalanceIsNearOutstanding` | src/modules/client-billing/client-billing.service.ts:528-538 | with tax added and k notes, the balance is within (k + 1) / 2 cents of (1 + rate) times that amount |
| `Refunds.RefundsPointAtTombstones` | src/modules/client/hours.listener.ts:114-153 | every refund points at one tombstoned charge, and no other refund does |
| `Refunds.GuardsNeverFire` | src/modules/client-billing/client-billing.service.ts:1220-1229 | no reachable state has a live refund on a billable row or a billable row without a day: both errors are unreachable |
| `Refunds.ConfirmIsIdempotent` | src/modules/client/client.service.ts:1480-1519 | once a key is on the ledger, any later delivery of it changes nothing, after any run |
| `Refunds.ConfirmTwice` | src/modules/client/client.service.ts:1480-1519 | two deliveries in a row of one confirmation are one delivery, whatever it holds |
| `Refunds.RevertGivesBack` | src/modules/client/hours.listener.ts:114-153 | a reversal that finds its charge is never skipped as already refunded: it writes refund, tombstone and counter |
| `Refunds.KeyedRevertIsIdempotent` | src/modules/client/hours.listener.ts:97-112 | a keyed reversal that found its charge, delivered again after any run, changes nothing |
| `Refunds.LateReversalNeedsItsCharge` | src/modules/client/hours.listener.ts:97-112 | a keyed reversal that found nothing acts on a later delivery if and only if its charge was confirmed in between, under a key that was not on the ledger before |
| `Refunds.BilledChargesAreTombstoned` | src/modules/client/hours.listener.ts:108-153 | the handler alone does not look at the stamp: a charge on an invoice is tombstoned, keeps its stamp, and the invoice adds up to the same |
| `Refunds.UnkeyedRevertRepeats` | src/modules/client/hours.listener.ts:97-112 | an unkeyed reversal delivered again changes nothing if and only if the task has no other live charge of its own |
| `Witnesses.SecondDeliveryActs` | src/modules/client/hours.listener.ts:97-112 | a reachable ledger on which an unkeyed reversal acts twice |
| `Lifecycle.VisibilityFormsAgree` | src/modules/portal/invoice-visibility.util.ts:40-64 | the rule in memory and its query form select the same invoices |
| `Lifecycle.VisibleExactlyWhenSent` | src/modules/portal/invoice-visibility.util.ts:40-51 | in every reachable state the client sees an invoice exactly when it has a sending date |
| `Lifecycle.OnceVisibleAlwaysVisible` | src/modules/portal/invoice-visibility.util.ts:40-51 | a visible invoice stays visible, with the same sending date, through every run |
| `Lifecycle.PaidExactlyWhenPaid` | src/modules/client-billing/client-billing.service.ts:1711-1716 | the payment date is set exactly in the paid status |
| `Lifecycle.NotesStandOnIssuedInvoices` | src/modules/client-billing/client-billing.service.ts:1831-1837 | credit notes exist only on sent, paid or written-off invoices |
| `Lifecycle.AtMostThreeChanges` | src/modules/client-billing/client-billing.service.ts:46-50 | no run changes the status of an invoice more than three times |
| `Calendar.MonthsStartOnTheirDates` | src/modules/client-billing/client-billing.service.ts:279-298 | months start on the dates of the Gregorian calendar, counted by 365 days a year and the leap years between |
| `Calendar.LocalDayLasts` | src/modules/client-billing/client-billing.service.ts:331-349 | a day in Asuncion lasts the 24 hours from three hours after its UTC midnight |
| `Calendar.PeriodHoldsItsMonth` | src/modules/client-billing/client-billing.service.ts:279-313 | the bounds of a period hold exactly the instants whose month in Asuncion it is |
| `Calendar.UtcPartsAreNeeded` | src/modules/client-billing/client-billing.service.ts:356-358 | a working day read by its UTC parts gives its month; read in Asuncion it gives the month before exactly on first days |
| `Calendar.MonthKeysInRange` | src/modules/client-billing/client-billing.service.ts:382-399 | the walk lists the consecutive months of the range in order, once each, 240 at most |
| `Reentry.ChosenMonthsAreClosed` | src/modules/client-billing/client-billing.service.ts:1231-1238 | an invoice of chosen months closes the month of a row it stamped if and only if that month is less than 240 months after its start |
| `Witnesses.LastMonthStaysOpen` | src/modules/client-billing/client-billing.service.ts:382-399 | for every span of more than 240 months, a run whose invoice stamps a row of its last month and leaves that month open |
| `Reentry.ChosenMonthsCoverTheirMirrors` | src/modules/client-billing/client-billing.service.ts:366-399 | every waiting mirror of an invoice of chosen months that spans at most 240 months has its month closed by it |
| `Reentry.CoveredMirrorIsTaken` | src/modules/client-billing/client-billing.service.ts:1156-1161 | a covered mirror is taken by every monthly emission whose cutoff is not before its working day |
| `Reentry.CoveredMirrorIsRebilled` | src/modules/client-billing/client-billing.service.ts:1476-1479 | and an emission that succeeds stamps it with the new invoice |
| `Reentry.WholeMonthsTakeTheMirror` | src/modules/client-billing/client-billing.service.ts:1156-1161 | without a cutoff of its own, every emission of the month of the work or of a later month takes the covered mirror |
| `Reentry.CoverageIsForever` | src/modules/client-billing/client-billing.service.ts:1641-1653 | coverage is never lost: the invoice of the original has a note, so it can never be cancelled |
| `Reentry.CancellingStrandsTheMirror` | src/modules/client-billing/client-billing.service.ts:1156-1161 | for the other mirrors: after a cancellation some emission of another month can still take the mirror if and only if another invoice in force covers its month |
| `Witnesses.MirrorGetsStranded` | src/modules/client-billing/client-billing.service.ts:1156-1161 | for every month, a run in which a waiting mirror is within reach until the one invoice covering its month is cancelled |
| `Tax.RoundingBounds` | src/modules/client-billing/client-billing-tax.util.ts:77-89 | rounding is within half a unit, halves away from zero |
| `Tax.OneTermIsRounded` | src/modules/client-billing/client-billing-tax.util.ts:76-89 | the added tax is base times rate to the cent, the extracted net is total over one plus rate to the cent |
| `Tax.BreakdownCloses` | src/modules/client-billing/client-billing-tax.util.ts:63-89 | net plus tax is the total; which modes keep the base as total or as net, and when there is no tax |
| `Tax.BreakdownIsOrdered` | src/modules/client-billing/client-billing-tax.util.ts:63-89 | a non-negative base gives 0 <= net <= total and a non-negative tax |
| `Tax.BreakdownIsMonotone` | src/modules/client-billing/client-billing-tax.util.ts:63-89 | both modes are monotone in the base, in net, tax and total |
| `Tax.ExcludedThenIncluded` | src/modules/client-billing/client-billing-tax.util.ts:76-89 | adding the tax and extracting it again recovers net and tax exactly, at every positive rate |
| `Tax.IncludedThenExcluded` | src/modules/client-billing/client-billing-tax.util.ts:76-89 | extracting and adding again misses the total by at most 1 + rate / 2 cents |
| `Tax.OneCentUpToTwoHundredPercent` | src/modules/client-billing/client-billing-tax.util.ts:76-89 | and it is within one cent for every total if and only if the rate is at most 200% |
| `Tax.MissesByTwo` | src/modules/client-billing/client-billing-tax.util.ts:76-89 | every rate above 200% has a total that comes back exactly two cents off |
| `Grouping.GroupByMonth` | src/modules/client-billing/client-billing.service.ts:1282-1311 | the bucket loop gives the months that occur, ascending, each with exactly its lines and their totals |
| `Grouping.GroupsPartition` | src/modules/client-billing/client-billing.service.ts:1282-1311 | no line is in two groups, each group holds the amount and hours its own lines add up to, and subtotals add up to the total of the lines |
| `Reports.PreviewCycle` | src/modules/client-billing/client-billing.service.ts:1274-1350 | the dry run answers the error of the dates, or the window, one line for each row an emission would bill under the month of its work, the tax over their sum, and whether an invoice can be issued: work or variables, nothing unpriced or undated, no live refund |
| `Reports.EmissionSucceedsExactly` | src/modules/client-billing/client-billing.service.ts:1368-1402 | exactly when an emission goes through, pending variables included |
| `Reports.TakenIsStamped` | src/modules/client-billing/client-billing.service.ts:1495-1500 | summing the rows picked is what the aggregate over stamped rows gives |
| `Reports.PreviewIsEmission` | src/modules/client-billing/client-billing.service.ts:1280-1328 | with no pending variables and no step in between, the preview says yes exactly when the emission succeeds, and its net, tax, total, hours and dates are those stamped |
| `Reports.CreditPreviewIsEmission` | src/modules/client-billing/client-billing.service.ts:1874-1892 | the credit preview fails exactly when and how the emission fails, shows the amounts, hours and terms that get written, and lists exactly the lines that get written |
| `Reports.InvoiceGroups` | src/modules/client-billing/client-billing-pdf.service.ts:172-192 | the document takes every stamped row, tombstones included, and groups them by month of work |
| `Reports.StampedRowsAreShownOnce` | src/modules/client-billing/client-billing-pdf.service.ts:172-192 | every stamped row is in exactly one group, that of the month it was worked in |
| `Reports.InvoiceCloses` | src/modules/client-billing/client-billing.service.ts:1092-1109 | group subtotals plus variables are the net where tax is added and the total otherwise, and the hours of the groups are those of the invoice |
| `Reports.CreditNoteGroups` | src/modules/client-billing/client-billing-pdf.service.ts:293-320 | the document of a credit note groups its negated lines by month of work |
| `Reports.CreditNoteCloses` | src/modules/client-billing/client-billing-pdf.service.ts:293-320 | its groups add up to the negated subtotal of its lines, its net where tax is added and its total otherwise, and to its hours |
| `Rollup.HoursBillingRollup` | src/modules/client-billing/client-billing.service.ts:847-1024 | pending is the price of all open support work up to the end of the current month, each group of stamped rows is one invoice on the card of its status, each bucket is the sum of its invoices, and each badge follows the status |
| `Rollup.PendingIsWhatCanBeBilled` | src/modules/client-billing/client-billing.service.ts:406-416 | a row is on the invoice that chooses the month of its work, up to the end of the current month, if and only if the pending card counted it |
| `Rollup.EmissionKeepsTheMoney` | src/modules/client-billing/client-billing.service.ts:848-877 | an emission takes from the pending card exactly what it stamps and puts it on the other two: the cards together show the same money before and after |
| `Rollup.CardsAreDated` | src/modules/client-billing/client-billing.service.ts:926-930 | a card dates an invoice by its payment, else by its sending, else by its creation, and a badge says pending exactly if the client was never sent it |
| `Rollup.CardCreditsWhatWasCredited` | src/modules/client-billing/client-billing.service.ts:933-942 | the credited amount of a card is what the credited rows of that invoice hold, and its total with the credited total of its notes is the balance |
| `Rollup.CardAmountIsInForce` | src/modules/client-billing/client-billing.service.ts:988-1003 | the amount of an invoice on a card is what its own live uncredited rows hold |
| `Rollup.CardsPartitionTheMoney` | src/modules/client-billing/client-billing.service.ts:981-1024 | invoiced plus paid is the money of live, priced, stamped, uncredited rows; no group is an orphan or cancelled; nothing pending is stamped |
| `Numbering.NumbersAreExact` | src/modules/client-billing/client-billing.service.ts:1446-1547 | for any interleaving of counts, inserts and aborts, a number is issued if and only if it is in 1..n, n being the count of its series |
| `Numbering.NumbersAreUnique` | src/modules/client-billing/client-billing.service.ts:434-452 | no document is there twice and two emissions never get the same number, for invoices and credit notes |
| `Numbering.ConflictNeedsFiveOverlaps` | src/modules/client-billing/client-billing.service.ts:1539-1546 | an emission that ends in a conflict was overlapped by at least five others that succeeded |
| `Numbering.FiveOverlapsSuffice` | src/modules/client-billing/client-billing.service.ts:1539-1546 | and from any state there is an interleaving in which as many overlaps as attempts left make it fail |
| `Numbering.AloneSucceeds` | src/modules/client-billing/client-billing.service.ts:1446-1456 | an emission that nobody overtakes gets the next number |
| `Numbering.TextSpellsTheDocument` | src/modules/client-billing/client-billing.service.ts:1454-1455 | the text spells kind, year and number, the number in five digits or more |
| `Numbering.TextTellsDocumentsApart` | src/modules/client-billing/client-billing.service.ts:1454-1455 | the padded text under the unique index determines year and number |
| `Tickets.Desk.CloseOpenTickets` | src/modules/client/client.service.ts:430-466 | the sweep loop closes exactly the open tickets, each with an event that keeps its status |
| `Tickets.Desk.FindLastClose` | src/modules/client/client.service.ts:494-500 | the newest closing of a ticket by a change of status, or open |
| `Tickets.Desk.RestoreTickets` | src/modules/client/client.service.ts:484-524 | the restore loop brings back exactly the tickets closed without a reason |
| `Tickets.Desk.ChangeClientStatus` | src/modules/client/client.service.ts:358-396 | the transaction of disabling, archiving or reactivating |
| `Tickets.ChangeEffect` | src/modules/client/client.service.ts:430-524 | what a change of the client does to its own status, to each single ticket, and to the status its events restore |
| `Tickets.CreateOpens` | src/modules/ticket/ticket.service.ts:1732-1779 | a new ticket is open, with nothing on it but the event of its creation |
| `Tickets.UpdateMoves` | src/modules/ticket/ticket.service.ts:765-800 | from the detail a ticket stays or follows one of seven moves, is resolved only once classified, and its events record where it was and that it was reopened |
| `Tickets.CloseCancels` | src/modules/ticket/ticket.service.ts:1207-1275 | a ticket is cancelled if and only if it is open and the note says something |
| `Tickets.DragMoves` | src/modules/ticket/ticket.service.ts:1403-1460 | a dragged card follows one of the seven moves or changes nothing |
| `Tickets.ReactivationRestores` | src/modules/client/client.service.ts:484-524 | after any run that leaves a ticket without close reason alone, reactivation gives it the status it had, and its internal notes |
| `Tickets.SettledTicketsAreKept` | src/modules/client/client.service.ts:489-492 | resolved tickets and tickets closed for a reason are not touched, through any run |
| `Tickets.ReactivationIsIdempotent` | src/modules/client/client.service.ts:484-524 | a second reactivation changes nothing |
| `Tickets.RestoredExactlyWithoutReason` | src/modules/client/client.service.ts:489-492 | disabling and reactivating gives an open ticket its status back if and only if no close reason is stored on it |
| `Tickets.ReopenedTicketsAreLost` | src/modules/ticket/ticket.service.ts:840-858 | every ticket closed by hand and reopened keeps its reason and stays closed after a disable and reactivate |
| `Versions.HeadEndsTheChain` | src/modules/file/file.service.ts:297-319 | the head is in the tree, no older than the start, live unless it is the start, and nothing live follows it |
| `Versions.OperationsKeepForest` | src/modules/file/file.service.ts:251-295 | uploads, new versions and soft deletes keep versions growing along links and at most one live child per file |
| `Versions.NewVersionFollowsItsHead` | src/modules/file/file.service.ts:251-295 | a new version hangs from a file of the same tree that nothing live follows, one version higher, with its project, category and visibility |
| `Versions.DeletedNumberIsReused` | src/modules/file/file.service.ts:251-295 | deleting the newest version and creating another from the one before gives the same version number again |
| `Versions.NumbersAreUniqueExactly` | src/modules/file/file.service.ts:251-295 | the version numbers of a document are unique if and only if no two of its files were made from the same one |
| `Versions.NewNumberIsUniqueExactly` | src/modules/file/file.service.ts:251-295 | a new version keeps them unique if and only if no file, deleted or not, was ever made from the head |
| `Versions.Store.FindHeadVersion` | src/modules/file/file.service.ts:297-319 | the walk down terminates at the head |
| `Versions.Store.AddVersion` | src/modules/file/file.service.ts:251-295 | attaches to the head, one version higher, with its project, category and visibility, or refuses |
| `Versions.Store.SoftDeleteDocument` | src/modules/file/file.service.ts:369-392 | a project document is marked deleted and nothing else changes; a missing file and one of no project are refused as such |
| `Versions.Store.FindRoot` | src/modules/file/file.service.ts:321-336 | the walk up terminates at the root |
| `Versions.Store.ListVersions` | src/modules/file/file.service.ts:321-367 | from any member, the whole tree, each version once, in ascending order |
| `DuplicateRequests.Middleware.Use` | src/common/middleware/duplicate-request.middleware.ts:37-68 | the count of a request is the number of requests of its key in the last window over the whole history, and it warns exactly at four; health probes count nowhere |
| `DuplicateRequests.KeysTellRequestsApart` | src/common/middleware/duplicate-request.middleware.ts:50-51 | two requests count together if and only if session, verb and path are the same |
| `DuplicateRequests.PathEndsAtTheQuery` | src/common/middleware/duplicate-request.middleware.ts:38-39 | the path is the address up to its first question mark |
| `DuplicateRequests.ProbesAreHealthPaths` | src/common/middleware/duplicate-request.middleware.ts:41-44 | a request is a probe if and only if /health stands somewhere in its path |
| `DuplicateRequests.Middleware.Sweep` | src/common/middleware/duplicate-request.middleware.ts:70-79 | the purge loop keeps everything that can still count |
| `DuplicateRequests.Middleware.StoredIsRecent` | src/common/middleware/duplicate-request.middleware.ts:70-79 | no stored timestamp is as old as two windows |
| `DuplicateRequests.AliveIsCounted` | src/common/middleware/duplicate-request.middleware.ts:53-55 | the timestamps alive for a key are as many as its requests in the window |
| `DuplicateRequests.WarnsAgainExactly` | src/common/middleware/duplicate-request.middleware.ts:57-64 | inside the window of a warning, any later request of the key warns again if and only if the counted requests that left the window are one more than those that arrived in between |
| `DuplicateRequests.SteadyRequestsWarn` | src/common/middleware/duplicate-request.middleware.ts:57-64 | a stream of requests every d ms warns at the fourth if and only if d is at most 333, and at each later one if and only if d is 250 to 333 |

## Left out

- Text forms of periods (`YYYY-MM`, its regular expression, padding, years below 1000 or above 9999): months are integers.
- The rule that computes the commercial value of an item, label trimming and the provenance fields of a statement: an item is its name, value and switch.
- Totals of pending variables per month, the list of invoices, the builder screen and the ledger page: they read what the model already has.
- The order of the lists on the cards and the hours of a card, the order of the rows inside a month, labels, headers and money formats of the documents.
- Kinds of text that only describe: notes of a movement, deletion reasons, descriptions of credit lines, currency codes.
- Validation of requests: hours, prices and rates arrive non-negative, reasons arrive trimmed, the lists of rows of a credit note arrive as given.
- Hard deletion of tasks and files: tasks and files stay once they exist.
- The development rate of a client and the frozen re-synchronization of missed hours: no path of the services reaches them.
- Several clients in one ledger: rows, invoices and statements are those of one client; only `Numbering` has organizations.
- Races between the transactions of the ledger: they are atomic steps. Races in the numbering are modelled, those of two simultaneous new versions of one document are not.
- Documents dated in another year than the one they are numbered in: a document belongs to the series it was counted in.
- Hours typed by hand with more than four decimals: hours count ten-thousandths, as those of time entries do.
- Floating-point noise of hours and prices: hours and prices are exact decimals, rounded half up.
- Daylight saving: Asuncion is a fixed UTC-3.
- Sessions, audit, events, push, mail, files in storage, permissions, pagination and organization checks.
- Tickets: SLA marks, assignment, synchronization with the outside and the board card behind a ticket; a status change is as the ticket sees it.
- Rows that predate the ledger's rules or were repaired by hand.
- Clocks that run backwards in the counter of repeated requests: the proof needs a clock that does not decrease, and how a session is told apart is a parameter.
