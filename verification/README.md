# Decision logic behind the FCOS dashboards

A Dafny model of the deterministic logic that turns Salesforce rows into credit forecasts, charts,
allocations, search queries and files, with proofs of what that logic promises. Apart from the examples,
every result holds for all inputs. `dafny verify dfyconfig.toml` checks the whole project.

| part | modules |
|---|---|
| Buyer credit: delay model, release dates, forecast, quantity band, chart and its points | `PaymentDelay`, `ReleaseDate`, `BuyerForecast`, `ExposureRange`, `BuyerChart`, `BuyerBand`, `BuyerPoints` |
| Supplier credit: cost estimate, forecast, rows, step series, used-credit bridge | `SupplierEstimate`, `SupplierForecast`, `SupplierSeries`, `UsedCreditBridge` |
| Merging buyer and supplier | `CombinedExposure` |
| CSV writer and two readers; the Buyer PIC directory's file; the bank statement's delimiter | `Csv`, `PicDirectory`, `BankStatement` |
| Canonical JSON and snapshot comparison | `StableJson`, `InvoiceSnapshot` |
| AI search compiler, and its query as written text | `Soql`, `AiQuery`, `SoqlText`, `SoqlWriting`, `AiQueryText` |
| Allocation of disputes and of STEM results | `DisputeAllocation`, `SupplierContribution` |
| Graph and paging loops, recurrences | `GroupMembers`, `CounterpartyDirectory`, `PlannedMovements` |
| Shared | `Options`, `Integers`, `Sorting`, `Money`, `Calendar`, `Texts` |

How the source's values appear in the model:

- Buyer amounts are exact reals; rounding to two decimals is `Money.Round2`, and `Number.EPSILON` has
  nothing to correct. Supplier, bridge and dispute amounts are whole cents, so the tolerance 0.005 is
  zero, 0.01 is one cent and one currency unit is 100. Shares and revenues are exact reals.
- Dates are day numbers, or year, month and day where the calendar matters. `null` is an explicit option.
- Ids, names and texts that are only compared are integers in the order the source sorts by; `trim` with
  `localeCompare` on row Ids is an arbitrary rank that equal values share.
- Salesforce queries are filters of a table; the weight of a payment in the delay model is an arbitrary
  positive function. How a number is written in a query and which type a field has are parameters.
- Functions of the source that loop over mutable variables are methods with loops, each tied to a
  specification function or to a direct statement; expressions are functions. No source object keeps
  state between calls, so there are no classes.
- Lemmas switch automatic induction off, so that every proof by induction is the one written in the lemma.

Results where the code falls short of what a reader may expect, each with its exact condition and, where the
condition does not show it, an input that fails:

- a negative unit price can turn the quantity band around: `ExposureRange.BandOrderedIff`, with
  `LinesOrderedIff` and `ChargedRowOrderedIff` for the rows; smallest example `NegativePriceInverts`;
- week and month buckets may start before today, and the combined sweep then misses them:
  `BuyerPoints.ChartOrderedIff`, `WeekChartOrderedIff` and `MonthChartOrderedIff`, with
  `CombinedExposure.SweepIsLookupIffOrdered`; example `BuyerPoints.EarlyBucketOnWednesday`;
- the two CSV readers disagree on text after a closing quote: `Csv.ReadersAgreeIff`; shortest example
  `ReadersDisagreeOnTextAfterQuote`;
- an exported Buyer PIC directory comes back with apostrophes before cells that look like formulas, and not at all
  if it is empty or too large: `PicDirectory.RoundTripIff`; example `FormulaDoesNotComeBack`;
- wildcards in a searched value are not escaped: `Soql.ContainsIffNoWild`;
- a supplier invoice listed twice is allocated twice if it gets anything:
  `DisputeAllocation.RepeatedInvoiceCountsTwice`; example `RepeatedInvoiceHappens`;
- a deciding total equal to the number of suppliers makes shares equal: `SupplierContribution.ProportionalIff`;
  example `EqualSharesHappen`;
- a negative cost estimate unbalances its row: `SupplierSeries.RowBalancesIff`, `SupplierEstimate.NegativeIff`;
  example `SupplierSeries.NegativeCostUnbalances`;
- evidence rows that disagree under one Id make the bridge depend on their order:
  `UsedCreditBridge.OrderShowsIff`; example `OrderShowsHere`;
- thirty days without a free weekday leave the release date on a day that is not free:
  `ReleaseDate.BusinessDayIsFreeIff`, with `TwentyBlockedDatesSuffice`;
- the 600-step guard can lose planned dates: `PlannedMovements.GuardLosesNothingIff`; example `GuardLoses2026`;
- a GROUP whose name starts with a blank is listed nowhere: `CounterpartyDirectory.DirectoryIsComplete`; example
  `BlankGroupIsLost`. Whether Salesforce stores such a name is outside the source, which trims names where it
  reads them but not in its query.

## Model

| member | source | states |
|---|---|---|
| PaymentDelay.ClampDelay | api/_buyerPaymentPerformance.js:27-31 | the nearest whole delay, half a day up, held between -15 and 120 days |
| PaymentDelay.RecencyWeightedPercentile | api/_buyerPaymentPerformance.js:74-87 | the loop over the sorted samples returns the clamped percentile that the lemmas below characterize |
| PaymentDelay.PercentileIsLeast | api/_buyerPaymentPerformance.js:74-87 | the result is the clamped least sample delay whose cumulative weight reaches that share of the weight of all samples with a delay, zero without any |
| PaymentDelay.PercentileMonotone | api/_buyerPaymentPerformance.js:74-87 | a higher percentile never gives a shorter delay |
| PaymentDelay.PredictedDelayOrdered | api/_buyerPaymentPerformance.js:89-168 | whichever of the buyer, group or global model is selected, typical <= cautious <= severe |
| PaymentDelay.PredictedDelayIs | api/_buyerPaymentPerformance.js:89-168 | the delay is the median, third quartile or ninth decile of the buyer's own payments if there are enough, else of its group's, else of everyone's |
| ReleaseDate.AdjustCreditForecastBusinessDay | api/_dashboardAccountCreditStatement.js:581-596 | the search loop moves a missing, past, weekend or blocked date to the day the specification gives, and says whether it moved it |
| ReleaseDate.BusinessDayIsLeast | api/_dashboardAccountCreditStatement.js:581-596 | with fewer than 20 blocked dates the result is the least free weekday from max(date, today) on |
| ReleaseDate.BusinessDayIsFreeIff | api/_dashboardAccountCreditStatement.js:581-596 | the result is a free weekday exactly if one of the 30 days searched is |
| ReleaseDate.ThirtyDaysHoldTwenty | api/_dashboardAccountCreditStatement.js:586-594 | any 30 consecutive days hold at least 20 weekdays |
| ReleaseDate.TwentyBlockedDatesSuffice | api/_dashboardAccountCreditStatement.js:586-594 | twenty blocked dates can leave the result on a weekend: the bound is sharp |
| ReleaseDate.BusinessDayMonotone | api/_dashboardAccountCreditStatement.js:581-596 | whatever is blocked, a later date is never adjusted to an earlier day, nor any date into the past |
| ReleaseDate.CandidateFacts | api/_dashboardAccountCreditStatement.js:554-625 | from invoices, cashflows, STEM due date and delivery term: a candidate is never past, and there is none exactly if none of the four says when the STEM is due or it is overdue without a payment model |
| ReleaseDate.CandidateIs | api/_dashboardAccountCreditStatement.js:554-625 | the STEM is due on the earliest invoice, else cashflow, else its own date, else the delivery term; the candidate is that day, missed if past, or with a model that day plus the delay on a business day |
| ReleaseDate.ConservativeIsNeverEarlier | api/_dashboardAccountCreditStatement.js:598-625 | modelled release dates satisfy typical <= cautious <= severe |
| BuyerForecast.PourSlots | api/_dashboardAccountCreditStatement.js:640-660 | the loop that lowers `remaining` and pushes events yields the poured events and the rest |
| BuyerForecast.ForecastEventsForExposure | api/_dashboardAccountCreditStatement.js:640-667 | confirmed payments, then scheduled payments, then one residual event, as the lemmas below describe |
| BuyerForecast.PourConserves | api/_dashboardAccountCreditStatement.js:643-660 | events plus rest equal the exposure, events are positive, the rest keeps the exposure's sign |
| BuyerForecast.ForecastConserves | api/_dashboardAccountCreditStatement.js:640-667 | the events of a STEM add up to its exposure within one cent |
| BuyerForecast.ForecastSigns | api/_dashboardAccountCreditStatement.js:640-667 | only the residual event can be undated, and only a negative exposure makes it negative |
| BuyerForecast.ForecastDates | api/_dashboardAccountCreditStatement.js:640-667 | every dated event lies today or later |
| BuyerForecast.PourIsGreedy | api/_dashboardAccountCreditStatement.js:643-660 | payments take all they can: what is left is the excess over their capacity, or at most a cent |
| BuyerForecast.ResidualIsTheExcess | api/_dashboardAccountCreditStatement.js:640-667 | the residual event exists exactly if the exposure exceeds all payments' capacity by more than a cent, and holds that excess; a negative exposure becomes one residual event as a whole |
| BuyerForecast.PoursCompare | api/_dashboardAccountCreditStatement.js:640-660 | a higher exposure leaves at least as much outside any selection of slots |
| BuyerForecast.KeptMonotone | api/_dashboardAccountCreditStatement.js:640-667 | exposure minus the releases in any set of dates is monotone in the starting exposure, within one cent |
| BuyerForecast.SlotsAreAhead | api/_dashboardAccountCreditStatement.js:627-638 | future payments lie after today, scheduled releases today or later, actual releases today or earlier |
| BuyerForecast.PourNext | api/_dashboardAccountCreditStatement.js:643-660 | slot by slot: unless a release has left at most a cent, the next one releases its amount or all that is left, on its own date |
| BuyerForecast.ConfirmedComeFirst | api/_dashboardAccountCreditStatement.js:640-667 | confirmed payments release all they can of the exposure, then scheduled ones of what those leave |
| BuyerForecast.SlotsAreRecords | api/_dashboardAccountCreditStatement.js:627-688 | the slots are, by date, the records that are the first of their Id with a date on the right side of today and, for payments, an amount |
| ExposureRange.BuildBuyerExposureRange | api/_dashboardAccountCreditStatement.js:951-1106 | the loops give the range that the lemmas below describe |
| ExposureRange.BandIs | api/_dashboardAccountCreditStatement.js:951-1106 | there is a band exactly if the input is complete, some row is active and every active row has price and quantity, or its fixed amount; minimum and maximum lie what the rows spread below and above the exposure |
| ExposureRange.LineAdds | api/_dashboardAccountCreditStatement.js:907-1014 | an order line adds its first price times its quantity: the delivered one if there is one, else the ordered one, at the ends and in the middle of a range |
| ExposureRange.ExtraAdds | api/_dashboardAccountCreditStatement.js:907-1064 | an extra cost with a unit price adds the same, at least its minimum charge |
| ExposureRange.FixedAdds | api/_dashboardAccountCreditStatement.js:1023-1045 | a fixed one, or one without a unit price, adds its fixed amount |
| ExposureRange.CancelledAdds | api/_dashboardAccountCreditStatement.js:952-953 | a cancelled row of either kind adds nothing |
| ExposureRange.HasRangeIff | api/_dashboardAccountCreditStatement.js:907-1064 | a range is reported exactly if an active priced row that is not delivered has a maximum above its order |
| ExposureRange.FirmBandIsExposure | api/_dashboardAccountCreditStatement.js:951-1106 | without such a row the band is the rounded exposure, whatever the rows cost |
| ExposureRange.DeliveredBandIsExposure | api/_dashboardAccountCreditStatement.js:907-1106 | so it is where all quantities were delivered, whatever was ordered |
| ExposureRange.ScenarioOrdered | api/_dashboardAccountCreditStatement.js:939-949 | with a non-negative price so are the amounts, minimum charges included |
| ExposureRange.BandEncloses | api/_dashboardAccountCreditStatement.js:951-1106 | with non-negative unit prices the band is in order and encloses a whole-cent exposure exactly, any other within half a cent |
| ExposureRange.LinesOrderedIff | api/_dashboardAccountCreditStatement.js:907-949 | order lines keep minimum, midpoint and maximum in order if and only if the sum of price times quantity width is not negative |
| ExposureRange.ChargedRowOrderedIff | api/_dashboardAccountCreditStatement.js:939-949 | a row with a minimum charge is in order if and only if its price is not negative, its quantity is firm or the charge covers the whole range |
| ExposureRange.BandOrderedIff | api/_dashboardAccountCreditStatement.js:951-1106 | the band around a whole-cent exposure is in order if and only if neither half of what the rows add is below zero by more than the half cent that rounding hides |
| ExposureRange.NonNegativeKeepsOrder | api/_dashboardAccountCreditStatement.js:907-1106 | non-negative unit prices meet that condition, minimum charges included |
| ExposureRange.BandOrderBounds | api/_dashboardAccountCreditStatement.js:951-1106 | for any exposure non-negative halves suffice, and a half of minus one cent or less turns the band around |
| ExposureRange.NegativePriceInverts | api/_dashboardAccountCreditStatement.js:939-949 | the smallest example of a band turned around |
| BuyerChart.BuildStemCreditRelease | api/_dashboardAccountCreditStatement.js:669-715 | a release carries the forecast of the exposure and of both ends of its range from payments, cashflows and due evidence, the actual releases, and the first forecast date, which is never past |
| BuyerChart.StemIsAhead | api/_dashboardAccountCreditStatement.js:554-715 | nothing that is built from a STEM's records lies before today |
| BuyerChart.FillBuckets | api/_dashboardAccountCreditStatement.js:766-795 | there is a bucket for exactly the bucket dates of the events, and it holds the six sums of the events that fall on it |
| BuyerChart.BuildCreditReleaseChart | api/_dashboardAccountCreditStatement.js:735-884 | a point today, one per bucket in ascending order with the balances after it, and a later plateau that repeats the last balances; a projection that is off shows nothing; the undated exposure is the total without a date |
| BuyerBand.BucketsHold | api/_dashboardAccountCreditStatement.js:766-795 | the buckets of some dates hold exactly the events that fall on those dates, group = account + other |
| BuyerBand.AmountsAreReleases | api/_dashboardAccountCreditStatement.js:752-795 | the first k buckets together are the releases of all STEMs in scope up to point k |
| BuyerPoints.PointsBalance | api/_dashboardAccountCreditStatement.js:796-877 | every point, for any openings, shows the opening less the releases of all STEMs up to it, up to a rounding drift that is zero in whole cents; minimum and maximum start from the sums of the ranges |
| BuyerPoints.StatementOpeningIs | api/_dashboardAccountCreditStatement.js:1266-1330 | the openings that the statement passes, the receivable balances of account and group, are the starts of its STEMs |
| BuyerPoints.ChartInBand | api/_dashboardAccountCreditStatement.js:735-884 | with complete ordered ranges every point has minimum <= midpoint <= maximum within one cent per STEM and half a cent per rounding, the latter not in whole cents, for account and group |
| BuyerPoints.PricedChartNeverInverts | api/_dashboardAccountCreditStatement.js:669-1106 | the same from the records on: Buyer Invoices or priced rows that keep the band in order give it at every point that the chart draws; payments in whole cents leave no drift |
| BuyerPoints.PlateauIsUndatedExposure | api/_dashboardAccountCreditStatement.js:820-877 | whatever bucketing was chosen, the last point shows the undated exposure that the chart reports, within one cent per STEM and the drift, which records in whole cents do not have |
| BuyerPoints.ChartOrderedIff | api/_dashboardAccountCreditStatement.js:717-884 | the points are in date order if and only if no bucket starts before today |
| BuyerPoints.BucketsAheadIff | api/_dashboardAccountCreditStatement.js:717-795 | and none does if and only if the bucket of no event does |
| BuyerPoints.DayChartOrdered | api/_dashboardAccountCreditStatement.js:717-764 | a chart by day is always in order |
| BuyerPoints.WeekChartOrderedIff | api/_dashboardAccountCreditStatement.js:717-764 | a chart by week is in order if and only if today is a Monday or nothing falls into this week |
| BuyerPoints.MonthChartOrderedIff | api/_dashboardAccountCreditStatement.js:724-764 | a chart by month is in order if and only if today is the first of a month or nothing falls into this month |
| Calendar.MonthStartIs | api/_dashboardAccountCreditStatement.js:724-726 | the month bucket of a date is the first day of its month |
| SupplierForecast.CashflowEventsForAmount | api/_dashboardSupplierCreditStatement.js:159-185 | the loop over the sorted cashflows pours the floored obligation |
| SupplierForecast.InvoiceForecastEvents | api/_dashboardSupplierCreditStatement.js:187-204 | scheduled cashflows, then the partial due date, then the due date, as the lemmas below describe |
| SupplierForecast.UninvoicedChildForecast | api/_dashboardSupplierCreditStatement.js:206-226 | cashflows, then the earliest cashflow due date or delivery plus payment term |
| SupplierForecast.InvoiceConserves | api/_dashboardSupplierCreditStatement.js:187-204 | events plus undated amount equal the floored payable balance; events are positive and dated today or later |
| SupplierForecast.ChildConserves | api/_dashboardSupplierCreditStatement.js:206-226 | the same for a cost estimate; a negative estimate leaves nothing |
| SupplierForecast.PourIsGreedy | api/_dashboardSupplierCreditStatement.js:166-183 | the first k cashflows take everything, or everything they can, and their events come first |
| SupplierForecast.CashflowsInDateOrder | api/_dashboardSupplierCreditStatement.js:162-165 | cashflows are poured by scheduled date, else due date, then by Id, none lost, and their input order does not show |
| SupplierForecast.PourStep | api/_dashboardSupplierCreditStatement.js:166-183 | cashflow by cashflow: each adds an event on its scheduled date, else on its due date where allowed, of its amount or all that is left |
| SupplierForecast.InvoiceGoes | api/_dashboardSupplierCreditStatement.js:187-204 | of what scheduled cashflows leave of an invoice, the partial amount falls on the partial date, the rest on the due date, and only what lies behind both is undated |
| SupplierForecast.ChildGoes | api/_dashboardSupplierCreditStatement.js:206-226 | what cashflows leave of a cost falls on the earliest due date from today on, else on delivery plus term, unless that is past or unknown |
| SupplierEstimate.NegativeIff | api/_dashboardSupplierCreditStatement.js:95-157 | the estimate of a cost without an invoice is negative exactly if its fixed amount, or price times quantity, is below minus half a cent |
| SupplierEstimate.FixedEstimate | api/_dashboardSupplierCreditStatement.js:107-129 | an extra cost without a unit price, or with one of nothing, is estimated at its fixed amount in nearest cents |
| SupplierEstimate.PricedEstimate | api/_dashboardSupplierCreditStatement.js:95-157 | anything else at its first price times the delivered quantity, else the maximum of its range, else the ordered one |
| SupplierEstimate.NoEstimateIff | api/_dashboardSupplierCreditStatement.js:95-157 | a cost is left out exactly if cancelled or invoiced, and without an estimate exactly if its supplier is ambiguous or price, quantity or unit is missing |
| SupplierSeries.BuildIssuedSupplierRow | api/_dashboardSupplierCreditStatement.js:228-281 | an issued row's exposure is the floored balance and equals its events plus its undated amount; no balance, no exposure |
| SupplierSeries.BuildUninvoicedSupplierRows | api/_dashboardSupplierCreditStatement.js:283-358 | the Map loop estimates each child from its evidence and gives one row per STEM, supplier and currency in order of appearance |
| SupplierSeries.ChildAdds | api/_dashboardSupplierCreditStatement.js:283-338 | a child adds its estimate and its events to the row of its STEM, supplier and currency alone |
| SupplierSeries.RowIsComplete | api/_dashboardSupplierCreditStatement.js:339-358 | a row shows an exposure exactly if every estimate on it is complete |
| SupplierSeries.GroupConserves | api/_dashboardSupplierCreditStatement.js:283-338 | a row spreads what its children are owed over events and undated amount; its exposure is less exactly if an estimate is negative |
| SupplierSeries.RowBalancesIff | api/_dashboardSupplierCreditStatement.js:283-358 | a complete row's exposure equals events plus undated amount if and only if no estimate is negative |
| SupplierSeries.NegativeCostUnbalances | api/_dashboardSupplierCreditStatement.js:95-358 | for example a row of one fixed cost of minus one |
| SupplierSeries.NoCostIsLost | api/_dashboardSupplierCreditStatement.js:283-338 | the rows together hold what all children are owed, each cost once |
| SupplierSeries.UninvoicedRowsBalance | api/_dashboardSupplierCreditStatement.js:283-358 | without negative estimates every drawn row is balanced, so the conservation of the series applies to it |
| SupplierSeries.PlainEvidenceBalances | api/_dashboardSupplierCreditStatement.js:95-358 | prices, fixed amounts and quantities of zero or more never unbalance a drawn row |
| SupplierSeries.BuildStepSeries | api/_dashboardSupplierCreditStatement.js:411-437 | remaining at each point is opening minus all releases to that date, the clamp at zero never fires, the undated exposure is what is never released |
| SupplierSeries.StepsWithinOpening | api/_dashboardSupplierCreditStatement.js:411-424 | releases are positive, dated today or later and never exceed the opening |
| SupplierSeries.OpeningAdds | api/_dashboardSupplierCreditStatement.js:411-416 | a currency opens with the exposures above zero of its complete rows |
| SupplierSeries.StepNext | api/_dashboardSupplierCreditStatement.js:416-424 | event by event: each one that is not past releases what the earlier ones leave of the row's exposure |
| SupplierSeries.RowInDateOrder | api/_dashboardSupplierCreditStatement.js:416-424 | and the events of a row are taken in date order |
| SupplierSeries.SeriesConserves | api/_dashboardSupplierCreditStatement.js:411-437 | for balanced rows what falls by any date is every forecast event to that date, and the undated exposure is the sum of the rows' undated amounts |
| SupplierSeries.SeriesFitsSweep | api/_dashboardSupplierCreditStatement.js:425-430 | the points are in date order, as the combined sweep needs |
| CombinedExposure.CombinedExposurePoints | api/_dashboardAccountCreditStatementService.js:1115-1133 | the two-index loop yields, per distinct date, the values each index stands at; nothing if a side is empty |
| CombinedExposure.SweepIsLookupIffOrdered | api/_dashboardAccountCreditStatementService.js:1115-1133 | the index stands at the last point at or before every date of a series if and only if the series is date-ordered |
| CombinedExposure.MergeRefinesLookup | api/_dashboardAccountCreditStatementService.js:1115-1133 | for ordered inputs each side is the value of the last point at or before the date, null if none, and net their difference iff both exist |
| CombinedExposure.RowsCoverDates | api/_dashboardAccountCreditStatementService.js:1118-1122 | every date of either series, and no other, has one row, ascending |
| BuyerPoints.CombinedRowsAreLookups | api/_dashboardAccountCreditStatementService.js:1115-1133 | for a real chart without early buckets and a real supplier series each merged row holds the last values at or before its date |
| BuyerPoints.EarlyBucketIsMissed | api/_dashboardAccountCreditStatementService.js:1115-1133 | if a bucket starts before today, the merged row at its date has no buyer value although the chart has a point there |
| BuyerPoints.EarlyBucketHappens | api/_dashboardAccountCreditStatement.js:669-764 | built from payment records after today, a chart of more than 60 daily payments is in order if and only if today starts a week, or a month beyond a year, or the payments start in a later one |
| BuyerPoints.EarlyBucketFromTomorrow | api/_dashboardAccountCreditStatement.js:669-764 | with payments from tomorrow on a weekly chart is in order on Sundays and Mondays only |
| BuyerPoints.EarlyBucketOnWednesday | api/_dashboardAccountCreditStatement.js:669-764 | for example not on Wednesday 7 January 1970, when the first bucket is Monday the 5th |
| UsedCreditBridge.CountOnce | api/_dashboardAccountCreditStatement.js:453-467 | an Id counts the first time it is seen, and the made-up mark of a row without one is not in use |
| UsedCreditBridge.MarksAreDistinct | api/_dashboardAccountCreditStatement.js:453-486 | as texts, marks collide only if they are the same: no Id holds a colon, and a made-up mark tells its group and number |
| UsedCreditBridge.GroupEvidence | api/_dashboardAccountCreditStatement.js:426-492 | the loop over keys, seen-key sets and groups counts every keyed obligation once in its group and in the payables |
| UsedCreditBridge.GroupsAddUp | api/_dashboardAccountCreditStatement.js:434-492 | grouped gross amounts sum to the supplier payables, and balances and payments to what was counted |
| UsedCreditBridge.RowCounts | api/_dashboardAccountCreditStatement.js:430-490 | a row counts, in the group of its account, STEM and currency, exactly if no earlier row states an amount of its kind under the same Id: invoice, else order line, else extra cost, else cashflow |
| UsedCreditBridge.OtherRowsDoNotCount | api/_dashboardAccountCreditStatement.js:453-484 | a row of another record type, or without an amount of the kind, counts nothing of that kind |
| UsedCreditBridge.InactiveRowsCountNothing | api/_dashboardAccountCreditStatement.js:424-432 | dropping the inactive rows first drops no amount |
| UsedCreditBridge.ConflictIff | api/_dashboardAccountCreditStatement.js:434-497 | the currencies conflict exactly if a row with an amount names another one |
| UsedCreditBridge.RepeatChangesNothing | api/_dashboardAccountCreditStatement.js:453-486 | repeating an already counted keyed row anywhere later changes no amount |
| UsedCreditBridge.OrderShowsIff | api/_dashboardAccountCreditStatement.js:453-467 | the total is the same for every order of the evidence rows if and only if rows under one key agree on their amount |
| UsedCreditBridge.OrderShowsHere | api/_dashboardAccountCreditStatement.js:453-467 | two rows of one invoice that disagree: the total is the amount of the first |
| UsedCreditBridge.PayablesIgnoreOrder | api/_dashboardAccountCreditStatement.js:434-467 | so evidence rows that agree per key give an order-independent total |
| UsedCreditBridge.BuildUsedCreditBridge | api/_dashboardAccountCreditStatement.js:400-529 | a complete bridge has used = reconstructed + residual, and each status holds exactly under its tolerance condition |
| Csv.ParseCsvRecords | api/_accountPicDirectories.js:52-113 | the character loop accepts, or rejects for the same reason, what the strict reader specification does |
| Csv.ParseDelimited | api/_cashflowBankReconciliation.js:100-134 | the same for the lenient reader and any delimiter; what the delimiter does is `BankStatement.AnyDelimiterIff` |
| Csv.RoundTrip | api/_dashboardAccountInsightExport.js:14-17 | writing any non-empty records of any text and reading them strictly gives them back (section 2 of RFC 4180) |
| Csv.Normalizes | api/_accountPicDirectories.js:52-113 | rewriting any accepted source and reading it again gives the same records |
| Csv.ReadersAgree | api/_cashflowBankReconciliation.js:100-134 | on every source without text after a closing quote the lenient reader returns the strict records less blank ones and trailing returns, and rejects the same sources |
| Csv.StrictRejectsTextAfterQuote | api/_accountPicDirectories.js:52-113 | the strict reader stops at text after a closing quote exactly if the text has such a character, found by counting quotes |
| Csv.ReadersAgreeIff | api/_cashflowBankReconciliation.js:100-134 | the readers agree in this sense if and only if the source has no text after a closing quote |
| Csv.ReadersAgreeWithoutReturns | api/_cashflowBankReconciliation.js:100-134 | for an accepted source without carriage returns only the blank records differ |
| Csv.ReadersDisagreeOnTextAfterQuote | api/_accountPicDirectories.js:52-113 | the shortest example: one reader rejects it, the other keeps the text |
| BankStatement.AnyDelimiterIff | api/_cashflowBankReconciliation.js:100-134 | with any delimiter the lenient reader finds what the strict one finds with commas, after delimiter and comma have changed places in the text and back in the cells, if and only if no text stands behind a closing quote |
| BankStatement.DelimitedRoundTrip | api/_cashflowBankReconciliation.js:100-134 | records written with a delimiter and read with it come back up to blank ones and trailing returns |
| BankStatement.ChosenIff | api/_cashflowBankReconciliation.js:92-98 | comma, tab or semicolon, the one that is most frequent in the first line, in this order if equal |
| BankStatement.StatementReadBack | api/_cashflowBankReconciliation.js:92-207 | a statement under a plain header of several columns is read with the delimiter it was written with and gives back its records |
| Csv.ExportReadBack | api/_dashboardAccountInsightExport.js:82-86 | the strict record reader finds the records in the layout of the insight export, byte order mark and line breaks included, except a last one of one empty cell |
| Csv.ExportRoundTrip | api/_dashboardAccountInsightExport.js:82-86 | so it gives back all records, line breaks normalized, when the last one has more than one cell, as the totals row has |
| Csv.FileReadBack | api/_accountPicDirectories.js:147-171 | the layout of the directory's own file gives back its records with normalized line breaks |
| PicDirectory.ExportImports | api/_accountPicDirectories.js:124-171 | an exported directory is accepted again if and only if the file is not too large, it has rows and no guarded cell is too long; what comes back has the guard's apostrophes |
| PicDirectory.RoundTripIff | api/_accountPicDirectories.js:147-171 | exporting and importing gives back the rows if and only if there are rows, the file is not too large and no cell looks like a formula |
| PicDirectory.SecondRoundIsStable | shared/spreadsheetCsv.js:1-22 | what has come back once is exported to the same file again |
| PicDirectory.FormulaDoesNotComeBack | shared/spreadsheetCsv.js:1-22 | a region of one equals sign does not come back |
| PicDirectory.AcceptedIff | api/_accountPicDirectories.js:124-145 | rows are accepted if and only if there are at most 500, at least one where asked for, each names a port and no trimmed cell exceeds 4000 characters |
| PicDirectory.FileColumns | api/_accountPicDirectories.js:167-171 | the file holds the five columns under their headers, one record a row |
| PicDirectory.FormulaIff | shared/spreadsheetCsv.js:1-22 | a cell looks like a formula exactly if its first character that is neither white space nor a control character is one of `=+-@` |
| PicDirectory.BytesOfText | api/_accountPicDirectories.js:147-150 | the size that is limited counts a byte for every character and one more for each of U+0080, U+0800 and U+10000 that it reaches; it is the number of characters exactly for ASCII |
| StableJson.QuoteInjective | api/_buyerInvoiceApproval.js:43-49 | quoted strings decode: equal texts start with equal strings (section 7 of RFC 8259) |
| StableJson.StableInjective | api/_buyerInvoiceApproval.js:43-49 | equal serializations, whatever follows them, come from values equal up to key order and undefined as null |
| StableJson.SameStable | api/_buyerInvoiceApproval.js:43-49 | values equal up to key order serialize to one text (key order as in section 3.2.3 of RFC 8785) |
| StableJson.StableDecidesSame | api/_buyerInvoiceApproval.js:43-49 | two texts are equal if and only if the values are equal up to key order |
| StableJson.FieldsAscend | api/_buyerInvoiceApproval.js:43-49 | the fields of an object are written in the order of their keys, all of them |
| StableJson.TextLeIff | api/_buyerInvoiceApproval.js:43-49 | which compare by their first different code unit, a beginning before what it begins (section 3.2.3 of RFC 8785) |
| StableJson.StableExample | api/_buyerInvoiceApproval.js:43-49 | for example two fields, a null and a line break |
| InvoiceSnapshot.RowsCompare | api/_buyerInvoiceApproval.js:32-36 | sorted row lists with distinct Ids are equal exactly if they hold the same rows |
| InvoiceSnapshot.NormalizedAgrees | api/_buyerInvoiceApproval.js:78-98 | the normalized stored value equals the projection exactly if it agrees with it up to key and row order |
| InvoiceSnapshot.SnapshotMatches | api/_buyerInvoiceApproval.js:62-98 | a stored snapshot matches if and only if the invoice names a published document and the snapshot is well-shaped and shows invoice, STEM, document and exactly the rows that name the invoice as owner, up to key order and row order |
| InvoiceSnapshot.PublishedIff | api/_buyerInvoiceApproval.js:38-68 | the document is the one whose Id is the file URL or what follows its last slash, and it needs a published version |
| InvoiceSnapshot.OwnRowCounts | api/_buyerInvoiceApproval.js:73-74 | a row is compared as often as it is listed if its owner is the invoice, and never otherwise |
| InvoiceSnapshot.TextOfIs | api/_buyerInvoiceApproval.js:16-18 | the text of a value: the JSON text of a number or Boolean, nothing for a missing value, a string without the white space around it |
| InvoiceSnapshot.PathIsFollowed | api/_buyerInvoiceApproval.js:20-26 | a field path is followed from its first key to its last |
| Soql.EscapedReadsBack | api/_dashboardAi.js:425-427 | an escaped literal reads back as its value and never swallows what follows |
| Soql.ContainsIffNoWild | api/_dashboardAi.js:460-461 | LIKE with the escaped value finds exactly the texts that contain it if and only if it has no `%` and no `_` |
| AiQuery.TextPredicateMeaning | api/_dashboardAi.js:456-465 | each text predicate is true exactly if its operator holds, and the negative one exactly if the positive one does not, nulls included |
| AiQuery.TextMeaning | api/_dashboardAi.js:467-543 | a compiled text condition, child semi-joins included, selects exactly the records for which it holds |
| AiQuery.NegativeIsComplement | api/_dashboardAi.js:508-600 | every negative text condition, the child NOT IN and the supplier AND/OR too, is the exact complement of its positive one |
| AiQuery.NumericMeaning | api/_dashboardAi.js:474-500 | numeric predicates select what they say; only `!=` depends on what SOQL makes of null |
| AiQuery.BuildSelectedDashboardDateWhere | api/_dashboardAi.js:673-691 | the nested loops build the disjunction over all selected months, or fail if none is valid |
| AiQuery.DateMeaning | api/_dashboardAi.js:673-702 | the date condition selects exactly the records whose delivery date, else expected date, is in scope |
| AiQuery.CompilePreservesMeaning | api/_dashboardAi.js:704-730 | the compiled WHERE selects a STEM if and only if its effective date is in scope and there are no groups or all conditions of some group hold, each stated field by field on the named texts and numbers of the STEM and its rows |
| AiQuery.FieldsLookRight | api/_dashboardAi.js:545-653 | every text field looks at exactly the texts it stands for, such as the Name behind the port lookup, and is refused exactly if the schema lacks them |
| AiQuery.NumbersLookRight | api/_dashboardAi.js:655-671 | a numeric field is the first of its candidates that may be filtered by, and is refused exactly if there is none |
| SoqlText.PrintedReadsBack | api/_dashboardAi.js:456-730 | a condition written token by token with its own parentheses reads back as itself if AND and OR never mix without parentheses |
| SoqlWriting.WrittenReadsBack | api/_dashboardAi.js:425-730 | and so does its text: a scanner of words, spaces, literals and parentheses finds the tokens, fields with operators, dates and escaped literals included |
| AiQueryText.CompiledIsGrouped | api/_dashboardAi.js:456-730 | every compiled WHERE is grouped like that |
| AiQueryText.CompiledIsWritable | api/_dashboardAi.js:456-730 | every compiled WHERE can be written so that its text reads back, if the schema's names are words of the expected types |
| AiQueryText.TextPreservesMeaning | api/_dashboardAi.js:704-730 | so the characters of the written WHERE, read by SOQL's rules for words, literals and grouping, select exactly the STEMs in scope for which some group holds |
| AiQuery.CompileSucceedsIff | api/_dashboardAi.js:361-423 | compilation succeeds exactly for valid interpretations that the schema can answer, with a valid month for a selected period |
| DisputeAllocation.NormalizedOverrides | api/_disputeSupplierSettlement.js:158-169 | the Map loop accepts or rejects the overrides as specified |
| DisputeAllocation.AllocateSupplierDispute | api/_disputeSupplierSettlement.js:171-262 | the loops over overrides and invoices yield the allocation or the error that the lemmas below describe |
| DisputeAllocation.OverridesAccepted | api/_disputeSupplierSettlement.js:158-169 | overrides are accepted exactly if each has a new Id and a non-negative amount |
| DisputeAllocation.EligibleInvoices | api/_disputeSupplierSettlement.js:112-150 | the eligible invoices are the normalized invoices of the currency, none lost and none added |
| DisputeAllocation.AllocationConserves | api/_disputeSupplierSettlement.js:171-262 | the allocations, one per invoice Id, sum to the dispute amount within one cent, and holds plus get-backs are the sum of all rows |
| DisputeAllocation.AllocationInClosedForm | api/_disputeSupplierSettlement.js:194-250 | the rows in closed form: each Id gets its override, or what its oldest invoice can take of what the older ones leave |
| DisputeAllocation.RepeatedInvoiceCountsTwice | api/_disputeSupplierSettlement.js:217-250 | the rows sum to the same if and only if no invoice Id that is listed twice gets anything: an override above zero, or a share of what the older invoices leave |
| DisputeAllocation.RepeatedInvoiceHappens | api/_disputeSupplierSettlement.js:217-250 | an invoice listed twice puts twice its allocation into the rows |
| DisputeAllocation.DistinctInvoicesCountOnce | api/_disputeSupplierSettlement.js:217-250 | with distinct invoice Ids every allocation is counted once |
| DisputeAllocation.RowsAreFair | api/_disputeSupplierSettlement.js:171-262 | hold + get-back = allocated, hold <= payable, nothing is got back before all payable is held; get-back <= paid (one cent more only with an override) if and only if the closed-form share stays within the invoice, as it does for the oldest of its Id and for an Id listed once |
| DisputeAllocation.OldestFirstAllocation | api/_disputeSupplierSettlement.js:142-150 | a non-overridden invoice gets money only if every older non-overridden one is allocated in full, both Ids listed once |
| DisputeAllocation.OldestDueFirst | api/_disputeSupplierSettlement.js:142-226 | on the dates themselves: of two invoices the one due later gets money only if the other one is allocated in full; a missing date is latest, equal ones are decided by invoice date, else creation date, then by Id |
| DisputeAllocation.AllocationSucceeds | api/_disputeSupplierSettlement.js:171-262 | allocation succeeds if and only if the overrides are acceptable and the rest is at most the non-overridden total, each Id at its oldest invoice, plus one cent |
| DisputeAllocation.InputOrderDoesNotShow | api/_disputeSupplierSettlement.js:264-277 | permuting invoices or overrides leaves the allocation, hence the fingerprint, unchanged, unless different invoices share Id and dates |
| DisputeAllocation.SupplierInstructionRows | api/_disputeSupplierSettlement.js:279-330 | the loop writes a withhold and a get-back instruction per row above the tolerance |
| DisputeAllocation.InstructionsAccount | api/_disputeSupplierSettlement.js:279-330 | per invoice Id and kind the instructions plan every cent except parts of at most one cent |
| SupplierContribution.AllocationWeights | api/_dashboardAccountInsight.js:172-182 | the totals and the weighting branch give every entry its share |
| SupplierContribution.SharesAddUp | api/_dashboardAccountInsight.js:172-182 | in every branch shares lie in [0,1] and sum to 1 |
| SupplierContribution.ShareIs | api/_dashboardAccountInsight.js:172-182 | a share is revenue by total revenue, else cost by total cost, else one by the number of suppliers |
| SupplierContribution.ProportionalIff | api/_dashboardAccountInsight.js:175-180 | shares follow revenue, or else cost, if and only if its total differs from the number of suppliers or is one for each |
| SupplierContribution.EqualSharesHappen | api/_dashboardAccountInsight.js:172-182 | revenues of 0.5 and 1.5 get equal shares |
| SupplierContribution.SuppliersListed | api/_dashboardAccountInsight.js:195-219 | every supplier of a counting item is listed once |
| SupplierContribution.ItemAdds | api/_dashboardAccountInsight.js:202-219 | an item's sell amount is revenue and its buy amount cost of its own supplier alone, unless it is cancelled |
| SupplierContribution.DirectAddsUp | api/_dashboardAccountInsight.js:202-223 | the direct amounts of all suppliers are those of all items that count |
| SupplierContribution.ShareProfit | api/_dashboardAccountInsight.js:227-243 | the correction of the last supplier is zero |
| SupplierContribution.AllocationIs | api/_dashboardAccountInsight.js:227-243 | a supplier gets its own amounts and its share of the residuals and commissions |
| SupplierContribution.AllocateSupplierContribution | api/_dashboardAccountInsight.js:184-244 | allocated revenue, cost, commissions and gross profit sum to buyer amount, supplier amount, commissions and their difference |
| GroupMembers.LoadGroupMembers | api/_dashboardAccountCreditStatementService.js:359-381 | members are the group plus every Account reachable by active links, each once; it fails exactly if some Account lies at distance 20 |
| GroupMembers.DistanceIsFrontier | api/_dashboardAccountCreditStatementService.js:359-381 | level n of the search is exactly the Accounts whose shortest chain has n links |
| GroupMembers.SearchIsReachability | api/_dashboardAccountCreditStatementService.js:359-381 | a level without anything new means everything reachable has been found, cycles or not |
| CounterpartyDirectory.DirectoryIdentityPage | api/_dashboardUnifiedCounterpartyService.js:114-155 | a page has at most `limit` entries, is full unless it is the last, and page plus what its cursor leaves is what the cursor before it left |
| CounterpartyDirectory.FollowCursor | api/_dashboardUnifiedCounterpartyService.js:114-155 | following the cursor from null until null ends and yields the whole directory |
| CounterpartyDirectory.ReadOn | api/_dashboardUnifiedCounterpartyService.js:121-147 | the keyset condition continues right behind the row it was taken from |
| CounterpartyDirectory.DirectoryOrder | api/_dashboardUnifiedCounterpartyService.js:93-156 | the directory is the GROUPs in (Name, Id) order, then the Accounts in that order |
| CounterpartyDirectory.Listed | api/_dashboardUnifiedCounterpartyService.js:93-156 | a row is listed if and only if it is in the table, active, passes the filters of its phase and, as a self-root, has a name that starts with GROUP |
| CounterpartyDirectory.OwnRootIff | api/_dashboardAccountCreditStatement.js:121-124 | a row is its own root if and only if it is an active GROUP by its trimmed name and no active GROUP lies above it |
| CounterpartyDirectory.GroupNameMatchesIff | api/_dashboardAccountCreditStatement.js:121-124 | a self-root's GROUP name matches the query unless it starts with a blank |
| CounterpartyDirectory.DirectoryIsComplete | api/_dashboardUnifiedCounterpartyService.js:93-156 | every qualifying row and nothing else is listed if and only if no qualifying self-root has a name that starts with a blank |
| CounterpartyDirectory.BlankGroupIsLost | api/_dashboardUnifiedCounterpartyService.js:93-156 | for example a GROUP with a leading blank in its name is not listed |
| PlannedMovements.MonthlyNeverDrifts | api/_cashflowBankReconciliation.js:515-521 | the k-th monthly date is start month + k on min(start day, days in that month), so clamping never drifts |
| PlannedMovements.NextDateCloses | api/_cashflowBankReconciliation.js:515-550 | one step of the recurrence leads from the k-th closed-form date to the next |
| PlannedMovements.DatesIncrease | api/_cashflowBankReconciliation.js:523-554 | the dates of a movement strictly increase |
| PlannedMovements.ExpandMovement | api/_cashflowBankReconciliation.js:530-548 | the guarded loop yields the closed-form dates inside the window, each once and ascending, for up to 600 steps |
| PlannedMovements.GuardLosesNothingIff | api/_cashflowBankReconciliation.js:530-548 | the 600-step guard loses no date if and only if the first date from the window's start on that it does not take lies after the last date wanted |
| PlannedMovements.FirstStepIs | api/_cashflowBankReconciliation.js:515-548 | the first step not before a date in closed form: weeks between day numbers, or months and one more if the clamped day is too early |
| PlannedMovements.GuardLoses2026 | api/_cashflowBankReconciliation.js:530-548 | a weekly movement from 2014 has dates in 2026 and the guard loses all of them |
| PlannedMovements.ExpandCashflowPlannedMovements | api/_cashflowBankReconciliation.js:523-554 | no usable window, no occurrences; otherwise all occurrences of all movements, sorted |
| PlannedMovements.ExpansionIs | api/_cashflowBankReconciliation.js:523-554 | an occurrence is listed exactly if it lies k < 600 weeks, or months with the day clamped, after the start of an enabled movement, k = 0 if it happens once, inside the window and not behind its end date |
| Calendar.OrderIsDayOrder | api/_cashflowBankReconciliation.js:523-554 | comparing dates as ISO texts is comparing day numbers |
| Calendar.AddDaysNumber | api/_cashflowBankReconciliation.js:540-546 | adding n days adds n to the day number |

## Left out

- Salesforce, Supabase, Microsoft Graph and OpenAI calls, caching, chunking, access scopes and schema discovery: input and output.
- IEEE rounding error: amounts are exact reals or whole cents, and `Number.EPSILON` is dropped.
- UTF-16 in CSV text: characters are compared one by one, and only lengths count code units; JSON strings are modelled as UTF-16 code units.
- JSON numbers are their decimal texts, so `-0` and `0` coincide; non-finite numbers and array-valued Ids are not modelled.
- Locale collation: sorting keys are integers or an arbitrary rank.
- The event lists, labels, warnings, payment states and overdue figures that rows and points carry for display.
- `undatedRowCount`, KPI figures and the statement's row order.
- Due, received and effective dates of the bridge's evidence groups, and the filtering and sorting of the evidence list.
- `recencyWeightedDelay`, the weighted mean beside the percentile, and the model's display fields.
- The 50000-row limit and the chunk order of the GROUP query.
- Bank matching (`reconcileCashflowBankEntries`) and storage calls: no injectivity or state machine can be claimed for them.
- AiQueryText.TextPreservesMeaning: the field list of the query and that SOQL ignores letter case are not modelled.
- BuyerPoints.PricedChartNeverInverts: exposures are in whole cents and both projections are switched on, since one that is off shows no value.
- Csv.ExportReadBack: the directory import refuses an insight export for its headers; `PicDirectory` follows the directory's own file.
- BankStatement.StatementReadBack: what the columns of a statement mean, its dates, amounts and duplicates.
- The flexible PIC grid, its columns, colours and traders, and the browser's copy of the directory's CSV functions.
- ExposureRange.BuildBuyerExposureRange: the child rows that carry the evidence for display are left out.
- SupplierContribution.AllocateSupplierContribution: the sell and buy amounts of single items are inputs, and the gross margin percentage of a row is left out.
- CounterpartyDirectory.FollowCursor: names are never blank, since a blank name would reset the cursor.
