# Energy-management dashboard, engine and battery step in Dafny

This project models the decision logic of a retail-store energy-management
system and proves properties of it. The system has three parts:

- **a Next.js dashboard.** A hook keeps a ledger of accepted recommendations
  (`pending` → `implemented` → `completed`) in local storage. The dashboard
  de-duplicates freshly fetched suggestions against that ledger, shows
  savings, tab counts and per-card buttons, and a profit section with
  achievements and a best goal category. A generic data-fetching hook builds
  query strings, extracts error messages from FastAPI error bodies, retries
  server errors and unwraps nested payloads.
- **a FastAPI backend.** It serves the current KPIs, validates
  historical-data and recommendation queries, and calls a rule-based
  recommendation engine. The engine decides over period (hourly, daily,
  weekly) × optimisation goal × fixed thresholds.
- **an hourly ingestion Lambda.** It simulates two 500 kWh battery banks for
  one hour: 70/30 solar split, equal-share charging, discharge against the
  remaining demand, final clip. It carries the stored energy over from the
  previous hour's row and writes the row under a date-partitioned object key.
  A local-testing generator runs the same battery step from a clipped random
  start.

Modules, one per file:

| file | module | models |
|---|---|---|
| seqs.dfy | Seqs | order-preserving filter, left-to-right sums, an optional value |
| decimal.dfy | Decimal | decimal text of integers and two-digit padding, with parsers |
| grouping.dfy | Grouping | the `reduce` into a JavaScript object: per-key sums in first-insertion key order |
| ledger.dfy | Ledger | `useRecommendationActions`: accept, update status, delete, totals, status lists, grouped profit, storage load |
| dashboard.dfy | Dashboard | `RecommendationsDashboard`: new list, savings, counts, cards, buttons and the moves they make |
| profit_display.dfy | ProfitDisplay | `ProfitDisplaySection`: its own ledger state, achievements, next achievement, average, this month, best category |
| fetch.dfy | Fetch | `useApi`: query, error message, retry, unwrapping, error text, loading state |
| engine.dfy | Engine | `generate_recommendations` |
| api.dfy | Api | the current-status, historical-data and recommendations handlers |
| battery.dfy | Battery | the shared hourly two-bank battery step |
| ingestion.dfy | Ingestion | initial state of both generators, the written row, the object key |

Energies, prices and profits are `real`. Timestamps are integer seconds on
one UTC clock, so "one hour" is `Engine.Hour` = 3600. Random noise, the
synthetic load figures, ids, ISO timestamps, the current clock reading and
`JSON.stringify` are parameters.

## Model

| member | source | states |
|---|---|---|
| Ledger.Accept | energy_frontend/app/hooks/useRecommendationActions.ts:54-95 | appends exactly one pending entry without a completion time, carrying the given id, time, goal and period and the suggestion's type, action, impact and profit; every earlier entry is kept in order; the result does not depend on the remote reply |
| Ledger.UpdateStatus | energy_frontend/app/hooks/useRecommendationActions.ts:134-144 | same length; entries with another id are unchanged; entries with the id get the new status and nothing else changes except the stamp; an existing completion time is kept; a missing one is set exactly on the entries with the id when the new status is completed |
| Ledger.Delete | energy_frontend/app/hooks/useRecommendationActions.ts:182 | the result is a subsequence of the ledger, holds no entry with the id, and keeps every other entry with its multiplicity |
| Ledger.ByStatus | energy_frontend/app/hooks/useRecommendationActions.ts:206-211 | an entry is in the list exactly when it is in the ledger with that status |
| Ledger.ByStatusCounts | energy_frontend/app/hooks/useRecommendationActions.ts:208 | each entry with the status occurs as often as in the ledger; others do not occur |
| Ledger.StatusPartition | energy_frontend/app/hooks/useRecommendationActions.ts:206-211 | the three status lists' lengths sum to the ledger length |
| Ledger.TotalCompletedIsShareSum | energy_frontend/app/hooks/useRecommendationActions.ts:200-204 | the completed total equals the sum over all entries of "profit if completed, else 0" |
| Ledger.TotalAcceptedSplits | energy_frontend/app/hooks/useRecommendationActions.ts:196-204 | the accepted total is the pending total plus the implemented total plus the completed total |
| Ledger.AcceptTotals | energy_frontend/app/hooks/useRecommendationActions.ts:196-204 | an accept adds the suggestion's profit to the accepted total and leaves the completed total unchanged |
| Ledger.CompletingAddsProfit | energy_frontend/app/hooks/useRecommendationActions.ts:134-144 | with unique ids, completing a not-yet-completed entry raises the completed total by exactly its profit |
| Ledger.ProfitByPeriod | energy_frontend/app/hooks/useRecommendationActions.ts:213-225 | distinct keys; a key exists exactly for the periods of completed entries; each value is that period's completed profit; the values sum to the completed total |
| Ledger.ProfitByGoal | energy_frontend/app/hooks/useRecommendationActions.ts:227-239 | the same four facts per optimisation goal |
| Ledger.ProfitByPeriodIsShareSum | energy_frontend/app/hooks/useRecommendationActions.ts:213-225 | per period, the grouped value equals the per-entry completed shares of that period over the whole ledger |
| Ledger.Load | energy_frontend/app/hooks/useRecommendationActions.ts:25-36 | a parsed item becomes the ledger; a missing or blank item gives the empty ledger; a corrupt item gives the empty ledger and is removed from storage |
| Ledger.LoadAfterSave | energy_frontend/app/hooks/useRecommendationActions.ts:39-45 | loading what was saved gives back the ledger |
| Ledger.DeleteUndoesAccept | energy_frontend/app/hooks/useRecommendationActions.ts:182 | deleting a freshly accepted, previously unused id restores the ledger |
| Ledger.AcceptedIsPendingOnce | energy_frontend/app/hooks/useRecommendationActions.ts:54-64 | after accepting a fresh id, the pending list holds the new entry exactly once |
| Ledger.AcceptKeepsIdsUnique | energy_frontend/app/hooks/useRecommendationActions.ts:55 | accepting under a fresh id keeps ids unique |
| Ledger.DeleteKeepsIdsUnique | energy_frontend/app/hooks/useRecommendationActions.ts:182 | deleting keeps ids unique |
| Ledger.HookAllowsBackwardMove | energy_frontend/app/hooks/useRecommendationActions.ts:134-136 | the hook alone lets a completed entry go back to pending |
| Grouping.Add | energy_frontend/app/hooks/useRecommendationActions.ts:218 | keys stay distinct and in place; the key set gains the key; a new key is appended with the value |
| Grouping.AddLookup | energy_frontend/app/hooks/useRecommendationActions.ts:218 | the key's value grows by the added amount (from 0 when absent) and every other key's value is unchanged |
| Grouping.AddSum | energy_frontend/app/hooks/useRecommendationActions.ts:218 | the sum of the values grows by the added amount |
| Grouping.Group | energy_frontend/app/hooks/useRecommendationActions.ts:214-222 | one entry per distinct key of the input; each value is the independently defined per-key sum; the values add up to the total |
| Dashboard.AcceptedActions | energy_frontend/app/components/RecommendationsDashboard.tsx:55 | one action per entry; a text is listed exactly when some entry carries it |
| Dashboard.NewRecommendations | energy_frontend/app/components/RecommendationsDashboard.tsx:56-58 | empty for non-array data; otherwise a subsequence of the fetched list in fetched order, keeping every suggestion whose action no accepted entry carries exactly as often as it was fetched and dropping all others |
| Dashboard.AcceptKeepsActions | energy_frontend/app/components/RecommendationsDashboard.tsx:55 | an accept keeps every action already accepted |
| Dashboard.AcceptedLeavesNewList | energy_frontend/app/components/RecommendationsDashboard.tsx:56-58 | after an accept, no suggestion with that action text is new |
| Dashboard.AcceptOnlyShrinksNewList | energy_frontend/app/components/RecommendationsDashboard.tsx:56-58 | an accept never makes a suggestion new again |
| Dashboard.TotalSavings | energy_frontend/app/components/RecommendationsDashboard.tsx:415 | the savings figure is never negative |
| Dashboard.SavingsArePositiveProfits | energy_frontend/app/components/RecommendationsDashboard.tsx:415 | the savings figure is the plain profit sum of the suggestions with positive profit |
| Dashboard.LossDoesNotCount | energy_frontend/app/components/RecommendationsDashboard.tsx:415 | a suggestion without positive profit leaves the savings unchanged |
| Dashboard.TabCounts | energy_frontend/app/components/RecommendationsDashboard.tsx:529-547 | the summary counts add up to the ledger length; the pending tab counts pending plus implemented; the completed tab counts completed; the new tab counts the new list |
| Dashboard.ShowsProfitSection | energy_frontend/app/components/RecommendationsDashboard.tsx:472 | the profit section shows exactly when the completed total is positive, which needs some completed entry |
| Dashboard.CardButtons | energy_frontend/app/components/RecommendationsDashboard.tsx:365-406 | Implement exactly on pending, Complete exactly on implemented, Delete exactly on non-completed entries, and nothing without actions |
| Dashboard.TabCards | energy_frontend/app/components/RecommendationsDashboard.tsx:586-650 | each tab lists as many cards as its label counts, only ledger entries, completed entries only on the completed tab, and buttons only on the pending tab |
| Dashboard.CompletedCardsAreInert | energy_frontend/app/components/RecommendationsDashboard.tsx:644-650 | no tab offers any button on a completed entry |
| Dashboard.Press | energy_frontend/app/components/RecommendationsDashboard.tsx:119-141 | a status button keeps the length; a confirmed delete removes the id and keeps a subsequence; a refused confirmation changes nothing |
| Dashboard.UpdateAdvances | energy_frontend/app/components/RecommendationsDashboard.tsx:119-128 | moving one non-completed entry to a later status changes no id, lowers no status, leaves completed entries exactly as they were, and keeps ids unique |
| Dashboard.DeleteKeepsCompleted | energy_frontend/app/components/RecommendationsDashboard.tsx:130-141 | deleting a non-completed entry keeps every completed entry |
| Dashboard.PressIsForward | energy_frontend/app/components/RecommendationsDashboard.tsx:365-406 | every button the dashboard offers keeps ids unique; status buttons only move entries forward; delete never removes a completed entry |
| Dashboard.UpdateKeepsStamped | energy_frontend/app/hooks/useRecommendationActions.ts:136-141 | a forward move of one entry keeps "has a completion time exactly when completed" |
| Dashboard.DeleteKeepsStamped | energy_frontend/app/hooks/useRecommendationActions.ts:182 | a delete keeps "has a completion time exactly when completed" |
| Dashboard.AcceptKeepsStamped | energy_frontend/app/hooks/useRecommendationActions.ts:54-64 | an accept keeps "has a completion time exactly when completed" |
| Dashboard.PressKeepsStamped | energy_frontend/app/components/RecommendationsDashboard.tsx:365-406 | under the dashboard's buttons, a completion time is present exactly on completed entries |
| ProfitDisplay.Unlocked | energy_frontend/app/components/ProfitDisplaySection.tsx:78-109 | the unlocked list keeps declaration order and holds exactly the achievements whose threshold is met (≥1 completed, ≥$50, ≥5 completed, ≥$200) |
| ProfitDisplay.UnlockIsMonotone | energy_frontend/app/components/ProfitDisplaySection.tsx:78-109 | more completed work or profit never locks an unlocked achievement |
| ProfitDisplay.FirstLocked | energy_frontend/app/components/ProfitDisplaySection.tsx:110 | the result is a locked position with every earlier one unlocked; none exactly when all are unlocked |
| ProfitDisplay.NextAchievement | energy_frontend/app/components/ProfitDisplaySection.tsx:110 | none exactly when all four are unlocked; otherwise a locked achievement all of whose predecessors are unlocked |
| ProfitDisplay.AverageDivisor | energy_frontend/app/components/ProfitDisplaySection.tsx:139 | the divisor is at least 1 and equals the count whenever the count is positive |
| ProfitDisplay.Average | energy_frontend/app/components/ProfitDisplaySection.tsx:139 | average times divisor gives the total back; with no completed entry the average is the total |
| ProfitDisplay.ThisMonth | energy_frontend/app/components/ProfitDisplaySection.tsx:153-155 | the sum of the per-period values equals the completed total |
| ProfitDisplay.BestIndex | energy_frontend/app/components/ProfitDisplaySection.tsx:164-166 | the index holds a maximal value and every later entry is strictly smaller, so the last maximum wins |
| ProfitDisplay.BestIndexUnique | energy_frontend/app/components/ProfitDisplaySection.tsx:164-166 | those two facts single out the reduce's result |
| ProfitDisplay.FirstIndex | energy_frontend/app/components/ProfitDisplaySection.tsx:167 | the first position holding the character, or none when the text lacks it |
| ProfitDisplay.ReplaceFirst | energy_frontend/app/components/ProfitDisplaySection.tsx:167 | only the first occurrence is replaced; a text without it is unchanged |
| ProfitDisplay.ReplaceFirstUndone | energy_frontend/app/components/ProfitDisplaySection.tsx:167 | replacing back with the original character restores the text when the new character did not occur in it |
| ProfitDisplay.BestCategory | energy_frontend/app/components/ProfitDisplaySection.tsx:164-168 | "N/A" without goals; otherwise the shown key of an entry whose value no entry exceeds |
| ProfitDisplay.BestCategoryIsCompletedGoal | energy_frontend/app/components/ProfitDisplaySection.tsx:164-168 | a named best category is the shown goal of a completed entry |
| ProfitDisplay.Render | energy_frontend/app/components/ProfitDisplaySection.tsx:51-155 | placeholder exactly when the completed total is 0; otherwise total, this month and completed count agree with the ledger and the average is their quotient |
| ProfitDisplay.ShownLedgerRendersBreakdown | energy_frontend/app/components/ProfitDisplaySection.tsx:51-168 | a ledger whose completed total is positive renders the breakdown, with "Energy Optimizer" unlocked and a real best category |
| ProfitDisplay.SectionLedger | energy_frontend/app/components/ProfitDisplaySection.tsx:19-21 | the section renders from its own ledger state: empty before its mount-time load, then the parsed stored list, or empty for a missing, blank or corrupt item (energy_frontend/app/hooks/useRecommendationActions.ts:20-36) |
| ProfitDisplay.FirstRenderIsPlaceholder | energy_frontend/app/components/ProfitDisplaySection.tsx:51 | before its own load has run, the section renders the placeholder |
| ProfitDisplay.LoadedSectionShowsBreakdown | energy_frontend/app/components/RecommendationsDashboard.tsx:472 | once loaded from what the dashboard saved, the section shows the breakdown whenever the dashboard shows it |
| Fetch.Query | energy_frontend/app/hooks/useApi.ts:26-32 | the appended pairs are the set parameters, in their order, each with its value as text; undefined and null values are dropped, so there is one pair per set parameter |
| Fetch.QueryPairsAreSetParams | energy_frontend/app/hooks/useApi.ts:26-32 | every appended pair is some set parameter with its value as text, and every set parameter is appended |
| Fetch.ParamTextRoundTrip | energy_frontend/app/hooks/useApi.ts:29 | the text of an integer parses back to it; booleans print as "true"/"false"; strings are themselves |
| Fetch.Field | energy_frontend/app/hooks/useApi.ts:56-69 | reading a property of an object never throws, and finds a value exactly when the key is present |
| Fetch.Get | energy_frontend/app/hooks/useApi.ts:56-69 | reading a property throws exactly on null |
| Fetch.Prefix | energy_frontend/app/hooks/useApi.ts:75 | `substring(0, n)`: a prefix of length at most n, the whole text when it is short enough |
| Fetch.DetailItemText | energy_frontend/app/hooks/useApi.ts:59-64 | a string item is itself; otherwise a truthy `msg` wins, then a truthy `message`, then the item's JSON text; null throws |
| Fetch.DetailTexts | energy_frontend/app/hooks/useApi.ts:57-65 | one text per item, each the item's own text in order; the extraction fails exactly when some item is null |
| Fetch.ErrorMessage | energy_frontend/app/hooks/useApi.ts:47-80 | a non-JSON empty body keeps `HTTP status: text`; a non-empty one appends ": " and at most its first 200 characters; an unparseable JSON body keeps the default; a parsed JSON body gives its extracted message |
| Fetch.JsonErrorMessage | energy_frontend/app/hooks/useApi.ts:50-71 | a truthy `detail` decides: a string is the message, an array gives its item texts joined by ", " (the default when an item is null), any other value keeps the default; only a falsy `detail` lets a truthy `message` through; a null body or neither field keeps the default |
| Fetch.DetailStringWins | energy_frontend/app/hooks/useApi.ts:66-67 | a non-empty string `detail` is the message |
| Fetch.DetailStringsJoined | energy_frontend/app/hooks/useApi.ts:57-65 | a `detail` array of strings gives those strings joined with ", " |
| Fetch.MessageUsedWithoutDetail | energy_frontend/app/hooks/useApi.ts:69-70 | without `detail`, a non-empty `message` is used |
| Fetch.NullKeepsDefault | energy_frontend/app/hooks/useApi.ts:78-80 | a null body, or a null item in `detail`, leaves the default message |
| Fetch.RetryDelay | energy_frontend/app/hooks/useApi.ts:86 | the delay is exactly 2000 ms times one more than the retry count |
| Fetch.FriendlyError | energy_frontend/app/hooks/useApi.ts:124-134 | "Failed to fetch" TypeErrors become the network message; other errors keep their message; other values their text |
| Fetch.Unwrap | energy_frontend/app/hooks/useApi.ts:103-122 | other endpoints get the body unchanged; the two nested endpoints get their field when it is an array, and an empty array otherwise |
| Fetch.Run | energy_frontend/app/hooks/useApi.ts:46-146 | a retry exactly for a non-ok status ≥ 500 below two retries, with the matching delay; a non-retried error status fails with the extracted message; a thrown call fails with its friendly text; a non-JSON ok response fails; loaded data is the unwrapped body |
| Fetch.FinalErrorIsExtracted | energy_frontend/app/hooks/useApi.ts:83-90 | a non-ok response that is not retried reports exactly the extracted message |
| Fetch.Cycle | energy_frontend/app/hooks/useApi.ts:83-88 | from a fresh start at most three attempts run, every attempt before the last was a retry, and the last one decides |
| Fetch.ThreeServerErrorsFail | energy_frontend/app/hooks/useApi.ts:83-90 | three server errors in a row fail on the third with its message |
| Fetch.Begin | energy_frontend/app/hooks/useApi.ts:16-20 | a fresh run shows loading and resets the count; a retry does neither; both clear the error |
| Fetch.Finish | energy_frontend/app/hooks/useApi.ts:144-146 | loading always ends; a retry only bumps the count; a failure only sets the error; a success only sets the data |
| Fetch.RunEffects | energy_frontend/app/hooks/useApi.ts:16-146 | a failed run keeps the previous data; a successful run or a retry leaves no error |
| Engine.KpisOf | energy_management_backend/recommendation_engine_module.py:76-83 | each of the six figures is its value when present and 0 when missing |
| Engine.Valid | energy_management_backend/recommendation_engine_module.py:58-69 | the rows with a timestamp, in their order, each read as a point; empty exactly when no row has one |
| Engine.ValidMembers | energy_management_backend/recommendation_engine_module.py:58-69 | every valid point is a row with that timestamp and those figures, and every row with a timestamp appears as a valid point |
| Engine.Future | energy_management_backend/recommendation_engine_module.py:109-111 | the subsequence of rows strictly after the reference time |
| Engine.Window | energy_management_backend/recommendation_engine_module.py:322-325 | the subsequence of rows in [lo, hi) |
| Engine.ArgMax | energy_management_backend/recommendation_engine_module.py:115-117 | a maximal row with every earlier row strictly smaller: the first maximum, as Python's `max` |
| Engine.ArgMin | energy_management_backend/recommendation_engine_module.py:116 | a minimal row with every earlier row strictly larger: the first minimum |
| Engine.ChargePotential | energy_management_backend/recommendation_engine_module.py:127-129 | never negative, and 0 exactly when both banks are full |
| Engine.DischargePotential | energy_management_backend/recommendation_engine_module.py:148-150 | never negative, and positive exactly when some bank is above the low threshold |
| Engine.SolarChargeRecs | energy_management_backend/recommendation_engine_module.py:122-140 | an entry exactly when the sunniest future hour exceeds the threshold, lies ahead and some bank is below the high threshold; it charges the smaller of the room left and that hour's solar at the current price |
| Engine.PeakRecs | energy_management_backend/recommendation_engine_module.py:143-183 | entries exactly when the dearest future hour exceeds the high price, lies ahead and some bank is above the low threshold; led by the discharge of the energy above it at that price; HVAC and lighting follow exactly when their load exceeds a tenth of consumption at a high current price |
| Engine.CheapRecs | energy_management_backend/recommendation_engine_module.py:186-227 | entries exactly when the cheapest future hour is below the low price, more than an hour ahead and some bank is not full; grid charge of the room left first, load shift last, HVAC exactly when its load is heavy and the current price exceeds the cheapest |
| Engine.HourlyCost | energy_management_backend/recommendation_engine_module.py:120-238 | the scenario 1, 2 and 3 lists and the high-consumption entry, joined in that order; each of the eight cost rules is present exactly under its scenario's condition, high consumption exactly above 200; grid charging a cost when future prices are non-negative |
| Engine.HourlyCarbon | energy_management_backend/recommendation_engine_module.py:241-275 | the solar entry exactly when strong sun lies ahead, with the HVAC and lighting follow-ups exactly when their loads are heavy; otherwise only the default entry; all worth 0 |
| Engine.SolarCarbonRecs | energy_management_backend/recommendation_engine_module.py:245-266 | the solar entry always comes first; the HVAC follow-up appears exactly when the HVAC load is heavy and the peak solar is strong, and the lighting follow-up likewise; never the default entry |
| Engine.HourlyLongevity | energy_management_backend/recommendation_engine_module.py:279-310 | one Battery Management entry worth 0, chosen by the average stored energy: below 100, above 400, or in between |
| Engine.Hourly | energy_management_backend/recommendation_engine_module.py:101-310 | the goal's hourly rules applied to the rows strictly after the reference time; longevity gives exactly one entry; an unknown goal gives none |
| Engine.Aggregate | energy_management_backend/recommendation_engine_module.py:334-339 | the average price times the window size is the price sum |
| Engine.DailyPrice | energy_management_backend/recommendation_engine_module.py:352-371 | the high-price entry exactly above 0.25, the low-price entry exactly below 0.10, a cost for non-negative consumption |
| Engine.DailyCost | energy_management_backend/recommendation_engine_module.py:342-380 | solar exactly above 200, high and low price exactly beyond their thresholds, high consumption exactly above 3000 |
| Engine.WeeklyCost | energy_management_backend/recommendation_engine_module.py:435-461 | solar exactly above 1000, high price exactly above 0.25, high consumption exactly above 15000; empty when none is crossed |
| Engine.DailyRules | energy_management_backend/recommendation_engine_module.py:342-405 | only daily rules of the goal; carbon gives the solar entry exactly when the window's solar sum exceeds 200; the cost rules fire on the window's sums and average price |
| Engine.Daily | energy_management_backend/recommendation_engine_module.py:312-405 | fewer than 24 rows give the single warning; otherwise the daily rules of the [now+1h, now+25h) window, or the single info entry when it is empty |
| Engine.WeeklyRules | energy_management_backend/recommendation_engine_module.py:435-486 | only weekly rules of the goal; carbon gives the solar entry exactly when the window's solar sum exceeds 1000; the cost rules fire on the window's sums and average price |
| Engine.Weekly | energy_management_backend/recommendation_engine_module.py:407-486 | fewer than 168 rows give the single warning; otherwise the weekly rules of the [now+1h, now+169h) window, or the single info entry when it is empty |
| Engine.MaxSolar | energy_management_backend/recommendation_engine_module.py:115 | a future hour whose solar no other exceeds |
| Engine.MaxPrice | energy_management_backend/recommendation_engine_module.py:117 | a future hour whose price no other exceeds |
| Engine.MinPrice | energy_management_backend/recommendation_engine_module.py:116 | a future hour whose price no other undercuts |
| Engine.HourlySeesOnlyTheFuture | energy_management_backend/recommendation_engine_module.py:109-111 | two forecasts with the same rows after the reference time get the same hourly advice |
| Engine.PastRowIgnored | energy_management_backend/recommendation_engine_module.py:109-111 | adding a row at or before the reference time changes no hourly advice |
| Engine.DailySeesOnlyItsWindow | energy_management_backend/recommendation_engine_module.py:315-325 | two forecasts on the same side of 24 rows with the same [now+1h, now+25h) window get the same daily advice |
| Engine.RowOutsideDayIgnored | energy_management_backend/recommendation_engine_module.py:322-325 | once there are 24 rows, adding a row outside the daily window changes nothing |
| Engine.WeeklySeesOnlyItsWindow | energy_management_backend/recommendation_engine_module.py:409-419 | two forecasts on the same side of 168 rows with the same [now+1h, now+169h) window get the same weekly advice |
| Engine.RowOutsideWeekIgnored | energy_management_backend/recommendation_engine_module.py:416-419 | once there are 168 rows, adding a row outside the weekly window changes nothing |
| Engine.ByPeriod | energy_management_backend/recommendation_engine_module.py:101-490 | only rules of the period and goal; the hourly, daily and weekly periods give exactly that period's advice; an unsupported period gives the single error entry |
| Engine.Generate | energy_management_backend/recommendation_engine_module.py:36-497 | never empty; every entry fits the period and goal; zero-profit rules are worth 0; no valid row, unsupported period and short daily/weekly data each give their single entry; otherwise the period's advice when any rule fired, and the single info fallback exactly when none did |
| Engine.HourlyCostReachesGenerate | energy_management_backend/recommendation_engine_module.py:101-238 | with valid rows, an hourly cost request returns the hourly cost rules over the future rows, or the info fallback exactly when none fired |
| Engine.HourlyCarbonReachesGenerate | energy_management_backend/recommendation_engine_module.py:241-275 | with valid rows, an hourly carbon request returns the hourly carbon rules over the future rows |
| Engine.SupportedPeriodNeverErrs | energy_management_backend/recommendation_engine_module.py:488-490 | a supported period never yields the unsupported-period entry |
| Engine.HourlyLongevityIsSingle | energy_management_backend/recommendation_engine_module.py:279-310 | hourly longevity gives exactly one Battery Management entry worth 0 |
| Engine.GridChargeIsCost | energy_management_backend/recommendation_engine_module.py:186-205 | with non-negative forecast prices, every grid-charge entry is a cost |
| Engine.CarbonIsWorthZero | energy_management_backend/recommendation_engine_module.py:241-477 | every carbon-footprint entry of every period is worth 0 |
| Engine.UnknownGoalFallsBack | energy_management_backend/recommendation_engine_module.py:492-495 | with a valid forecast, an unknown goal on the hourly period yields only the fallback info entry |
| Api.ExceptionText | energy_management_backend/main.py:80 | an interpolated `HTTPException` reads as the status code's decimal text, then ": ", then the detail |
| Api.Column | energy_management_backend/main.py:53-71 | a missing column reads as 0, a present one as its value |
| Api.GridImport | energy_management_backend/main.py:61 | never negative, at least base load minus solar, and equal to one of the two |
| Api.Body | energy_management_backend/main.py:52-77 | the body carries the row's time and a non-negative grid import |
| Api.CurrentStatusAsWritten | energy_management_backend/main.py:37-80 | a body exactly for a non-empty row with a timestamp; every failure reaches the client as 500 |
| Api.MissingStatusIs500 | energy_management_backend/main.py:47-48 | a missing row comes out as 500, not the 404 raised |
| Api.CurrentStatus | energy_management_backend/main.py:37-80 | the same bodies; a missing row gives the 404; any other failure a 500 |
| Api.CurrentStatusDiffersOnlyWhenMissing | energy_management_backend/main.py:47-48 | the corrected handler differs only by returning the 404 |
| Api.HistoricalAsWritten | energy_management_backend/main.py:83-152 | 400 for a reversed range, then for a bad level; a body exactly for daily rows or non-empty hourly rows |
| Api.EmptyHourlyRangeIs500 | energy_management_backend/main.py:121-122 | an empty hourly range comes out as 500 |
| Api.Historical | energy_management_backend/main.py:83-152 | the same validation and bodies; an empty hourly range gives the 404; a 400 only for the two validation failures |
| Api.HistoricalDiffersOnlyOnEmptyHourly | energy_management_backend/main.py:121-152 | the corrected handler differs exactly on an empty hourly range |
| Api.Horizon | energy_management_backend/main.py:290-299 | 168 hours for weekly, 24 otherwise |
| Api.EngineStatus | energy_management_backend/main.py:287 | the engine sees the status time, both banks, consumption and price |
| Api.Recommendations | energy_management_backend/main.py:255-333 | 400 for a bad goal, then for a bad period; status errors pass through; 404 without forecast; otherwise the engine's list for the period's horizon, with the goal and period echoed |
| Api.AcceptedRequestsAreSupported | energy_management_backend/main.py:315-328 | an accepted request never returns an empty list and never the unsupported-period entry |
| Api.GoalCheckedFirst | energy_management_backend/main.py:273-283 | a bad goal wins over a bad period |
| Api.DailyNeedsEveryRow | energy_management_backend/main.py:293-294 | a daily request with a row lacking its timestamp ends in one of the engine's early exits |
| Battery.Clip | energy_ingestion_lambda_project/lambda_function.py:184 | `np.clip`: inside the bounds, the identity within them, and the nearer bound outside |
| Battery.SolarSplit | energy_ingestion_lambda_project/lambda_function.py:114-115 | both parts non-negative, summing to the generation (clamped at 0 as at line 79), in the ratio 70 : 30 |
| Battery.PossibleCharge | energy_ingestion_lambda_project/lambda_function.py:125-134 | between 0 and the rate limit, positive exactly when not full, never more than fills the bank after losses, and equal to the rate limit or the filling input |
| Battery.Possible | energy_ingestion_lambda_project/lambda_function.py:125-134 | the possible charge of every bank |
| Battery.Chargeable | energy_ingestion_lambda_project/lambda_function.py:140 | at most the number of banks, and 0 exactly when no bank can take a charge |
| Battery.ChargeFlow | energy_ingestion_lambda_project/lambda_function.py:149-151 | the noisy flow lies in [0, amount], and is the amount when the noise is not negative |
| Battery.ChargeFlows | energy_ingestion_lambda_project/lambda_function.py:144-155 | each flow lies in [0, the bank's possible charge] and below the share; a bank that cannot charge gets nothing |
| Battery.EqualShare | energy_ingestion_lambda_project/lambda_function.py:140-142 | a positive share whose sum over the chargeable banks is the distributed solar |
| Battery.SharedFlows | energy_ingestion_lambda_project/lambda_function.py:139-155 | each flow within the bank's possible charge; together at most the distributed solar and the total possible charge |
| Battery.Charge | energy_ingestion_lambda_project/lambda_function.py:122-155 | the solar used is the sum of the flows, at most the battery share and the total possible charge; nothing flows without battery solar |
| Battery.DrawFrom | energy_ingestion_lambda_project/lambda_function.py:165-173 | a bank's noisy draw lies in [0, the remaining deficit] |
| Battery.Drain | energy_ingestion_lambda_project/lambda_function.py:161-179 | draws are non-negative, applied only to banks that did not charge and hold energy, and total at most the deficit |
| Battery.Discharge | energy_ingestion_lambda_project/lambda_function.py:157-179 | banks drain only when direct solar is 0 and demand remains, never a bank that charged, and in total at most the demand |
| Battery.Net | energy_ingestion_lambda_project/lambda_function.py:153-177 | each bank's flow is charge minus draw; its energy change is charge × 0.95 minus draw / 0.95 |
| Battery.Settle | energy_ingestion_lambda_project/lambda_function.py:181-184 | every bank ends in [0, 500], at the plain sum when that is already in range |
| Battery.Step | energy_ingestion_lambda_project/lambda_function.py:113-198 | the split sums to the generation; every bank ends in [0, 500]; solar used lies in [0, battery share]; total energy is base plus solar used; only a non-full bank charges; a discharging bank had energy, demand remained and nothing charged |
| Battery.DischargeExcludesCharge | energy_ingestion_lambda_project/lambda_function.py:175 | when the banks discharge no bank has charged, so the "not already charging" guard always passes |
| Battery.DrawNeverExceedsDemand | energy_ingestion_lambda_project/lambda_function.py:161-179 | the banks together deliver at most the base load |
| Battery.ChargeNeverOverfills | energy_ingestion_lambda_project/lambda_function.py:125-155 | a charge alone never takes a bank above capacity |
| Ingestion.RowOf | energy_ingestion_lambda_project/lambda_function.py:187-203 | the row holds the stored energies, total energy and solar used under their column names |
| Ingestion.LambdaInitial | energy_ingestion_lambda_project/lambda_function.py:233-245 | the previous row's two stored energies when both are present, else 250 each |
| Ingestion.LambdaHour | energy_ingestion_lambda_project/lambda_function.py:247-251 | the written row's stored energies lie in [0, 500]; its total is base plus solar used, which is non-negative |
| Ingestion.StateCarriesOver | energy_ingestion_lambda_project/lambda_function.py:237-239 | the next hour starts exactly from the stored energies this hour wrote, which lie in [0, 500] |
| Ingestion.LocalInitial | energy_ingestion_lambda_project/generate_single_hour_data_local_testing.py:100-103 | each bank starts in [0, 500], at 250 plus its offset when that is in range |
| Ingestion.LocalHour | energy_ingestion_lambda_project/generate_single_hour_data_local_testing.py:97-189 | stored energies in [0, 500]; total energy is base plus solar used |
| Ingestion.GeneratorsAgree | energy_ingestion_lambda_project/generate_single_hour_data_local_testing.py:109-175 | from the same start, both generators write the same row |
| Ingestion.Tail | energy_ingestion_lambda_project/lambda_function.py:257-259 | the month/day/hour part of the key has a fixed length of 41 |
| Ingestion.Key | energy_ingestion_lambda_project/lambda_function.py:254-260 | every key lies under the store's data prefix and is longer than the `year=` head plus the 41-character tail |
| Ingestion.TailRoundTrip | energy_ingestion_lambda_project/lambda_function.py:257-259 | month, day and hour read back from the tail |
| Ingestion.KeyRoundTrip | energy_ingestion_lambda_project/data_loader_module.py:52-62 | every key reads back as the hour it was made for, so the loader's lookup by hour finds it |
| Ingestion.KeysAreDistinct | energy_ingestion_lambda_project/lambda_function.py:254-260 | distinct hours never share a key |
| Decimal.NatTextRoundTrip | energy_ingestion_lambda_project/lambda_function.py:256 | the decimal text of a year parses back to it |
| Decimal.Pad2RoundTrip | energy_ingestion_lambda_project/lambda_function.py:257-259 | two-digit month, day and hour texts parse back |
| Decimal.IntTextRoundTrip | energy_frontend/app/hooks/useApi.ts:29 | the text of any integer parses back to it |

## Left out

- HTTP, S3 and local-storage I/O: `fetch`, boto3 calls, the CSV round trip and JSON (de)serialisation are external. Storage is the `Stored` value, the fetch outcome is a parameter, and `JSON.stringify` is a function parameter.
- The React lifecycle: effect re-triggering, the stale `retryCount` captured by the retry timer, and the animation timer. `Fetch.Cycle` idealises the retries as successive runs that each see the previous count.
- Ids, ISO timestamps, the clock and random noise are parameters. `Date.now`, `Math.random` and `np.random` are not modelled.
- The `action` and `financial_impact` texts, `toFixed`, `.2f` formatting, and the `float(f"{x:.7f}")` rounding of profits. Profits are exact reals.
- Engine profit formulas: contracts state exactly when each rule fires, the headline products of scenarios 1 to 3, the signs, and the zero-profit rules; the follow-up and daily/weekly products are not stated. `Engine.HourlyCost` is stated as the join of the scenario lists, so the scenario products carry over to it.
- Engine time: timestamps are whole seconds rather than datetimes. A forecast row's timestamp is either usable or missing (`None`). An unparseable forecast timestamp crashes the source, and that case is not modelled. A missing forecast column (`.get(…, 0.0)`) is not modelled: every row carries solar, price and total.
- Weekly cost has no low-price rule in the source, and the model keeps that (`Engine.WeeklyCost`).
- main.py's `if not suggestions` branch (lines 315-321) is modelled, but it is dead: `Engine.Generate` never returns an empty list, and `Api.AcceptedRequestsAreSupported` proves it.
- The battery's "only discharge if not already charging" guard is modelled, but `Battery.DischargeExcludesCharge` proves it always passes.
- Synthetic load, price and solar curves of both generators, the forecast model (a wrapper over a library that is not part of this model) and the pandas data loaders of the backend.
- The object key's year is unpadded decimal text, so `Ingestion.KeyRoundTrip` covers every year; the clock that chooses the hour is a parameter.
- JavaScript orders integer-like object keys numerically. `Grouping` uses first-insertion order, which matches because the period and goal keys are never integer-like.
- `String.prototype.substring` counts UTF-16 code units; `Fetch.Prefix` counts characters.
- Api.DailyNeedsEveryRow: states only that the reply is one of two single-entry lists (the daily warning or the no-valid-forecast entry), because which one depends on how many rows keep their timestamp.
- ProfitDisplay.Render: the best category, unlocked list and next achievement of the breakdown are stated by their own members rather than in Render's contract.
- Dashboard.PressIsForward: covers one press at a time. The action handlers capture the ledger before awaiting the network, and processing is disabled per card, so two overlapping presses on different cards can each save a list built from the same old ledger and lose one update; that interleaving is not modelled. The same holds for Dashboard.PressKeepsStamped.
- ProfitDisplay.SectionLedger: the section holds its own copy of the ledger, loaded once when it mounts. It renders the placeholder on its first render even when the dashboard shows it, and it does not see later changes the dashboard makes until it mounts again; `ProfitDisplay.FirstRenderIsPlaceholder` states the first, and the second is left out.
- Query parameter values are strings, integers and booleans; no caller passes a non-integer number, so `Fetch.ParamValue` has no case for one.
- Presentation components (charts, page layout, theme, status indicator, mock data, historical and forecast views) and configuration files carry no decision logic and are not modelled.

## Findings

| source | as written | input that shows it | evidently intended | confidence | as-written member | corrected member |
|---|---|---|---|---|---|---|
| energy_management_backend/main.py:47-80 | the 404 for a missing current-status row is raised inside `try`, and `except Exception` re-raises it as a 500 | no hourly data yet: `get_latest_hourly_data()` returns `{}` | the client receives 404 "No current status data available" | not executed | Api.MissingStatusIs500 | Api.CurrentStatus |
| energy_management_backend/main.py:121-152 | the 404 for an empty hourly range is raised inside `try`, and `except Exception` re-raises it as a 500 | `start_date == end_date`, `aggregation_level="hourly"`, no rows on that day | the client receives 404 "No historical data found for the specified date range." | not executed | Api.EmptyHourlyRangeIs500 | Api.Historical |
