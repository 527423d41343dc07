# Chat-Flow dialog engine in Dafny

This project models the slot-filling dialog engine of the Chat-Flow
backend, a Russian-language chat assistant that books trips. A booking
needs five slots: departure city, destination city, date, number of
passengers and transport type. Each user message is parsed by five
extractors. Their partial records are spread into the session's slot
state. A routing cascade then picks the handler that answers:

1. city confirmation;
2. correction;
3. final confirmation;
4. first confirmation of a complete state;
5. the next slot question;
6. the fallback.

Once the user says "да", the order is written to the bookings table.

The model covers:

- the slot bookkeeping of `dialogService.ts`;
- the gazetteer cleaner of `cityUtils.ts`;
- the five extractors and the orchestrator under `parsers/`;
- the validators;
- the booking row written by `saveBooking.ts`;
- the SQL assembly of `listFlights` and `updateFlight`;
- the five handlers;
- the controller `dialogHandler`.

Modules, one per source file:

- `Text`: the JavaScript string operations the code relies on:
  - `toLowerCase`, `trim`, `split`, `join`, `includes`;
  - decimal numerals and `padStart`.
- `SlotModel`: the slot state, with the object spread `{...a, ...b}` as `Merge`.
- `DialogService`: `getMissingSlot`, `isAllSlotsFilled`, the question table and `buildConfirmation`.
- `FuzzySearch`: the Fuse.js index, taken as an oracle. The model keeps only the top hit and which of the callers' score tests it passes: `=== 0`, `< 0.3`, or neither.
- `CityUtils`: `cleanCityCandidate`. It is a pure `CleanCity` function, and the method `CleanCityCandidate` with the nested loops and early returns of the source is proved equal to it.
- `CityMatch`: what the two city parsers share:
  - the preposition regex `(?:kw|…)\s+([а-яa-zё\- ]+)`, hand-coded as a leftmost, greedy, backtracking matcher;
  - the block that turns the top fuzzy hit into a slot or a candidate.
- `FromCityParser`, `ToCityParser`, `DateParser`, `PassengersParser`, `TransportParser`: the five extractors. Each is a pure function of the message and the expected slot.
- `SlotParser`: `parseSlotsFromMessage`.
- `ValidationService`: the three validators.
- `BookingStore`: the row `saveBooking` inserts, with the `dd-mm-yyyy` → `yyyy-mm-dd` rewrite.
- `FlightQueries`: the query text and parameter list of `listFlights` and `updateFlight`. The methods assemble them step by step as the source does, and are proved equal to specification functions.
- `Handlers`: each handler as a function from the slot state and message to an `Outcome`. An `Outcome` holds:
  - the state left behind;
  - whether it was written back;
  - the booking saved;
  - the JSON reply.
- `Controller`:
  - the routing cascade `Routing`, the whole turn `Turn`, and lemmas about them;
  - the class `DialogEngine`, whose fields are the sessions table, the next session id and the bookings table;
  - the methods of `DialogEngine`, which are the handlers and `dialogHandler` in their imperative form. They update the tables in place, and each is proved to leave exactly the state, the booking and the reply the corresponding function computes.

The design description of the system and its code disagree in a few
places. The model follows the code:

- **"да" to a city candidate.** The description says it re-enters the cascade and, when the state is complete, shows the final summary. The code instead forwards the same "да" to the confirmation handler, so the booking is saved in that very turn (`Handlers.CityYesBooksAtOnce`).
- **First entry into the confirmation stage.** The description says it always shows the summary first. The code passes the turn's own message to the confirmation handler (`controllers/dialogController.ts:56`), so a "да" that reaches a complete state books at once.
- **Corrections.** The description says a correction such as "дата 20.09" updates the date and shows the summary again. In the code, the controller has already parsed and merged that message before the correction handler runs. The handler's change-detection loop therefore finds nothing, and the reply is the re-prompt (`Controller.CorrectionAfterCompleteState`).
- **The cleaned city.** The description says an exact gazetteer match of the cleaned city is returned as exact. The code always consults the fuzzy search with the cleaned text (`parsers/parseFromCity.ts:16-18`).
- **A misspelt city after a preposition.** The description says a near miss becomes a candidate to confirm. After "из", the code first asks the gazetteer cleaner, and a word it does not know stops the parse with `{}` before the fuzzy search is consulted (`parsers/parseFromCity.ts:16-17`). "из мнск" against a list holding "минск" records nothing, while the bare "мнск" would have become a candidate (`FromCityParser.FromUnknownWordDropped`, `FromCityParser.MisspeltOriginDropped`).
- **"да" while the departure city is missing.** The description says "да" to a candidate commits the candidate. The controller parses every message before routing, with the missing slot as the expected one (`controllers/dialogController.ts:39-41`). While from_city is missing, the origin fallback therefore reads "да" itself as a city: when the search finds nothing for "Да", it replaces the pending candidate with "Да" (`parsers/parseFromCity.ts:30-45`), and the city confirmation then commits "Да" as the departure city (`handlers/cityConfirmationHandler.ts:25-26`; `SlotParser.YesReadAsOrigin`, `Controller.YesCommitsItself`).
- **Stored dates.** The description says dates round-trip through storage as `DD-MM-YYYY`. `saveBooking` stores them as `YYYY-MM-DD` (`BookingStore.StoredDate`); the original is recoverable (`BookingStore.StoredDateRoundTrip`).

## Model

| member | source | states |
|---|---|---|
| DialogService.RankOfOrder | backend/src/services/dialogService.ts:11-17 | The i-th slot of the order from_city, to_city, date, passengers, transport_type has rank i. |
| DialogService.MissingFrom | backend/src/services/dialogService.ts:20-25 | The search from position i finds a missing slot of rank ≥ i with no missing slot between; None exactly when no slot from i on is missing. |
| DialogService.GetMissingSlot | backend/src/services/dialogService.ts:19-26 | The result is missing (undefined or ''; a count of 0 is filled) and no earlier slot in the order is missing; None exactly when no slot is missing. |
| DialogService.AllFilledIffNoneMissing | backend/src/services/dialogService.ts:19-34 | `isAllSlotsFilled` holds iff no slot is missing, iff `getMissingSlot` returns null. |
| DialogService.OnlySlotsMatter | backend/src/services/dialogService.ts:19-34 | Two states with the same five slots get the same answers from both tests: flags and candidate fields never matter. |
| DialogService.SlotQuestionInjective | backend/src/services/dialogService.ts:3-9 | Different slots have different questions. |
| DialogService.ShowSlots | backend/src/services/dialogService.ts:36-38 | A text built from six fixed parts and the five slots contains the rendering of each slot. |
| DialogService.BuildConfirmation | backend/src/services/dialogService.ts:36-38 | The confirmation line contains the rendering of each of the five slots. |
| SlotModel.MergeTwice | backend/src/controllers/dialogController.ts:41 | Spreading the same record twice equals spreading it once. |
| SlotModel.MergeSelf | backend/src/controllers/dialogController.ts:41 | Spreading a state over itself leaves it unchanged. |
| SlotModel.MergeEmpty | backend/src/controllers/dialogController.ts:41 | `{}` is neutral on either side of a spread. |
| SlotModel.MergeKeepsCandidateTyped | backend/src/controllers/dialogController.ts:41 | Spreading two records that each keep the candidate with its type keeps it with its type. |
| CityUtils.Segments | backend/src/parsers/cityUtils.ts:7 | Splitting on `[,;]+` gives at least one segment. |
| CityUtils.WordsHit | backend/src/parsers/cityUtils.ts:13-22 | A hit of the word scan is in the city set, compared in lower case. |
| CityUtils.SegmentHit | backend/src/parsers/cityUtils.ts:9-22 | A hit within a segment is in the city set. |
| CityUtils.SegmentsHit | backend/src/parsers/cityUtils.ts:8-23 | A hit over the segments is in the city set. |
| CityUtils.CleanCity | backend/src/parsers/cityUtils.ts:6-25 | A non-empty result is a known city, case-insensitively, and is already capitalised. |
| CityUtils.CleanCityCandidate | backend/src/parsers/cityUtils.ts:6-25 | The nested loops with early returns compute exactly CleanCity. |
| CityUtils.WordsMiss | backend/src/parsers/cityUtils.ts:13-22 | The word scan finds nothing iff no two-word window and no single word from position i on is a known city. |
| CityUtils.SegmentsMiss | backend/src/parsers/cityUtils.ts:8-23 | The segment scan finds nothing iff every segment misses entirely: the segment, its windows and its words. |
| CityUtils.CleanCityEmptyIffNoHit | backend/src/parsers/cityUtils.ts:6-24 | With no empty name in the set, '' is returned iff no segment, window or word is a known city. |
| CityUtils.FirstSegmentWins | backend/src/parsers/cityUtils.ts:8-11 | The leftmost segment with a hit decides the answer, whatever later segments hold. |
| CityUtils.FirstWordWins | backend/src/parsers/cityUtils.ts:13-21 | The leftmost word position with a hit decides, and there the two-word window beats the single word. |
| CityMatch.SpaceRun | backend/src/parsers/parseFromCity.ts:13 | The maximal whitespace run `\s+` from q: all whitespace, and the next character is not. |
| CityMatch.ClassRun | backend/src/parsers/parseFromCity.ts:13 | The maximal run of `[а-яa-zё\- ]` from q: all class characters, and the next one is not. |
| CityMatch.CaptureBack | backend/src/parsers/parseFromCity.ts:13 | A capture found while `\s+` gives back characters is non-empty and made of class characters only. |
| CityMatch.CaptureAfter | backend/src/parsers/parseFromCity.ts:13 | A capture of `\s+([…]+)` is non-empty. |
| CityMatch.AlternativesAt | backend/src/parsers/parseFromCity.ts:13 | A capture after one of the keyword alternatives is non-empty. |
| CityMatch.FirstCapture | backend/src/parsers/parseFromCity.ts:13 | The leftmost match's capture is non-empty. |
| CityMatch.CaptureAtStart | backend/src/parsers/parseToCity.ts:13 | For "<first keyword> <phrase>" the capture is exactly the phrase. |
| CityMatch.CaptureAfterPhrase | backend/src/parsers/parseFromCity.ts:13 | One space followed by a city phrase running to the end is captured whole. |
| CityMatch.Resolve | backend/src/parsers/parseFromCity.ts:18-28 | Score 0 commits the hit. A score < 0.3 commits it when it equals the looked-up text case-insensitively and otherwise asks about it. No hit or a larger score yields nothing. |
| CityMatch.CleanKnownCity | backend/src/parsers/cityUtils.ts:7-10 | A city phrase whose lower case is a known city comes out of the cleaner as itself, capitalised. |
| CityMatch.PhrasePath | backend/src/parsers/parseFromCity.ts:13-18 | "<keyword> <known city>" is captured as the lower-cased city, and the capture path looks up that city capitalised. |
| CityMatch.PhraseCapture | backend/src/parsers/parseFromCity.ts:11-13 | "<keyword> <phrase>" captures the lower-cased phrase. |
| CityMatch.UnknownWordDropped | backend/src/parsers/parseFromCity.ts:15-17 | A one-word capture that is not in the city list gives `{}` without a search. |
| CityMatch.NoCaptureWithoutSpace | backend/src/parsers/parseFromCity.ts:13 | A text without whitespace has no capture, since `\s+` must follow the keyword. |
| FromCityParser.ParseFromCity | backend/src/parsers/parseFromCity.ts:6-48 | Never both from_city and a candidate; a candidate always has type from_city; no key other than from_city and the two candidate fields. |
| FromCityParser.FromEmptyClean | backend/src/parsers/parseFromCity.ts:14-17 | On the preposition path, a capture the cleaner finds no city in gives `{}`. |
| FromCityParser.FromTiers | backend/src/parsers/parseFromCity.ts:18-45 | The exact outcome for each tier of the top hit. Only the fallback keeps the raw text as a candidate when nothing matches. |
| FromCityParser.FromFallbackOnly | backend/src/parsers/parseFromCity.ts:30 | Without a preposition match, a non-empty record requires expectedSlot == from_city and a trimmed length > 1. |
| FromCityParser.FromWithoutExpectation | backend/src/parsers/parseFromCity.ts:14-30 | Without an expected slot only the preposition path contributes, and with a match the expected slot is never read. |
| FromCityParser.FromPhrase | backend/src/parsers/parseFromCity.ts:13-28 | "из X", with X a known city in any case, resolves the lookup of X capitalised, whatever the expected slot. |
| FromCityParser.FromExactPhrase | backend/src/parsers/parseFromCity.ts:19-20 | "из X" with X a known city matched with score 0 sets from_city to the hit and produces no candidate. |
| FromCityParser.FromClosePhrase | backend/src/parsers/parseFromCity.ts:21-24 | "из X" with a close hit of another name gives that name as a from_city candidate, never from_city. |
| FromCityParser.FromUnknownWordDropped | backend/src/parsers/parseFromCity.ts:13-17 | "из X", with X one word not in the city list, gives `{}` whatever the expected slot. |
| FromCityParser.MisspeltOriginDropped | backend/src/parsers/parseFromCity.ts:13-45 | With the list {"минск"}: "из мнск" gives `{}`, while the bare "мнск", with from_city expected and a close hit "Минск", gives the candidate "Минск" of type from_city. |
| ToCityParser.ParseToCity | backend/src/parsers/parseToCity.ts:6-53 | Never both to_city and a candidate; a candidate always has type to_city; no key other than to_city and the two candidate fields. |
| ToCityParser.FallbackIsLastWord | backend/src/parsers/parseToCity.ts:31-37 | The fallback text is the last space-separated word of the trimmed message, capitalised: the whole message when it is one word. |
| ToCityParser.FallbackHasNoSpace | backend/src/parsers/parseToCity.ts:39 | The fallback word never contains a space, so the `includes(' ')` guard never rejects it. |
| ToCityParser.FallbackOneWord | backend/src/parsers/parseToCity.ts:31-32 | A message with no space is looked up whole. |
| ToCityParser.ToPathsExclusive | backend/src/parsers/parseToCity.ts:14-38 | A preposition match leaves rawCity empty; a non-empty rawCity implies no match and expectedSlot == to_city. |
| ToCityParser.ToFallback | backend/src/parsers/parseToCity.ts:39-51 | Without a match, the record is the resolution of rawCity alone, or `{}` when rawCity is empty. |
| ToCityParser.ToFallbackMissRecordsNothing | backend/src/parsers/parseToCity.ts:39-51 | Unlike the origin parser, a fallback lookup with no good hit records nothing. |
| ToCityParser.ToFallbackOnly | backend/src/parsers/parseToCity.ts:31-38 | Without a preposition match, a non-empty record requires expectedSlot == to_city. |
| ToCityParser.ToWithoutExpectation | backend/src/parsers/parseToCity.ts:15-38 | Without an expected slot only the preposition path contributes, and with a match the expected slot is never read. |
| ToCityParser.ToPhrase | backend/src/parsers/parseToCity.ts:13-29 | "в X", with X a known city in any case, resolves the lookup of X capitalised. |
| ToCityParser.ToExactPhrase | backend/src/parsers/parseToCity.ts:20-21 | "в X" with an exact hit sets to_city and no candidate. |
| ToCityParser.ToClosePhrase | backend/src/parsers/parseToCity.ts:22-25 | "в X" with a close hit of another name gives a to_city candidate, never to_city. |
| DateParser.MonthTable | backend/src/parsers/parseDate.ts:9-12 | The table's keys are exactly the twelve names of the pattern. The i-th name maps to month i+1 in two digits, and distinct names map to distinct months. |
| DateParser.MonthNumber | backend/src/parsers/parseDate.ts:9-12 | The i-th name of the pattern is in the table with month i+1. |
| DateParser.MonthNumberInjective | backend/src/parsers/parseDate.ts:10-11 | Different months have different two-digit numbers. |
| DateParser.PadTwoValue | backend/src/parsers/parseDate.ts:8 | Padding a numeral below 100 to two digits keeps its value. |
| DateParser.MonthAt | backend/src/parsers/parseDate.ts:6 | A month found by the alternation is one of the twelve names. |
| DateParser.MonthAfterDay | backend/src/parsers/parseDate.ts:6 | `\s?(month)` after the day yields one of the twelve names. |
| DateParser.MonthDateAt | backend/src/parsers/parseDate.ts:6 | A match at p has a one- or two-digit day and a month name. |
| DateParser.MonthDate | backend/src/parsers/parseDate.ts:6 | The leftmost month-name match has a one- or two-digit day and a month name. |
| DateParser.MonthDigitsAfter | backend/src/parsers/parseDate.ts:17 | The month part of the numeric pattern is one or two digits. |
| DateParser.NumericDateAt | backend/src/parsers/parseDate.ts:17 | A numeric match at p has one- or two-digit day and month. |
| DateParser.NumericDate | backend/src/parsers/parseDate.ts:17 | The leftmost numeric match has one- or two-digit day and month. |
| DateParser.ParseDate | backend/src/parsers/parseDate.ts:3-26 | The record is `{}` or holds the date key alone. |
| DateParser.PadTwoDigits | backend/src/parsers/parseDate.ts:8 | `padStart(2, '0')` of one or two digits is two digits. |
| DateParser.FormatShape | backend/src/parsers/parseDate.ts:15 | A padded day, a two-digit month and a four-digit year give DD-MM-YYYY. |
| DateParser.DateShape | backend/src/parsers/parseDate.ts:6-22 | Every date produced, from either pattern, has the shape DD-MM-YYYY for a four-digit year. |
| DateParser.NumericRoundTrip | backend/src/parsers/parseDate.ts:17-22 | "d<sep>m" with d, m < 100 and sep one of `.`, `-`, `/` parses as PadTwo(d)-PadTwo(m)-year. |
| DateParser.NoRangeCheck | backend/src/parsers/parseDate.ts:17-22 | Neither day nor month is range-checked: "99.99" gives the date 99-99-year. |
| DateParser.NoDigitNoDate | backend/src/parsers/parseDate.ts:6-25 | A message without a digit gives `{}`: both patterns start with a digit. |
| DateParser.MonthNameFirst | backend/src/parsers/parseDate.ts:6-17 | When the month-name pattern matches, its day and month decide; the numeric pattern is not consulted. |
| DateParser.MonthDateOfPhrase | backend/src/parsers/parseDate.ts:6 | "<digits> <month name>" is matched at its start with that day and month. |
| DateParser.DayMonthRoundTrip | backend/src/parsers/parseDate.ts:6-15 | Day d (< 100) and the i-th month name parse back as PadTwo(d)-PadTwo(i+1)-year. |
| DateParser.MonthAtName | backend/src/parsers/parseDate.ts:6 | At the start of the i-th name the alternation picks that name. |
| DateParser.NoNamePrefix | backend/src/parsers/parseDate.ts:6 | No month name starts with another month name. |
| PassengersParser.DigitRun | backend/src/parsers/parsePassengers.ts:6 | The maximal digit run from p: all digits, and the next character is not a digit. |
| PassengersParser.DigitsBack | backend/src/parsers/parsePassengers.ts:6 | The digits `\d+` keeps while backtracking are a non-empty digit string. |
| PassengersParser.CountMatch | backend/src/parsers/parsePassengers.ts:6 | The leftmost count match captures a non-empty digit string. |
| PassengersParser.ParsePassengers | backend/src/parsers/parsePassengers.ts:3-18 | The record is `{}` or holds the passenger count alone, never negative, with no range check. |
| PassengersParser.BareNumberOnlyWhenExpected | backend/src/parsers/parsePassengers.ts:10-15 | Without the count pattern, a count is read only when passengers is expected and the trimmed message is all digits. |
| PassengersParser.CountAtStart | backend/src/parsers/parsePassengers.ts:6 | A digit run at the start followed by a passenger word is the match. |
| PassengersParser.CountRoundTrip | backend/src/parsers/parsePassengers.ts:6-8 | "<n> человека" gives back n for every n, 0 and n > 10 included. |
| PassengersParser.BareNumber | backend/src/parsers/parsePassengers.ts:10-14 | A bare numeral is read as its value when passengers is expected, and gives `{}` when another slot is. |
| PassengersParser.NoCountInDigits | backend/src/parsers/parsePassengers.ts:6 | A string of digits alone never matches the count pattern. |
| PassengersParser.NoDigitNoCount | backend/src/parsers/parsePassengers.ts:3-17 | A message without a digit gives `{}`, whatever slot is expected. |
| TransportParser.ParseTransportType | backend/src/parsers/parseTransportType.ts:3-18 | The record is `{}` or holds transport_type alone, one of поезд, автобус, самолет. |
| TransportParser.ExpectedSlotIgnored | backend/src/parsers/parseTransportType.ts:9-16 | The expected-slot branch is dead: the result is the same for every expected slot. |
| TransportParser.TransportPriority | backend/src/parsers/parseTransportType.ts:6-8 | The first keyword found decides: поезд, then автобус, then самолет/самолёт/plane, which all give самолет. |
| TransportParser.NoKeywordNoTransport | backend/src/parsers/parseTransportType.ts:6-17 | A message containing none of the five words gives `{}`. |
| TransportParser.WordInsideWord | backend/src/parsers/parseTransportType.ts:6 | A keyword inside a longer word counts: "поездка" is a train. |
| SlotParser.ParseSlotsFromMessage | backend/src/parsers/slotParser.ts:8-39 | The result carries neither correction_mode nor confirmation_stage, and a candidate always comes with its type. |
| SlotParser.Spread | backend/src/parsers/slotParser.ts:16 | Spreading one extractor record into another keeps the extractor shape. |
| SlotParser.CityPasses | backend/src/parsers/slotParser.ts:15-27 | The two city passes with their retries give an extractor record: no flags, and a candidate only with its type. |
| SlotParser.CityRetriesChangeNothing | backend/src/parsers/slotParser.ts:15-27 | Neither city retry adds anything: the city passes give the origin record spread with the destination record. |
| SlotParser.RetriesChangeNothing | backend/src/parsers/slotParser.ts:17-27 | Both retries are no-ops: the result is the plain left-to-right merge of the five extractor records. |
| SlotParser.MergeAllFive | backend/src/parsers/slotParser.ts:15-36 | Merging five records in sequence is the nested spread in that order. |
| SlotParser.SlotsFromExtractors | backend/src/parsers/slotParser.ts:15-36 | Each slot comes from its own extractor. The candidate and its type come from the destination parser when it gave one, else from the origin parser. |
| SlotParser.OriginAlone | backend/src/parsers/slotParser.ts:15-36 | When every extractor but the origin one gives `{}`, the result is the origin record. |
| SlotParser.YesReadAsOrigin | backend/src/parsers/slotParser.ts:8-39 | With from_city expected and no search hit for "Да", "да" parses to the candidate "Да" of type from_city and nothing else. |
| ValidationService.ValidateCity | backend/src/services/validationService.ts:1-25 | Valid iff non-empty, made of letters, whitespace and '-', and 2..50 long. Each failure gets the message of the first failed check, in that order, and a valid verdict carries no message. |
| ValidationService.ValidatePassengers | backend/src/services/validationService.ts:27-35 | Valid iff an integer in 1..10; otherwise the fixed message. |
| ValidationService.WholeCounts | backend/src/services/validationService.ts:28 | On whole numbers the check is exactly 1 ≤ n ≤ 10. |
| ValidationService.ValidateTransport | backend/src/services/validationService.ts:37-49 | Valid iff the lower-cased, trimmed input is поезд, автобус or самолет; the error lists the three. |
| ValidationService.JoinTransports | backend/src/services/validationService.ts:44 | The joined list reads "поезд, автобус, самолет". |
| ValidationService.YoSpellingRejected | backend/src/services/validationService.ts:38-41 | "самолёт" is rejected. |
| ValidationService.ParsedTransportIsValid | backend/src/services/validationService.ts:38-41 | Every value the transport parser writes passes validateTransport. |
| BookingStore.StoredDate | backend/src/services/saveBooking.ts:4-6 | A dd-mm-yyyy date is stored as yyyy-mm-dd with the same three fields; any other value, absent included, passes through. |
| BookingStore.DdMmYyyyReversed | backend/src/services/saveBooking.ts:5 | split('-').reverse().join('-') of dd-mm-yyyy is yyyy-mm-dd. |
| BookingStore.StoredDateRoundTrip | backend/src/services/saveBooking.ts:5 | Reversing the stored date's fields again gives back the original date. |
| BookingStore.BookingRow | backend/src/services/saveBooking.ts:8-17 | The row holds the five slots in order, with only the date rewritten. |
| BookingStore.ParsedDateStoredYearFirst | backend/src/services/saveBooking.ts:4-5 | Every date the date parser produces (four-digit year) is stored year first. |
| FlightQueries.Params | backend/src/services/flightService.ts:62 | One parameter per clause, in clause order. |
| FlightQueries.TransportCode | backend/src/services/flightService.ts:116-124 | автобус→bus, поезд→train, самолет/самолёт→airplane, case-insensitively; anything else is its lower case (except the two inherited keys listed under Left out). |
| FlightQueries.RenderAppend | backend/src/services/flightService.ts:65-129 | Clauses appended later are numbered on from where the earlier ones stopped. |
| FlightQueries.RenderAt | backend/src/services/flightService.ts:65-129 | The clause at position i carries placeholder k+i. |
| FlightQueries.AddFilter | backend/src/services/flightService.ts:66-69 | One `query +=`, `push`, `paramIndex++` step appends one clause numbered by paramIndex. |
| FlightQueries.CityClauses | backend/src/services/flightService.ts:65-77 | The departure then arrival city clauses, each only for a non-empty city. |
| FlightQueries.DateClauses | backend/src/services/flightService.ts:79-107 | Fails exactly when the date does not parse; otherwise appends the two day-range clauses and advances by 2. |
| FlightQueries.TailClauses | backend/src/services/flightService.ts:109-129 | The seat and transport clauses, each only when present. |
| FlightQueries.ListFlightsQuery | backend/src/services/flightService.ts:55-131 | Err with the fixed message exactly when the date does not parse; otherwise the query of the filter plan. |
| FlightQueries.DateErrorOnly | backend/src/services/flightService.ts:79-107 | The plan fails iff a non-empty date does not parse. |
| FlightQueries.PlanSize | backend/src/services/flightService.ts:65-129 | One parameter per present filter, two for the date. |
| FlightQueries.CitiesFirst | backend/src/services/flightService.ts:65-77 | The departure city clause comes first and the arrival one next, both as `%city%`. |
| FlightQueries.TransportLast | backend/src/services/flightService.ts:115-129 | The transport clause, when present, is last, bound to the mapped code. |
| FlightQueries.NoFilters | backend/src/services/flightService.ts:61-131 | No filters: the base query in departure order with no parameters. |
| FlightQueries.PlaceholdersInOrder | backend/src/services/flightService.ts:61-131 | Placeholders are $1..$n in order: the clause at position i carries $(i+1) and is bound to parameter i. |
| FlightQueries.TransportCodeOfLower | backend/src/services/flightService.ts:123-124 | The transport map ignores case. |
| FlightQueries.DialogTransportCodes | backend/src/services/flightService.ts:116-121 | Each value the dialog writes maps to a stored code. |
| FlightQueries.Columns | backend/src/services/flightService.ts:170-201 | The eight updatable columns, in the order tested. |
| FlightQueries.NoAssignments | backend/src/services/flightService.ts:203-205 | Nothing to assign iff no column is defined. |
| FlightQueries.SetClauses | backend/src/services/flightService.ts:170-201 | One `column = $k` per assignment. |
| FlightQueries.Values | backend/src/services/flightService.ts:170-201 | One value per assignment. |
| FlightQueries.AddColumn | backend/src/services/flightService.ts:170-173 | One `if (… !== undefined)` block appends a numbered clause and its value, or nothing. |
| FlightQueries.FirstColumns | backend/src/services/flightService.ts:166-185 | The blocks for the first four columns build their clauses. |
| FlightQueries.LastColumns | backend/src/services/flightService.ts:186-201 | The blocks for the last four columns extend the clauses. |
| FlightQueries.UpdateFlightQuery | backend/src/services/flightService.ts:162-215 | None exactly when no column is defined. Otherwise one clause per defined column, then `updated_at = NOW()`, and the id last, with placeholder number equal to the parameter count. |
| Handlers.Summary | backend/src/handlers/confirmationHandler.ts:35-41 | The summary shows each of the five slots. |
| Handlers.Confirmation | backend/src/handlers/confirmationHandler.ts:6-49 | No slot or candidate changes. "да": the stage ends, correction_mode is kept, and the booking holds the slots, echoed with finished. "нет": the stage ends, correction_mode becomes true, no booking, and the reply asks what to fix. Any other answer: the state is unchanged and the summary is shown. |
| Handlers.EmptyMessageShowsSummary | backend/src/handlers/confirmationHandler.ts:7-47 | An empty message always gets the summary with nothing changed. |
| Handlers.SlotQuestionStep | backend/src/handlers/slotQuestionHandler.ts:7-14 | The state is written back unchanged, no booking, and the reply is the slot's question with all_filled false. |
| Handlers.Fallback | backend/src/handlers/fallbackHandler.ts:5-19 | Never all_filled and echoes the id. With a missing slot, the reply embeds its question; without one, the reply is exactly "Я не смог распознать ваш ответ." followed by the request to rephrase or start over. |
| Handlers.DropCandidate | backend/src/handlers/cityConfirmationHandler.ts:27-28 | Deleting both candidate fields keeps the slots. |
| Handlers.CityConfirmation | backend/src/handlers/cityConfirmationHandler.ts:9-60 | No candidate or no type: the state is kept and the reply asks for a city. "да": the candidate fills its slot and both candidate fields go; a complete state books at once, any other state gets its missing slot's question. "нет": only the candidate fields go and the city is asked again. Any other answer: nothing is written and the reply names the candidate. |
| Handlers.AfterCityYesTwoWays | backend/src/handlers/cityConfirmationHandler.ts:30-43 | After "да", a complete state goes to the confirmation and any other state to its missing slot's question; "Все данные получены" is dead. |
| Handlers.CityYesBooksAtOnce | backend/src/handlers/cityConfirmationHandler.ts:25-33 | "да" to the last missing city saves the booking in the same turn. |
| Handlers.CorrectionLoop | backend/src/handlers/correctionHandler.ts:10-34 | The loop spreads the parsed slots over the held ones; changed iff some parsed slot is defined and differs. |
| Handlers.Correction | backend/src/handlers/correctionHandler.ts:8-67 | Never books. When a parsed slot differs from the held one, the parsed slots are spread in, correction_mode becomes false, the state is written and the summary is shown. When none differs and the message is no correction phrase, nothing is written and the re-prompt is sent. |
| Handlers.CorrectWith | backend/src/handlers/correctionHandler.ts:10-66 | Given the parse: a difference spreads the parsed slots in, sets correction_mode false and shows the summary; otherwise a correction phrase clears its slot and asks for details, and anything else leaves the state and re-prompts. |
| Handlers.PhraseClearsOne | backend/src/handlers/correctionHandler.ts:40-60 | A correction phrase clears exactly its slot and sets correction_mode false; the other slots and the stage stay. |
| Handlers.NothingLeftToCorrect | backend/src/handlers/correctionHandler.ts:12-14 | After spreading a parse in, the loop finds no difference for that parse. |
| Controller.FallbackUnreachable | backend/src/controllers/dialogController.ts:53-62 | The fallback is never routed to; a slot question goes to a missing slot of an incomplete state. |
| Controller.Dispatch | backend/src/controllers/dialogController.ts:44-62 | After routing: a typed candidate stays typed, a booking needs "да", and nothing changes without a write. |
| Controller.Turn | backend/src/controllers/dialogController.ts:26-62 | Every turn writes its state back, books only on "да", and keeps a typed candidate typed. |
| Controller.ResetAsksOrigin | backend/src/controllers/dialogController.ts:28-37 | A reset word empties the state and asks for the departure city; the generic prompt is unreachable. |
| Controller.CorrectionAfterCompleteState | backend/src/controllers/dialogController.ts:39-48 | In correction mode on a complete state, the turn is exactly the phrase branch: the change-detection path cannot fire. |
| Controller.YesCommitsItself | backend/src/controllers/dialogController.ts:39-45 | While from_city is missing and the search finds nothing for "Да", a "да" turn leaves from_city == "Да" and no candidate, whatever candidate was pending. |
| Controller.WithStateValid | backend/src/controllers/dialogController.ts:42 | Writing a typed state back keeps the sessions table valid. |
| Controller.WithStateTwice | backend/src/handlers/cityConfirmationHandler.ts:29-32 | Two writes to one session leave the second state. |
| Controller.ApplyCorrections | backend/src/handlers/correctionHandler.ts:10-34 | The for loop yields the spread of the parsed slots, with changed iff some slot differed. |
| Controller.DialogEngine.UpdateSession | backend/src/services/sessionService.ts:17-25 | An existing session's state is replaced; nothing else changes. |
| Controller.DialogEngine.SaveBooking | backend/src/services/saveBooking.ts:8-17 | Exactly one row, BookingRow of the state, is appended. |
| Controller.DialogEngine.ConfirmationHandler | backend/src/handlers/confirmationHandler.ts:6-49 | Leaves the tables, state and reply Confirmation computes. |
| Controller.DialogEngine.SlotQuestionHandler | backend/src/handlers/slotQuestionHandler.ts:7-14 | Writes the state back and replies with the slot's question. |
| Controller.DialogEngine.CityConfirmationHandler | backend/src/handlers/cityConfirmationHandler.ts:9-60 | Leaves the tables, state and reply CityConfirmation computes. |
| Controller.DialogEngine.PhraseHandler | backend/src/handlers/correctionHandler.ts:40-66 | Leaves the tables, state and reply of the phrase branches. |
| Controller.DialogEngine.CorrectionHandler | backend/src/handlers/correctionHandler.ts:8-67 | Leaves the tables, state and reply Correction computes. |
| Controller.DialogEngine.CorrectParsed | backend/src/handlers/correctionHandler.ts:10-66 | Leaves the tables, state and reply CorrectWith computes. |
| Controller.DialogEngine.FirstConfirmation | backend/src/controllers/dialogController.ts:53-56 | Sets the stage, writes back, and lets the confirmation handler read the turn's own message. |
| Controller.DialogEngine.Route | backend/src/controllers/dialogController.ts:44-62 | The cascade leaves the tables and reply Dispatch computes. |
| Controller.DialogEngine.TakeTurn | backend/src/controllers/dialogController.ts:26-62 | On an existing session, the tables and reply are those of Turn. |
| Controller.DialogEngine.DialogHandler | backend/src/controllers/dialogController.ts:13-63 | An unknown or inactive id opens a fresh empty session. The session ends with Turn's state, a booking is appended exactly when Turn saves one, and the table invariant holds. |
| Text.LowerOfCapitalize | backend/src/parsers/cityUtils.ts:9-10 | Capitalising never changes the lower-case form, so the case-insensitive lookup sees through it. |
| Text.JoinSplit | backend/src/services/saveBooking.ts:5 | Splitting on a character and joining with it gives back the text. |
| Text.SplitJoin | backend/src/services/saveBooking.ts:5 | Joining separator-free fields and splitting again gives back the fields. |
| Text.ReverseReverse | backend/src/services/saveBooking.ts:5 | Reversing twice gives back the array. |
| Text.NatToStringDigits | backend/src/parsers/parsePassengers.ts:8 | `parseInt(String(n)) == n` for every n ≥ 0. |

## Left out

- Dialogflow webhook, fulfillment controller and Dialogflow service: they depend on a remote NLU service and a process-global cache.
- HTTP and Express plumbing, the other controllers and routes, and the frontend: they are transport and UI only. The reply is the `Reply` datatype.
- Postgres I/O: the sessions and bookings tables are the fields of `DialogEngine`. Storage failures and their error replies are not modelled.
- Concurrency: two turns on one session racing on read-modify-write is outside a sequential model.
- Logging (`console.log`, the `debugQuery` string): side output only.
- Fuse.js scoring: the search is an oracle returning the top hit and its tier (score 0, below 0.3, otherwise). Float scores are not modelled.
- Unicode: `\p{L}` is a parameter `isLetter` of `ValidateCity`.
  - `toLowerCase`/`toUpperCase` are modelled on the Latin and Cyrillic alphabets only.
  - String lengths count `char`s, not UTF-16 code units.
- `capitalize` (utils/capitalize) is not part of this model. It is taken as "upper-case the first character, keep the rest".
- The JavaScript clock: the current year is a parameter of the date parser. The `Date` arithmetic of the list filter is an oracle `Calendar` that gives the day and the next day, or nothing for an invalid date.
- The `i` flag of the preposition and month regexes: the text is lower-cased first, so it matters only for capitals outside the two modelled alphabets.
- The `slot_state` argument of the extractors and the orchestrator: no extractor reads it, so it is dropped.
- PassengersParser.ParsePassengers: `parseInt` is exact here; the source loses precision above 2^53.
- ValidationService.ValidatePassengers: NaN and Infinity are not modelled; the count is a real number.
- `null` versus `undefined` and non-string slot values: both absences are `None`, and slots hold the types of `models/dialogSession.ts`.
- A non-numeric or falsy `session_id`: it is `None` or an id not in the table, and both open a new session.
- Controller.DialogEngine.DialogHandler: the new session's id is the engine's counter; the database's id sequence is not modelled.
- The `confirmation` and `finished` keys of a reply: `false` stands for an absent key.
- `createFlight`, `getFlightById`, `deleteFlight` and the query execution of `listFlights`/`updateFlight`: plain database calls with no logic of their own.
- FlightQueries.TransportCode: the source looks the lower-cased text up on a plain object literal, so the keys "constructor" and "__proto__" find the members that object inherits from `Object.prototype` (the `Object` function and `Object.prototype` itself). Both are truthy and would be bound as the query parameter in place of the text. The model has only string values and returns the lower-cased text for these two keys as for any other unmapped key. No other inherited member has an all-lower-case name, so no other lower-cased input can reach one.
- The string-passengers branch of `correctionHandler` (lines 19-24): the parser never yields a string count, so the branch is not modelled.
- Some methods are split into helper methods, each a contiguous block of the source, to keep each proof small. The split methods are `listFlights`, `updateFlight`, `correctionHandler` and `dialogHandler`; the order of effects is unchanged.
