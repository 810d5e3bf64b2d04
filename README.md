# Argentine market site: a verified model of its logic

This project models the logic behind an Argentine personal-finance web site:

- the exchange-rate **bands**, which widen by one percent a month from an April-2025 base;
- the month arithmetic of its **date helpers**;
- the **WhatsApp link** built from the contact phone number;
- the **dollar-rate endpoint** addresses;
- the **bond-flow calendar**, which covers:
  - the ticker search;
  - the twelve-month window of maturities;
  - the all-months grouping;
  - the "only months with maturities" view;
  - the per-month day grid with its badges and popovers;
- the **economic-indicators page**, which shows the last twelve observations of each series, or an error alert;
- the **testimonials carousel**;
- the **flip cards** of the services section;
- the **contact form**, meaning both the server route that validates a submission and the client modal that edits and submits it.

Each source file becomes one Dafny module:

| Module | Source file | Style |
|---|---|---|
| `Bands` | `lib/bands.ts` | pure functions |
| `Dates` | `lib/dates.ts` | `getLastNMonths` is a method with a loop; the rest are pure functions |
| `Constants` | `lib/constants.ts` | pure functions |
| `ApiEndpoints` | `lib/api-endpoints.ts` | pure functions |
| `FlowsCalendar` | `components/market/flows-calendar.tsx` | `monthsData` and `monthsWithEventsAll` are methods whose loops fill a map; the rest are functions |
| `MonthCalendar` | `components/market/month-calendar.tsx` | `calendarDays` is a method; the rest are functions |
| `Indicators` | `app/indicadores/page.tsx` | pure functions |
| `ReviewsCarousel` | `components/reviews-carousel.tsx` | the component's state is the class `Carousel` |
| `ServicesFlip` | `components/services-flip.tsx` | the component's state is the class `FlipState` |
| `ContactRoute` | `app/api/contact/route.ts` | pure functions |
| `ContactModal` | `components/contact-modal.tsx` | the component's state is the class `ContactForm` |

Each of those three classes has one method per event handler.

Several helper modules hold the shared pieces:

| Module | Holds |
|---|---|
| `Market` | the record types of `types/market.ts` |
| `Wrappers` | `Option` |
| `Seqs` | filtering, insertion sorting and subsequences |
| `Strings` | the JavaScript string operations the code relies on: `trim`, ASCII `toLowerCase`, `includes`, `split`, `padStart`, `Number(...)` on decimal text, integer-to-text and UTF-16 length |

How the model represents the source's values:

- A JavaScript `Date` is a `(year, month, day)` triple with a 0-based month.
- The `Date` constructor's normalisation of an out-of-range month is `Dates.Normalize`, which uses Euclidean division by 12.
- The weekday of a month's first day is computed from the day count since 1 January 1970, which was a Thursday.
- The clock (`new Date()`) is a parameter.
- So are the email check of the validation schema, the date parser of the indicators page and the month-label formatter of the indicators page.

## Model

| member | source | states |
|---|---|---|
| Bands.Pow | lib/bands.ts:19 | a positive base raised to any integer power stays positive |
| Bands.PowSucc | lib/bands.ts:19 | raising the exponent by one multiplies by the base, for negative exponents too |
| Bands.PowNegate | lib/bands.ts:22 | a negative exponent gives the reciprocal |
| Bands.PowIncreasing | lib/bands.ts:19 | a base above one makes the power strictly increasing in the exponent |
| Bands.PowDecreasing | lib/bands.ts:22 | a base between zero and one makes the power strictly decreasing in the exponent |
| Bands.CalculateBandsForMonth | lib/bands.ts:15-25 | both bands are positive for every month, before or after the base month |
| Bands.BandsClosedForm | lib/bands.ts:15-25 | upper = 1400·1.01ⁿ and lower = 1000·0.99ⁿ, where n is the number of months from April 2025 |
| Bands.BandsAtBase | lib/bands.ts:4-7 | in April 2025 the bands are exactly the base values 1400 and 1000 |
| Bands.BandsIgnoreDay | lib/bands.ts:16 | only the year and month matter; the day of the month does not |
| Bands.BandsNextMonth | lib/bands.ts:15-25 | one month later, the upper band is 1% higher and the lower band 1% lower |
| Bands.BandsMonotonic | lib/bands.ts:15-25 | for any later month, the upper band is strictly higher and the lower band strictly lower |
| Bands.BandsMay2025 | lib/bands.ts:15-25 | one month after the base, in May 2025, the bands are 1414 and 990 |
| Bands.BandsMarch2025 | lib/bands.ts:15-25 | one month before the base, in March 2025, the bands are the base values divided by the factors: 1400/1.01 and 1000/0.99 |
| Dates.Normalize | lib/dates.ts:7 | the normalised (year, month) denotes the same absolute month as the out-of-range pair |
| Dates.MonthIndexInjective | lib/dates.ts:7 | two valid (year, month) pairs are the same month exactly when they are equal |
| Dates.NormalizeValid | lib/dates.ts:7 | a valid month is left as it is |
| Dates.NormalizeByIndex | lib/dates.ts:7 | pairs denoting the same absolute month normalise to the same result |
| Dates.GetMonthDifference | lib/dates.ts:15-17 | moving `from` forward by the difference lands on `to`'s year and month |
| Dates.MonthDifferenceUnique | lib/dates.ts:15-17 | the difference is the only month count with that property |
| Dates.MonthDifferenceSameMonth | lib/dates.ts:15-17 | two dates in the same month are zero months apart |
| Dates.MonthDifferenceAntisymmetric | lib/dates.ts:15-17 | swapping the dates negates the difference |
| Dates.MonthDifferenceAdditive | lib/dates.ts:15-17 | differences add along a chain of three dates |
| Dates.GetLastNMonths | lib/dates.ts:2-12 | returns n months (none when n ≤ 0); each is the first day of its month; they are consecutive; the last is today's month; the first is n−1 months earlier |
| Dates.MonthText | lib/dates.ts:22 | the month padded to two digits is the tens digit then the units digit of month + 1 |
| Dates.FormatYearMonth | lib/dates.ts:20-24 | the text is the year's digits followed by three characters |
| Dates.FormatYearMonthRoundTrip | lib/dates.ts:20-24 | the "YYYY-MM" text parses back to the same year and month, for every year including negative ones |
| Dates.ParseYearMonthOf | lib/dates.ts:23 | the year text, a dash and the two-digit month read back as that year and month |
| Dates.FormatYearMonthInjective | lib/dates.ts:20-24 | two dates format equally exactly when they share year and month |
| Constants.EnvOr | lib/constants.ts:2-3 | an unset variable gives the empty string; a non-empty value comes from the environment |
| Constants.StripWhitespace | lib/constants.ts:4 | the result has no white space and is a subsequence of the input; every other character keeps its count |
| Constants.StripIdempotent | lib/constants.ts:4 | removing white space a second time changes nothing |
| Constants.WhatsAppRef | lib/constants.ts:4 | the link starts with `https://wa.me/`, and nothing after the prefix is white space |
| Constants.WhatsAppRefKeepsDigits | lib/constants.ts:4 | after the prefix comes exactly the phone number's non-white-space characters, in order |
| Constants.UnsetPhoneGivesPrefix | lib/constants.ts:2-4 | with no phone number configured, the link is the bare prefix |
| Constants.CompactPhoneUnchanged | lib/constants.ts:4 | a number without white space is appended unchanged |
| ApiEndpoints.MonthSegment | lib/api-endpoints.ts:7-8 | months below 10 get a leading zero, others are plain; for a month ≥ 0 the segment reads back as that number |
| ApiEndpoints.Historical | lib/api-endpoints.ts:7-8 | the address starts with the historical-rates prefix |
| ApiEndpoints.HistoricalPath | lib/api-endpoints.ts:7-8 | after the prefix the address splits on `/` into the year, month and day segments |
| ApiEndpoints.HistoricalReadsBack | lib/api-endpoints.ts:7-8 | for a month ≥ 0 the three segments read back as the year, month and day |
| ApiEndpoints.HistoricalInjective | lib/api-endpoints.ts:7-8 | for months ≥ 0, different dates give different addresses |
| ApiEndpoints.SingleDigitMonthPadded | lib/api-endpoints.ts:8 | months 1 to 9 appear as "0" followed by the digit |
| ApiEndpoints.NegativeMonthUnreadable | lib/api-endpoints.ts:8 | a negative month appears as "0-…", which does not read back as a number |
| Strings.BlankIffAllWhitespace | components/market/flows-calendar.tsx:38 | a query trims to empty exactly when it is all white space |
| Strings.JsNumberIntToString | components/market/flows-calendar.tsx:18 | `Number` reads any integer's decimal text back as that integer |
| Strings.SplitJoin | components/market/flows-calendar.tsx:18 | splitting on a separator undoes joining with it, for pieces without the separator |
| Strings.PadStart | lib/dates.ts:22 | the result has the requested width (or the input's length if longer), ends with the input and is filled in front |
| Seqs.Filter | components/market/flows-calendar.tsx:41 | keeps exactly the elements that pass, in their original order |
| Seqs.FilterCounts | components/market/flows-calendar.tsx:41 | each passing element keeps its count, and every other element's count is zero |
| Seqs.FilterSorted | components/market/flows-calendar.tsx:119-120 | filtering a sequence sorted by a key leaves it sorted by that key |
| Seqs.SubsequenceTrans | components/market/flows-calendar.tsx:119-121 | a subsequence of a subsequence is a subsequence of the original |
| Seqs.SortedPrefixKeepsLowest | components/market/flows-calendar.tsx:121 | cutting a sorted sequence after n elements keeps it sorted, and nothing left out is lower than anything kept |
| Seqs.PrefixIsSubsequence | components/market/flows-calendar.tsx:121 | the first n elements form a subsequence |
| Seqs.SortBySortsAndPermutes | components/market/flows-calendar.tsx:81-85 | sorting by a key gives a sorted permutation of the input |
| Seqs.SortBySortedIsIdentity | components/market/flows-calendar.tsx:81-85 | sorting an already sorted sequence leaves it as it is |
| FlowsCalendar.ParseDateStringPieces | components/market/flows-calendar.tsx:16-19 | "d/m/y" gives `Number` of each piece, with the month minus one |
| FlowsCalendar.ParseDateStringRoundTrip | components/market/flows-calendar.tsx:16-19 | "DD/MM/YYYY" reads back as that day, the 0-based month and that year |
| FlowsCalendar.ParseDateStringNeedsSlashes | components/market/flows-calendar.tsx:16-19 | text without `/` has no month and no year |
| FlowsCalendar.TwoDigitTextReads | components/market/flows-calendar.tsx:18 | a two-digit day or month with a leading zero reads back as its number |
| FlowsCalendar.PopoverHeadingReadsBack | components/market/month-calendar.tsx:102 | after "Vencimientos - ", the popover heading's date parses back to the cell's day, month and year |
| FlowsCalendar.FilterInstruments | components/market/flows-calendar.tsx:37-42 | a blank query keeps everything; otherwise it keeps exactly the instruments whose lower-cased ticker contains the lower-cased query, with their counts and order |
| FlowsCalendar.FilterIgnoresCase | components/market/flows-calendar.tsx:40-41 | queries that agree after lower-casing select the same instruments |
| FlowsCalendar.FilterQueryNotTrimmed | components/market/flows-calendar.tsx:38-41 | the query is trimmed only for the blank test: "al3" finds AL30 and "al3 " does not |
| FlowsCalendar.LowerKeepsWhitespace | components/market/flows-calendar.tsx:38-40 | lower-casing neither creates nor removes white space |
| FlowsCalendar.MaturingOnMembers | components/market/flows-calendar.tsx:65-78 | the instruments maturing on a day are exactly the filtered ones whose parsed date is that day |
| FlowsCalendar.EventInInstrumentsOn | components/market/flows-calendar.tsx:72-74 | an instrument in an event is listed for that event's day |
| FlowsCalendar.AddToEventsSpec | components/market/flows-calendar.tsx:72-74 | pushing onto the day's event, or adding a new one, appends the instrument to that day only; days stay unique |
| FlowsCalendar.BucketStep | components/market/flows-calendar.tsx:65-78 | adding an instrument to its own month's bucket keeps that bucket exact; other buckets are unaffected |
| FlowsCalendar.MonthsData | components/market/flows-calendar.tsx:45-86 | twelve buckets, from today's month on, in month order; each lists per day exactly the instruments maturing then |
| FlowsCalendar.EmptyWindow | components/market/flows-calendar.tsx:50-62 | twelve empty buckets keyed by the window's months |
| FlowsCalendar.WindowStep | components/market/flows-calendar.tsx:65-78 | placing one more instrument keeps every window bucket exact |
| FlowsCalendar.WindowValuesInOrder | components/market/flows-calendar.tsx:81-85 | the buckets taken in window order are already sorted, so the final sort keeps them as they are |
| FlowsCalendar.WindowMonthIndex | components/market/flows-calendar.tsx:53-57 | the i-th window month is i months after today's; the first is today's month |
| FlowsCalendar.WindowListsOnlyItsDay | components/market/flows-calendar.tsx:65-78 | an instrument listed in a window bucket under a day matures in that bucket's month on that day |
| FlowsCalendar.WindowPlacement | components/market/flows-calendar.tsx:65-78 | an instrument maturing inside the window is listed in the bucket of its month, under its day |
| FlowsCalendar.WindowDropsOutside | components/market/flows-calendar.tsx:69-70 | an instrument maturing outside the window is in no bucket |
| FlowsCalendar.MonthsWithEventsAll | components/market/flows-calendar.tsx:89-111 | one bucket per distinct maturity month, each exact and non-empty, every instrument's month present, sorted by month |
| FlowsCalendar.GroupStep | components/market/flows-calendar.tsx:92-104 | grouping one more instrument keeps the keys unique, the buckets exact and every month covered |
| FlowsCalendar.SortedBuckets | components/market/flows-calendar.tsx:106-110 | sorting the grouped buckets gives the all-months view in month order |
| FlowsCalendar.AllMonthsStrictlyAscending | components/market/flows-calendar.tsx:106-110 | distinct months sorted by date are strictly ascending |
| FlowsCalendar.AllMonthsViewStrictlyAscending | components/market/flows-calendar.tsx:89-111 | when every instrument's parsed month is in 0..11, the all-months view is strictly ascending, so no calendar month appears twice |
| FlowsCalendar.MonthTwelveSplitsCalendarMonth | components/market/flows-calendar.tsx:93-94 | a parsed month of 12 has a different bucket key from January of the next year, yet both sort as the same calendar month |
| FlowsCalendar.DisplayMonths | components/market/flows-calendar.tsx:114-123 | without the toggle, the windowed buckets; with it, the first min(12, k) of the k all-months buckets that start no earlier than now, kept in the all-months order and without repeats or additions (a subsequence of the all-months view) |
| FlowsCalendar.DisplayKeepsEarliest | components/market/flows-calendar.tsx:117-121 | over an all-months view in month order, the months shown are in month order, and every qualifying month left out by the twelve-month cut comes no earlier than any month shown |
| FlowsCalendar.TodaysMonthShownOnlyAtStart | components/market/flows-calendar.tsx:119-120 | today's month passes the "not before now" test only at midnight on the 1st |
| FlowsCalendar.OtherMonthsShown | components/market/flows-calendar.tsx:119-120 | later months always pass the test, and earlier months never do |
| FlowsCalendar.DisplayReachesBeyondWindow | components/market/flows-calendar.tsx:114-123 | the toggle can show a month (a year from now) that the twelve-month window does not contain |
| MonthCalendar.FirstDay | components/market/month-calendar.tsx:20 | the weekday of the 1st is between 0 and 6 |
| MonthCalendar.MonthDaysRange | components/market/month-calendar.tsx:21 | 28 to 31 days: February has 29 exactly in leap years; April, June, September and November have 30 |
| MonthCalendar.YearLength | components/market/month-calendar.tsx:21 | a year has 366 days if leap, else 365 |
| MonthCalendar.LeapYearsStep | components/market/month-calendar.tsx:20 | the count of leap years grows by one exactly after a leap year |
| MonthCalendar.DaysFromEpochNext | components/market/month-calendar.tsx:20-21 | the next month starts the current month's length later |
| MonthCalendar.FirstWeekdayNext | components/market/month-calendar.tsx:20-21 | the next month's first weekday is shifted by this month's length, mod 7 |
| MonthCalendar.FirstWeekdayExamples | components/market/month-calendar.tsx:20 | 1 January 1970 is a Thursday, and 1 April 2025 a Tuesday |
| MonthCalendar.CalendarDays | components/market/month-calendar.tsx:24-32 | first-weekday blanks, then the days 1 through the month's length in order |
| MonthCalendar.FindEvent | components/market/month-calendar.tsx:36 | the index of the first event on that day, or none when no event has that day |
| MonthCalendar.GetEventsForDay | components/market/month-calendar.tsx:34-38 | nothing for a blank, day 0 or an eventless day; otherwise the first matching event's instruments |
| MonthCalendar.Badges | components/market/month-calendar.tsx:82 | the first two tickers, or all of them when there are fewer |
| MonthCalendar.Overflow | components/market/month-calendar.tsx:91-95 | the "+n" badge appears exactly for more than two instruments, with n ≥ 1 |
| MonthCalendar.ListedFlows | components/market/month-calendar.tsx:125-128 | the first three flows of the instrument, or all of them when there are fewer |
| MonthCalendar.RenderCell | components/market/month-calendar.tsx:57-143 | an empty cell for a blank or day 0, a plain day when it has no events, otherwise the day's instruments under its heading |
| MonthCalendar.BadgesAccountForAll | components/market/month-calendar.tsx:82-95 | the shown badges plus the "+n" count equal the day's instruments; each instrument lists its first three flows |
| Indicators.Observations | app/indicadores/page.tsx:78-81 | the chart points keep each observation's date and value, one for one |
| Indicators.LastTwelve | app/indicadores/page.tsx:75 | the last twelve elements, or all of them when there are fewer |
| Indicators.SortedCopy | app/indicadores/page.tsx:72 | a permutation of the series ordered by parsed date |
| Indicators.WithLabels | app/indicadores/page.tsx:78-81 | each point gets the label of its own date, and the observations are unchanged |
| Indicators.ProcessLast12Months | app/indicadores/page.tsx:70-82 | min(12, n) points ordered by date and labelled by their date, drawn from the series |
| Indicators.KeepsMostRecent | app/indicadores/page.tsx:70-82 | every observation left out is no later than every point kept |
| Indicators.KeptAfterDropped | app/indicadores/page.tsx:72-75 | the same for any suffix of a sorted copy |
| Indicators.IndicatorsContent | app/indicadores/page.tsx:84-105 | the error alert exactly when all three series are empty; otherwise the three processed series |
| ReviewsCarousel.JsRem | components/reviews-carousel.tsx:20 | JavaScript `%`: the Euclidean remainder for a non-negative dividend, in (−n, 0] for a negative one |
| ReviewsCarousel.NextIndex | components/reviews-carousel.tsx:15-17 | from a valid slide, the next slide, wrapping from the last to the first |
| ReviewsCarousel.PrevIndex | components/reviews-carousel.tsx:19-21 | from a valid slide, the previous slide, wrapping from the first to the last |
| ReviewsCarousel.PrevAfterNext | components/reviews-carousel.tsx:15-21 | "previous" undoes "next" |
| ReviewsCarousel.NextAfterPrev | components/reviews-carousel.tsx:15-21 | "next" undoes "previous" |
| ReviewsCarousel.NextTimesRotates | components/reviews-carousel.tsx:28-33 | k autoplay ticks advance k slides modulo the slide count |
| ReviewsCarousel.FullCycle | components/reviews-carousel.tsx:28-33 | as many ticks as slides return to the starting slide |
| ReviewsCarousel.Carousel.constructor | components/reviews-carousel.tsx:12-13 | it starts on slide 0 with autoplay on |
| ReviewsCarousel.Carousel.NextSlide | components/reviews-carousel.tsx:15-17 | the index advances with wrap-around and autoplay is unchanged |
| ReviewsCarousel.Carousel.PrevSlide | components/reviews-carousel.tsx:19-21 | the index goes back with wrap-around and autoplay is unchanged |
| ReviewsCarousel.Carousel.GoToSlide | components/reviews-carousel.tsx:23-25 | the index is set as given; the state stays valid exactly when it is in range |
| ReviewsCarousel.Carousel.HandleKeyDown | components/reviews-carousel.tsx:37-45 | ArrowLeft goes back, ArrowRight goes forward, both stop autoplay; other keys change nothing |
| ReviewsCarousel.Carousel.MouseEnter | components/reviews-carousel.tsx:51 | hovering pauses autoplay |
| ReviewsCarousel.Carousel.MouseLeave | components/reviews-carousel.tsx:52 | leaving resumes autoplay |
| ReviewsCarousel.Carousel.ClickPrev | components/reviews-carousel.tsx:144-147 | back one slide, and autoplay stops |
| ReviewsCarousel.Carousel.ClickNext | components/reviews-carousel.tsx:158-161 | forward one slide, and autoplay stops |
| ReviewsCarousel.Carousel.ClickDot | components/reviews-carousel.tsx:170-176 | jumps to the chosen slide, and autoplay stops |
| ReviewsCarousel.Carousel.AutoplayTick | components/reviews-carousel.tsx:28-33 | advances only while autoplay is on |
| ServicesFlip.Toggle | components/services-flip.tsx:18-20 | an unflipped card is appended; a flipped one is removed; every other card's membership is unchanged |
| ServicesFlip.ToggleRemovesOnlyThatId | components/services-flip.tsx:19 | un-flipping removes every copy of that id and keeps every other id's count |
| ServicesFlip.ToggleTwiceMembership | components/services-flip.tsx:18-20 | toggling twice restores which cards are flipped |
| ServicesFlip.ToggleTwiceRestores | components/services-flip.tsx:18-20 | flipping a card and un-flipping it restores the exact list |
| ServicesFlip.ToggleKeepsNoDuplicates | components/services-flip.tsx:18-20 | a list without duplicates stays without duplicates |
| ServicesFlip.TogglesFromEmptyNoDuplicates | components/services-flip.tsx:16-20 | any sequence of toggles keeps the list free of duplicates |
| ServicesFlip.FlipState.constructor | components/services-flip.tsx:16 | no card starts flipped |
| ServicesFlip.FlipState.ToggleCard | components/services-flip.tsx:18-20 | the clicked card's flipped state inverts; every other card's stays as it was |
| ServicesFlip.FlipState.HandleCardKey | components/services-flip.tsx:54-59 | Enter and Space toggle the card; other keys change nothing |
| ContactRoute.SchemaEntries | app/api/contact/route.ts:4-17 | the schema's twelve fields, including the email, name, surname, reason, risk and consent rules |
| ContactRoute.SchemaNamesDistinct | app/api/contact/route.ts:4-17 | no field is named twice |
| ContactRoute.FailingFields | app/api/contact/route.ts:24 | it names exactly the fields whose rule fails, and is empty exactly when the schema passes |
| ContactRoute.FailingAt | app/api/contact/route.ts:24 | a given field is reported exactly when its rule fails |
| ContactRoute.Parse | app/api/contact/route.ts:24 | succeeds exactly for an object passing the schema, and keeps only the schema's keys with their values; otherwise reports at least one issue |
| ContactRoute.FailingIssues | app/api/contact/route.ts:24 | no issue exactly when the schema passes; an issue for a field exactly when that field fails |
| ContactRoute.SchemaMeansContactValid | app/api/contact/route.ts:4-17 | passing the schema is the same as meeting each written field rule |
| ContactRoute.SchemaGivesContactValid | app/api/contact/route.ts:4-17 | a body that passes the schema meets every field rule |
| ContactRoute.ContactValidGivesSchema | app/api/contact/route.ts:4-17 | a body meeting every field rule passes the schema |
| ContactRoute.ShortNameRejected | app/api/contact/route.ts:6-7 | a first name or surname shorter than two UTF-16 units is rejected at that field |
| ContactRoute.MotivoOutOfBoundsRejected | app/api/contact/route.ts:8 | a reason outside 10 to 300 units is rejected at that field |
| ContactRoute.ConsentRequired | app/api/contact/route.ts:16 | no submission without consent equal to `true` |
| ContactRoute.FreeTextFieldsUnconstrained | app/api/contact/route.ts:9-14 | occupation, province, account and horizon accept any string, or absence |
| ContactRoute.Post | app/api/contact/route.ts:19-51 | 200 exactly for a valid body, 400 for a body the schema rejects, 500 when the request body is not JSON |
| ContactRoute.PostAcceptsExactlyValid | app/api/contact/route.ts:19-51 | the route answers 200 exactly for an object meeting every field rule |
| ContactModal.AsObject | components/contact-modal.tsx:98 | the posted object holds exactly the form's set values, under their field names |
| ContactModal.ClientAcceptedIsServerAccepted | components/contact-modal.tsx:20-37 | anything the form's own schema accepts, the route accepts |
| ContactModal.DefaultsObject | components/contact-modal.tsx:75-84 | the default values post as empty texts, consent false and no risk choice |
| ContactModal.DefaultsRejected | components/contact-modal.tsx:74-84 | the untouched form is refused, reporting name, surname, reason, risk and consent |
| ContactModal.UntouchedReported | app/api/contact/route.ts:6-16 | empty texts, unset risk and false consent are each reported |
| ContactModal.EmptyTextsReported | app/api/contact/route.ts:6-8 | empty name, surname and reason are reported |
| ContactModal.UnsetChoicesReported | app/api/contact/route.ts:15-16 | missing risk and false consent are reported |
| ContactModal.RequiredReported | app/api/contact/route.ts:4-17 | a failing schema field is reported by name |
| ContactModal.DefaultEmailReported | components/contact-modal.tsx:76 | the default empty email is reported exactly when the email check refuses "" |
| ContactModal.EmptyEmailReported | app/api/contact/route.ts:5 | an empty email is reported exactly when the email check refuses "" |
| ContactModal.CharCount | components/contact-modal.tsx:87-88 | an unset text counts 0; a set one counts its UTF-16 length |
| ContactModal.CountersWithinLimits | components/contact-modal.tsx:87-88 | on an accepted form the reason counter is within 10 to 300 and the objective counter is at most 300 |
| ContactModal.CountersStartAtZero | components/contact-modal.tsx:75-88 | both counters start at 0 |
| ContactModal.ContactForm.constructor | components/contact-modal.tsx:69-84 | closed, not submitting, default values, no toast |
| ContactModal.ContactForm.SetOpen | components/contact-modal.tsx:242 | opening or closing the dialog changes only whether it is open |
| ContactModal.ContactForm.Edit | components/contact-modal.tsx:75-84 | editing changes only the values |
| ContactModal.ContactForm.BeginSubmit | components/contact-modal.tsx:90-91 | submission starts exactly when the form's schema accepts the values, and then marks the form submitting |
| ContactModal.ContactForm.CompleteSubmit | components/contact-modal.tsx:101-119 | on success a success toast appears and the form resets and closes; on failure an error toast appears and the values stay; submitting ends either way |
| ContactModal.ContactForm.SubmitToRoute | components/contact-modal.tsx:90-120 | a form the schema accepts is always answered 200 by the route, so it ends reset and closed with a success toast; a refused form is not sent |

## Left out

- Months before year 100: the JavaScript `Date` constructor maps years 0 to 99 onto 1900 to 1999. The model treats every year literally.
- Dates that are not numbers: a maturity date whose pieces are not numbers gives NaN in the source.
  - In the twelve-month window, such an instrument is in no bucket. The model does the same.
  - In the all-months view the model drops the instrument (`HasMonth`). This is not what the source does; see the next line.
- FlowsCalendar.MonthsWithEventsAll: its sorted result holds only because instruments with an unparseable year or month are dropped before the sort. In the source such an instrument forms a bucket keyed "NaN-…" (or "…-NaN"). Its start time is NaN, so the comparator of `components/market/flows-calendar.tsx:106-110` answers NaN against every other bucket, and `Array.prototype.sort` reads that as "equal". The comparator is then inconsistent, and the order of the whole array is left to the JavaScript engine. For example, with insertion order March 2026, the NaN bucket, January 2026, an engine may return that order unchanged. The source's all-months view can then be out of month order.
- FlowsCalendar.DisplayMonths: the same applies to the "only months with maturities" view. The filter at `components/market/flows-calendar.tsx:120` drops the NaN bucket, but the remaining months may already be out of order (March 2026 before January 2026 in the example). The model's `DisplayKeepsEarliest` assumes a sorted all-months view, so it does not describe that case.
- `Number(...)` is modelled for optionally signed decimal integers with surrounding white space. Fractions, exponents, hexadecimal and `Infinity` are treated as not a number.
- `toLowerCase` is modelled for ASCII letters only.
- The bands use exact rational arithmetic. IEEE-754 rounding of `Math.pow` is not modelled.
- Locale formatting is not modelled: month names, `toLocaleDateString` and the currency formatting of `lib/format.ts`. `lib/format.ts` is not part of this model.
- Time zones and daylight-saving time are not modelled. "Now" is a date plus the milliseconds since that day's midnight.
- The email check of the schema, the indicators page's date parser and its month-label formatter are parameters.
- The text of error messages and toasts is not modelled. Toasts are kinds only (success or error).
- The autoplay timer is not modelled. Each interval firing is one call to `AutoplayTick`, and clearing the timer is not represented.
- Animations, styles, focus handling and DOM events other than the handlers above are not modelled.
- Network I/O is not modelled. The route's JSON decoding outcome and the fetch outcome of the modal are inputs (`Request`, `Outcome`).
- The contents of `JSON.stringify` are not modelled: the posted body is the object of set values.
- The flows and indicators endpoint addresses of `lib/api-endpoints.ts` are not modelled.
- The current and official dollar endpoints appear only as string constants.
- Instruments pushed onto an existing event's list: the source mutates that list in place. The model builds a new list of events. Aliasing between the map's entries and the returned array is not captured.
- ContactModal.ContactForm.SubmitToRoute: composes the client check, the route and the completion step, so it does not model a network failure. `CompleteSubmit` covers failure outcomes separately.
