# EPI-LOG core in Dafny

EPI-LOG tells parents whether the air is safe for their child today. It is a
Next.js web app with a Toss mini-app. This project models the deterministic
core of that app as pure Dafny functions and proves properties about them.

- **`Decision`** (`lib/dailyReportDecision.ts`): the decision engine. It maps
  PM2.5 and ozone readings to grades 1–4 and raises the risk for the child's
  age, condition and the weather. It also forces the ozone and infant
  policies into the AI guide, using append-only lists, and classifies a fetch
  as LIVE, STATION_FALLBACK or DEGRADED.
- **`AirQualityLatest`** (`app/api/air-quality-latest/route.ts`): the
  station-resolving route.
  - It normalises Korean place names (`역삼1동` → `역삼동`).
  - It builds the ordered, duplicate-free candidate list, including the
    district hint table.
  - It detects the upstream's "unknown station" placeholder reading.
  - It searches the candidates, best effort, and projects the raw reading
    onto the view.
  - The upstream service is a function from a candidate to a response.
- **`DailyReport`** (`app/api/daily-report/route.ts`): the daily-report
  route. It covers the request defaults, the profile mapping for the advice
  service, the reading and advice transforms, the fallbacks, and the
  pollutant backfill. Both upstream services are function parameters.
- **`HomePage`** (`app/page.tsx`): the home page's pure helpers.
  - The `YYYY-MM-DD HH:MM` Korean-time parser, with ECMAScript's `Date.UTC`
    written out (`MakeDay`, `DayFromYear`, `TimeClip`, two-digit years),
    checked against a day-counting calendar.
  - The freshness badge.
  - The decision-signal chips.
  - The profile badge.
- **`DataGrid`** (`components/DataGrid.tsx`): the pollutant status badges.
- **`CharacterUtils`** (`lib/characterUtils.ts`): the grade and age codes,
  the character picture path, and the grade's colour and label.
- **`TextUtils`** (`miniapps/ait-webview/src/lib/textUtils.ts`): the
  `**highlight**` splitter. The lazy regular expression and the `exec` loop
  are modelled position by position.
- **`ApiBase`** (`miniapps/ait-webview/src/lib/apiBase.ts`): the mini-app's
  API origin and URL join. The two build-time environment values are
  parameters.
- **`UserStore`** (`store/useUserStore.ts`): the user store's state, its
  three actions, and the in-memory key/value storage.
- **`JsValue`** and **`JsString`** hold the JavaScript semantics the
  modules share:
  - `||` and `??` on optional values;
  - truthiness;
  - the `\s` white-space set;
  - `trim`, `replace(/\s+/g, ' ')` and `split(' ').filter(Boolean)`;
  - `includes`, `startsWith` and `endsWith`.

How inputs are represented:

- A missing, `null` or NaN value is `None`.
- Numbers are exact `real`s.
- Strings are sequences of Unicode scalar values (Dafny `char`). The
  source's strings are UTF-16 code units; the two differ only for characters
  outside the Basic Multilingual Plane.
- The clock is a parameter (`now`, `hour`, `updatedAt`), and so is every
  network answer.

## Model

| member | source | states |
|---|---|---|
| Decision.ClampGrade | lib/dailyReportDecision.ts:75-79 | the result is the grade in 1..4 nearest to the input |
| Decision.ToUiGrade | lib/dailyReportDecision.ts:81-87 | the UI grade stands for the clamped numeric grade |
| Decision.UiGradeRoundTrip | lib/dailyReportDecision.ts:81-87 | turning a UI grade into its tier and back gives the same UI grade |
| Decision.Pm25Grade | lib/dailyReportDecision.ts:89-95 | missing or NaN gives 2; grade 1 iff ≤15; grade ≤2 iff ≤35 or missing; grade ≤3 iff ≤75 or missing |
| Decision.O3Grade | lib/dailyReportDecision.ts:97-103 | the same bands for ozone at 0.03, 0.09 and 0.15 ppm |
| Decision.Pm25GradeMonotone | lib/dailyReportDecision.ts:89-95 | a larger PM2.5 reading never gets a smaller grade |
| Decision.O3GradeMonotone | lib/dailyReportDecision.ts:97-103 | a larger ozone reading never gets a smaller grade |
| Decision.AppendUnique | lib/dailyReportDecision.ts:115-118 | the input is a prefix of the output; `next` is present afterwards; nothing else is added; a present `next` changes nothing; duplicate-freedom is kept |
| Decision.AppendUniqueIdempotent | lib/dailyReportDecision.ts:115-118 | appending the same entry twice is the same as appending it once |
| Decision.ApplyWeatherAdjustment | lib/dailyReportDecision.ts:120-155 | for a base grade in 1..4 the adjusted grade lies between the base and the base plus 2 |
| Decision.WeatherReasons | lib/dailyReportDecision.ts:126-154 | each reason is reported iff its rule fires; a condition rule's reason replaces an age rule's; no reason iff no rule fires |
| Decision.WeatherSteps | lib/dailyReportDecision.ts:129-152 | the adjusted grade is min(4, base + one step if an age rule fires + one step if a condition rule fires) |
| Decision.RulesExclusive | lib/dailyReportDecision.ts:132-149 | the two age rules never both hold, and no two of the three condition rules hold together |
| Decision.WeatherAdjustmentMonotone | lib/dailyReportDecision.ts:120-155 | a worse base grade never gives a better adjusted grade |
| Decision.OzoneDetailAnswer | lib/dailyReportDecision.ts:189-194 | the answer ends with the ozone sentence and is preceded by the detail answer, else the detail, joined with one space; the sentence stands alone when both are empty |
| Decision.OzoneSentenceContained | lib/dailyReportDecision.ts:189-194 | the ozone sentence always occurs in the amended detail answer |
| Decision.DecideSignals | lib/dailyReportDecision.ts:163-178 | the grades come from the readings; the adjusted risk is at least the worse grade; it is 4 when both grades are ≥3 and otherwise exactly the weather-adjusted worse grade; the final grade is its UI grade; the ozone, dominance and infant flags hold iff their conditions do; `weatherAdjusted` iff a reason exists, and the reason is the weather adjustment's |
| Decision.ConditionRuleRaisesRisk | lib/dailyReportDecision.ts:120-178 | when a condition rule fires, the adjusted grade is at least min(4, worse grade + 1) and `weatherAdjusted` holds |
| Decision.RhinitisDryExample | lib/dailyReportDecision.ts:120-178 | rhinitis at 25% humidity with PM2.5 20 and ozone 0.05 (worse grade 2): the adjusted grade is at least 3 and the rhinitis reason is reported |
| Decision.AmendGuide | lib/dailyReportDecision.ts:180-221 | the input lists are prefixes of the output lists and only fresh, distinct entries are added; high ozone adds its action item and reason and sets the detail answer to the ozone answer built from the old one, which contains the ozone sentence; otherwise the detail answer is unchanged; the summary becomes the afternoon-ozone summary when ozone dominates and 14 ≤ hour < 17, and is unchanged otherwise; for an infant the mask advice is exactly `마스크 착용 금지(영아)` and both infant entries are present, otherwise the mask advice is unchanged; the weather reason is present; the other fields are unchanged |
| Decision.AmendGuideAddsOnlyPolicyEntries | lib/dailyReportDecision.ts:180-217 | every entry of the output lists was in the input, or is the ozone text while the ozone ban applies, or the infant text while the infant ban applies, or the weather reason |
| Decision.AmendGuideKeepsInactivePolicies | lib/dailyReportDecision.ts:180-217 | a policy that does not apply leaves its action item and its reason present exactly when they were before (the reason unless it equals the weather reason) |
| Decision.FreshTailAppend | lib/dailyReportDecision.ts:186-213 | two rounds of `appendUnique` add only fresh, distinct entries |
| Decision.FreshTailAppend3 | lib/dailyReportDecision.ts:196-216 | three rounds of `appendUnique` add only fresh, distinct entries |
| Decision.DeriveDecisionSignals | lib/dailyReportDecision.ts:157-241 | the output reading is the input with only its grade replaced by the final grade; the guide is amended by the signals |
| Decision.AdjustedRiskMonotoneInPm25 | lib/dailyReportDecision.ts:163-172 | raising the PM2.5 reading never lowers the adjusted risk grade |
| Decision.AdjustedRiskMonotoneInO3 | lib/dailyReportDecision.ts:163-172 | raising the ozone reading never lowers the adjusted risk grade |
| Decision.BuildReliabilityMeta | lib/dailyReportDecision.ts:243-286 | DEGRADED iff fallback data was used or no data exists; otherwise STATION_FALLBACK iff a fallback candidate was used; otherwise LIVE; the label and description follow the status; `aiStatus` is ok iff `aiOk`; the station fields are copied |
| Decision.ReliabilityAxesOrthogonal | lib/dailyReportDecision.ts:243-286 | the AI flag never changes the status |
| AirQualityLatest.LazyGroupEnd | app/api/air-quality-latest/route.ts:68-70 | a group end found lies inside the name |
| AirQualityLatest.LazyGroupEndLeast | app/api/air-quality-latest/route.ts:68-70 | the lazy group ends at the least position where `^(.+?)\d+X$` matches, and none is found iff no position matches |
| AirQualityLatest.ReplaceNumberedSuffixSpec | app/api/air-quality-latest/route.ts:68-79 | a name that does not match is unchanged; a name that matches keeps only the shortest group, plus the final character when the rule keeps it |
| AirQualityLatest.NumberedSuffixStripped | app/api/air-quality-latest/route.ts:68-79 | for p·d·X, where p is non-empty, has no line terminator and does not end in a digit, and d is a digit run, the result is p followed by X when X is kept |
| AirQualityLatest.UnsuffixedUnchanged | app/api/air-quality-latest/route.ts:68-79 | a name not ending in X is left unchanged |
| AirQualityLatest.NormalizeDongExample | app/api/air-quality-latest/route.ts:68-70 | `역삼1동` becomes `역삼동` |
| AirQualityLatest.NormalizeSubregionGaExample | app/api/air-quality-latest/route.ts:72-79 | `효자동1가` becomes `효자동`: the numbered `가` goes with its number |
| AirQualityLatest.NormalizeSubregionRiExample | app/api/air-quality-latest/route.ts:72-79 | `신촌2리` becomes `신촌리`: the number goes and `리` stays |
| AirQualityLatest.AddCandidate | app/api/air-quality-latest/route.ts:86-92 | the list only grows, by the normal form of the value when that is non-empty and new; duplicate-freedom and validity are kept |
| AirQualityLatest.AddCandidateCases | app/api/air-quality-latest/route.ts:86-92 | `add` leaves the list alone when the normal form is empty or already present, and otherwise appends exactly that form |
| AirQualityLatest.CleanAll | app/api/air-quality-latest/route.ts:88 | each value is mapped to its trimmed, single-spaced form, position by position |
| AirQualityLatest.AddAll | app/api/air-quality-latest/route.ts:94-118 | every non-empty normal form of the values ends up in the list; nothing else is added; with an empty start the first value's form comes first; duplicate-freedom and validity are kept |
| AirQualityLatest.AddAllFresh | app/api/air-quality-latest/route.ts:86-92 | each appended entry is non-empty, was not in the starting list, and is the normal form of one of the values |
| AirQualityLatest.AddAllOrder | app/api/air-quality-latest/route.ts:83-118 | the appended entries come in the order in which the values first produce their normal forms |
| AirQualityLatest.TokenVariants | app/api/air-quality-latest/route.ts:99-104 | every token is among its variants |
| AirQualityLatest.MatchedHints | app/api/air-quality-latest/route.ts:112-117 | the hint list has no duplicates and holds exactly the hints of the keys the name contains or names as a token |
| AirQualityLatest.AddHints | app/api/air-quality-latest/route.ts:113-117 | the accumulated hints only grow, stay duplicate-free, gain every hint of a matching key, and gain nothing that is not a hint of a matching key |
| AirQualityLatest.AppendAll | app/api/air-quality-latest/route.ts:115 | set insertion: every hint is present afterwards, nothing else is added, no duplicates |
| AirQualityLatest.BuildStationCandidatesWith | app/api/air-quality-latest/route.ts:81-121 | the candidates are duplicate-free, non-empty, trimmed and single-spaced; they are exactly the non-empty normal forms of the values handed to `add`, in the order those values first produce them |
| AirQualityLatest.AddAllFromEmpty | app/api/air-quality-latest/route.ts:83-92 | starting from the empty list the result is duplicate-free and valid |
| AirQualityLatest.AddAllFromEmptyInOrder | app/api/air-quality-latest/route.ts:83-118 | starting from the empty list the result holds every non-empty normal form of the values, nothing else, in first-occurrence order |
| AirQualityLatest.CandidatesAreNormalForms | app/api/air-quality-latest/route.ts:86-92 | every candidate is the normal form of some value handed to `add` |
| AirQualityLatest.CandidateOfInput | app/api/air-quality-latest/route.ts:83-121 | every value handed to `add` whose normal form is non-empty is tried in that form |
| AirQualityLatest.CandidatesStartWithName | app/api/air-quality-latest/route.ts:82-94 | for a name with content, the first candidate is the trimmed, collapsed name |
| AirQualityLatest.CandidatesIncludeNormalizedName | app/api/air-quality-latest/route.ts:96-97 | the dong- and subregion-normalised forms of the whole name are candidates |
| AirQualityLatest.CandidatesIncludeTokens | app/api/air-quality-latest/route.ts:99-104 | every space-separated token of the cleaned name is a candidate, as it is |
| AirQualityLatest.CandidatesIncludeHints | app/api/air-quality-latest/route.ts:112-118 | every hint of a matching district is a candidate, in its normal form |
| AirQualityLatest.WordsAreClean | app/api/air-quality-latest/route.ts:99 | the tokens of a cleaned name are already in normal form |
| AirQualityLatest.TokenIsCanonical | app/api/air-quality-latest/route.ts:99 | a token of a cleaned name holds no white space |
| AirQualityLatest.StationHintsAreClean | app/api/air-quality-latest/route.ts:17-23 | every hint of the table is non-empty and already in normal form |
| AirQualityLatest.HintsIncluded | app/api/air-quality-latest/route.ts:112-118 | with such a table, every hint of a matching district is a candidate verbatim |
| AirQualityLatest.SentinelSharp | app/api/air-quality-latest/route.ts:123-131 | the signature holds for 65/85/0.065/0.025; it fails for any other PM2.5 or PM10 count, for ozone or NO₂ off by 1e-6 or more, and when ozone is missing (NaN) |
| AirQualityLatest.SentinelCandidates | app/api/air-quality-latest/route.ts:161-162 | only candidates are recorded as giving the placeholder |
| AirQualityLatest.Search | app/api/air-quality-latest/route.ts:138-181 | a hit is the first genuine reading, with the placeholder candidates before it; on exhaustion no reading was genuine, and the fallback is the first parsed response, or none iff nothing parsed |
| AirQualityLatest.FetchAlong | app/api/air-quality-latest/route.ts:133-193 | `triedStations` is the candidate list. On the first genuine reading: its data and name, no fallback data, and `usedFallbackCandidate` iff the candidate or the resolved name differs from the first candidate. Without one: the first parsed reading, `usedFallbackData` iff some response parsed, and null data with the input name when none did |
| AirQualityLatest.FallbackCandidateIffMoved | app/api/air-quality-latest/route.ts:173-174 | with distinct candidates, a hit is a fallback candidate iff it is not the first candidate or resolves to another name |
| AirQualityLatest.FetchDegradedIffNoGenuine | app/api/air-quality-latest/route.ts:169-192 | fallback data or no data iff no candidate gave a genuine reading |
| AirQualityLatest.FetchResolvesNonEmpty | app/api/air-quality-latest/route.ts:133-193 | over valid candidates and a non-empty name, the resolved station is never empty |
| AirQualityLatest.GradeScore | app/api/air-quality-latest/route.ts:208-216 | `좋음` 1, `나쁨` 3, `매우나쁨` 4, and everything else, missing included, 2 (inherited prototype keys aside, see below) |
| AirQualityLatest.WorstUiGrade | app/api/air-quality-latest/route.ts:217-230 | the UI grade stands for the worse of the two grades |
| AirQualityLatest.ToViewAirData | app/api/air-quality-latest/route.ts:195-247 | null gives the fallback station, NORMAL, 22 °C and 45 %; otherwise the worst grade, `temp ?? temperature ?? 22`, `humidity ?? 45`, the name or the fallback, and the values and detail copied |
| AirQualityLatest.GetAlong | app/api/air-quality-latest/route.ts:266-274 | the answer carries the requested station, the tried list, AI status ok, the update time of the first clock read and the timestamp of the second; its reading is the reshaped lookup result and its reliability block is the one built from the lookup |
| AirQualityLatest.Get | app/api/air-quality-latest/route.ts:256-268 | a missing or blank parameter is refused with `Missing stationName`; otherwise the trimmed name is looked up along its candidates |
| AirQualityLatest.DegradedIffNoGenuine | app/api/air-quality-latest/route.ts:266-268 | the route's status is DEGRADED iff no candidate gave a genuine reading |
| AirQualityLatest.LiveOnDirectHit | app/api/air-quality-latest/route.ts:169-177 | a genuine first candidate that names itself gives LIVE |
| AirQualityLatest.FallbackOnMovedHit | app/api/air-quality-latest/route.ts:169-177 | a hit further down the list, or under another name, gives STATION_FALLBACK |
| AirQualityLatest.NamesAStation | app/api/air-quality-latest/route.ts:266-267 | the answer always names a station |
| AirQualityLatest.ViewKeepsStationName | app/api/air-quality-latest/route.ts:195-221 | a non-empty fallback station gives a non-empty station name |
| DailyReport.MapProfileToAiSchema | app/api/daily-report/route.ts:6-24 | the age group passes through, defaulting to `elementary_low`; the condition is one of the four the service knows, is passed through iff it is asthma, rhinitis or atopy, and is `general` otherwise |
| DailyReport.AiSchemaIdempotent | app/api/daily-report/route.ts:6-24 | mapping an already mapped profile changes nothing |
| DailyReport.TargetStation | app/api/daily-report/route.ts:30 | a falsy station name becomes `강남구` |
| DailyReport.AiProfileOf | app/api/daily-report/route.ts:31-32 | a missing profile is mapped as `{child_low, normal}`, which gives `child_low`/`general` |
| DailyReport.TransformAir | app/api/daily-report/route.ts:66-95 | the worst of the two grade texts; the name or the target station; values copied; the fields this route does not carry are absent |
| DailyReport.TransformAgreesWithLatestRoute | app/api/daily-report/route.ts:67-95 | the reshaping equals the other route's projection with the dropped fields cleared |
| DailyReport.MissingAir | app/api/daily-report/route.ts:149-154 | the placeholder names the target station, is NORMAL and carries no reading |
| DailyReport.AirOf | app/api/daily-report/route.ts:55-157 | the station name is never empty; no parsed reading gives the placeholder; otherwise the name and the values come from the reading, the grade is the worse of the two grade texts, `value` is the PM10 reading and the detail carries both grade numbers and all four readings; the fields this route does not carry are absent |
| DailyReport.MapAdviceAsWritten | app/api/daily-report/route.ts:112-131 | a decision `Error`, or a reason containing `Error code:`, gives the fixed maintenance guide; otherwise the decision is summary and activity, the reason is the detail, the mask advice is `KF80 권장`, and the lists default to empty; no pollutant reading is carried |
| DailyReport.MapAdvice | app/api/daily-report/route.ts:112-166 | as written, except that a healthy answer's pollutant readings are carried |
| DailyReport.BackendErrorHidesAnswer | app/api/daily-report/route.ts:114-121 | any two failing answers give the same guide, so no upstream text leaks |
| DailyReport.GuideOf | app/api/daily-report/route.ts:104-146 | no parsed advice gives the offline guide; otherwise the mapped advice |
| DailyReport.FillIn | app/api/daily-report/route.ts:162 | the result is truthy iff either value is; a truthy own value is kept; the result is one of the two |
| DailyReport.Backfill | app/api/daily-report/route.ts:161-166 | each pollutant is filled in from the guide, and nothing else changes |
| DailyReport.BackfillIdempotent | app/api/daily-report/route.ts:161-166 | backfilling twice is backfilling once |
| DailyReport.BackfillWithoutReadings | app/api/daily-report/route.ts:161-166 | a guide without readings leaves the reading unchanged |
| DailyReport.PostWith | app/api/daily-report/route.ts:26-181 | a body that destructuring rejects (empty, not JSON, `null`), or a service answer that is not JSON, gives the 500 error; otherwise the guide is the mapped or offline guide and the reading is backfilled from it |
| DailyReport.PostAsWritten | app/api/daily-report/route.ts:26-181 | the route with the advice mapping as written; every report's reading is exactly the air service's reading, so the backfill never acts |
| DailyReport.Post | app/api/daily-report/route.ts:26-181 | the route with the corrected advice mapping; with both services answering and healthy advice it gives a report in which each reading the air service had is kept and each it left missing or zero is taken from the advice, truthy iff either side is |
| DailyReport.AsWrittenLosesAdviceReading | app/api/daily-report/route.ts:123-166 | a failed air call plus advice with PM2.5 30: as written, no PM2.5 is shown; corrected, 30 is shown |
| DailyReport.ReportNamesAStation | app/api/daily-report/route.ts:148-157 | every report names the target station or the one the air service returned |
| DailyReport.OfflineGuideWhenAdviceFails | app/api/daily-report/route.ts:140-146 | failing advice gives the offline guide and leaves the reading untouched |
| HomePage.DateUtcValue | app/page.tsx:53-59 | a defined `Date.UTC` value is the day number in milliseconds plus the time of day |
| HomePage.DayFromYearStep | app/page.tsx:53-59 | consecutive years' first days differ by the year's length |
| HomePage.DayFromYearCounts | app/page.tsx:53-59 | ECMAScript's `DayFromYear` closed form equals the calendar's count of days since 1970 |
| HomePage.MonthStartCounts | app/page.tsx:53-59 | the month-start table equals the sum of the month lengths before it |
| HomePage.MakeDayCounts | app/page.tsx:53-59 | `MakeDay` for a month 1..12 is the calendar day number |
| HomePage.DateUtcInRange | app/page.tsx:53-59 | for years 100..9999 and fields in range, `Date.UTC` is defined and equals the millisecond formula |
| HomePage.DateUtcCounts | app/page.tsx:53-59 | for such fields, `Date.UTC(y, mo-1, d, h-9, mi)` is the calendar reading of the stamp in Korean time |
| HomePage.DateUtcTwoDigitYear | app/page.tsx:53-59 | `Date.UTC` reads a year below 100 as 1900 plus that year |
| HomePage.DateUtcMinuteStep | app/page.tsx:53-59 | one more minute gives 60000 ms more |
| HomePage.DateUtcDefined | app/page.tsx:53-60 | field values of at most four and two digits never give NaN |
| HomePage.DigitsValueBound | app/page.tsx:48 | an n-digit run reads as less than 10ⁿ |
| HomePage.KstFieldBounds | app/page.tsx:48-58 | the fields of a matching stamp lie in the ranges `Date.UTC` stays defined for |
| HomePage.ParseKstDataTimeToEpoch | app/page.tsx:46-61 | a result exists iff the input is a non-empty string matching `^\d{4}-\d{2}-\d{2}\s+\d{2}:\d{2}$` |
| HomePage.DigitChar | app/page.tsx:48 | the digit character of a value 0..9 reads back as that value |
| HomePage.PadDigits | app/page.tsx:48 | a zero-padded field of the given width reads back as its value |
| HomePage.FormatKst | app/page.tsx:48 | a stamp in the station's format is 16 characters long |
| HomePage.FormatKstFields | app/page.tsx:48-58 | a formatted stamp matches, and its fields read back as written |
| HomePage.ParseMatching | app/page.tsx:46-61 | a matching stamp parses to its fields' `Date.UTC` value |
| HomePage.ParseFormatted | app/page.tsx:51-60 | a formatted stamp parses to `Date.UTC(y, mo-1, d, h-9, mi)`, which is defined |
| HomePage.ParseCountsCalendar | app/page.tsx:51-60 | for years from 100 and months 1..12, the result is the days since 1 January 1970 in milliseconds, plus the time of day, minus nine hours |
| HomePage.ParseTwoDigitYear | app/page.tsx:51-60 | the stamp for year `00yy` parses like the one for `19yy` |
| HomePage.ParseMinuteStep | app/page.tsx:51-60 | adding one minute to the stamp adds 60000 ms to the result |
| HomePage.EpochStamp | app/page.tsx:51-60 | `1970-01-01 09:00` parses to 0 |
| HomePage.DecimalString | app/page.tsx:440-449 | the template's number is its decimal digits, with no leading zero |
| HomePage.AgeMinutes | app/page.tsx:431-434 | the age is the floor of the elapsed minutes, and 0 for a future or sub-minute measurement |
| HomePage.Freshness | app/page.tsx:420-460 | UNKNOWN iff the stamp does not parse or parses to 0, exactly when the age is absent; a refresh is needed iff DELAYED or STALE; a description exists iff a refresh is needed and starts with the age |
| HomePage.FreshnessBands | app/page.tsx:431-459 | STALE iff ≥ 90 min elapsed; DELAYED iff 60 to 90 min; FRESH iff under 60 min, a future stamp included |
| HomePage.FreshnessMonotone | app/page.tsx:420-460 | as time passes the status never improves, and UNKNOWN stays UNKNOWN |
| HomePage.EpochStampIsUnknown | app/page.tsx:420-429 | a stamp that parses to 0 is UNKNOWN and needs no refresh |
| HomePage.DecisionSignalChips | app/page.tsx:462-491 | no chips without signals; otherwise each rule chip is present iff its flag is set; the chips follow the fixed order; the final-grade chip comes last |
| HomePage.ChipsDetermineSignals | app/page.tsx:462-491 | two signal records give the same chips iff their three flags and their final grade agree |
| HomePage.ProfileBadge | app/page.tsx:387-390 | each of the four younger groups gets its own badge iff it is named exactly |
| HomePage.BadgeAgreesWithCharacter | app/page.tsx:387-390 | the badge agrees with the character age digit of `getAgeCode` |
| DataGrid.Banded | components/DataGrid.tsx:22-43 | each band holds iff the value is within that band's inclusive upper bound and above the lower bands' bounds |
| DataGrid.Pm25Status | components/DataGrid.tsx:22-27 | the badge's band equals the decision engine's PM2.5 grade; `좋음` iff ≤15, `매우나쁨` iff >75 |
| DataGrid.Pm10Status | components/DataGrid.tsx:30-35 | `좋음` iff ≤30, `보통` iff 30–80, `나쁨` iff 80–150, `매우나쁨` iff >150 |
| DataGrid.O3Status | components/DataGrid.tsx:38-43 | the badge's band equals the decision engine's ozone grade |
| DataGrid.BandedMonotone | components/DataGrid.tsx:22-43 | a larger value never gets a better band |
| DataGrid.StatusesMonotone | components/DataGrid.tsx:22-43 | all three badges are monotone |
| DataGrid.LabelDeterminesBand | components/DataGrid.tsx:22-43 | two values share a label iff they share a band |
| CharacterUtils.AsciiUpper | lib/characterUtils.ts:21 | lower-case ASCII letters go up by 32; other code points are unchanged; no lower-case letter is left |
| CharacterUtils.ToUpper | lib/characterUtils.ts:21 | the string is upper-cased code point by code point, keeping its length |
| CharacterUtils.ToUpperIdempotent | lib/characterUtils.ts:21 | upper-casing twice is upper-casing once |
| CharacterUtils.GradeCode | lib/characterUtils.ts:18-33 | A, C or D iff the upper-cased grade is GOOD, BAD or VERY_BAD; `B` otherwise, missing included |
| CharacterUtils.GradeCodeIgnoresCase | lib/characterUtils.ts:18-33 | the letter ignores case |
| CharacterUtils.GradeCodeFollowsSeverity | lib/characterUtils.ts:18-33 | the four API grades get the letters in severity order |
| CharacterUtils.AgeCode | lib/characterUtils.ts:43-60 | `1` to `4` iff the group is exactly infant, toddler, elementary_low or elementary_high; `5` otherwise |
| CharacterUtils.CharacterPath | lib/characterUtils.ts:66-70 | the path is `/Character/`, the grade letter, the age digit, then `.svg` |
| CharacterUtils.CharacterPathDecodes | lib/characterUtils.ts:66-70 | two inputs share a picture iff they share the grade letter and the age digit |
| CharacterUtils.CharacterPathExample | lib/characterUtils.ts:62-66 | (`GOOD`, `toddler`) gives `/Character/A2.svg` |
| CharacterUtils.LowerCaseGradeExample | lib/characterUtils.ts:18-70 | (`very_bad`, missing) gives `/Character/D5.svg` |
| CharacterUtils.GradeBackgroundColor | lib/characterUtils.ts:75-90 | each grade letter gets its pastel colour, and only that letter gets it |
| CharacterUtils.GradeLabel | lib/characterUtils.ts:95-110 | each grade letter gets its Korean label, and only that letter gets it |
| CharacterUtils.StylingFollowsGradeCode | lib/characterUtils.ts:75-110 | the label and the colour depend only on the grade letter |
| CharacterUtils.UnknownGradeIsModerate | lib/characterUtils.ts:75-110 | an unknown grade gets `보통` and the lemon colour |
| TextUtils.CloseFrom | miniapps/ait-webview/src/lib/textUtils.ts:14 | a closing position found holds a `**` marker at or after the start |
| TextUtils.CloseFromLeast | miniapps/ait-webview/src/lib/textUtils.ts:14 | the lazy group closes at the first marker, and no line terminator precedes it; with no close, a line terminator or the end of text comes first |
| TextUtils.MatchAt | miniapps/ait-webview/src/lib/textUtils.ts:14 | a match at a position opens and closes with `**` markers |
| TextUtils.NextMatch | miniapps/ait-webview/src/lib/textUtils.ts:19 | `exec` finds a match at or after `lastIndex` |
| TextUtils.NextMatchLeftmost | miniapps/ait-webview/src/lib/textUtils.ts:19 | the match is the leftmost, and none is found iff no position matches |
| TextUtils.MatchesValid | miniapps/ait-webview/src/lib/textUtils.ts:19-38 | the successive matches are in order and do not overlap |
| TextUtils.MatchesEmpty | miniapps/ait-webview/src/lib/textUtils.ts:19 | the loop finds nothing iff no position matches |
| TextUtils.Tail | miniapps/ait-webview/src/lib/textUtils.ts:41-43 | the remaining text is one non-empty plain piece, or nothing |
| TextUtils.ParseHighlightedText | miniapps/ait-webview/src/lib/textUtils.ts:12-46 | the result is never empty, and empty text gives `['']` |
| TextUtils.RenderCons | miniapps/ait-webview/src/lib/textUtils.ts:22-33 | writing back a piece list is its first piece's markup followed by the rest |
| TextUtils.SplitAtMarkers | miniapps/ait-webview/src/lib/textUtils.ts:14 | the text from a match is marker, group, marker, rest |
| TextUtils.RenderHighlightFirst | miniapps/ait-webview/src/lib/textUtils.ts:26-37 | a highlight piece writes back its matched text |
| TextUtils.RenderPlainFirst | miniapps/ait-webview/src/lib/textUtils.ts:21-23 | the gap before a match writes back as it was |
| TextUtils.StepRender | miniapps/ait-webview/src/lib/textUtils.ts:19-38 | one turn of the loop writes back its stretch of text |
| TextUtils.RenderAssemble | miniapps/ait-webview/src/lib/textUtils.ts:19-43 | the loop's pieces write back the text from `lastIndex` on |
| TextUtils.RenderParse | miniapps/ait-webview/src/lib/textUtils.ts:12-46 | writing the pieces back, highlights between `**` markers, reproduces the input exactly |
| TextUtils.HighlightIsClean | miniapps/ait-webview/src/lib/textUtils.ts:14 | a highlight holds no line terminator and no `**` marker |
| TextUtils.StepWellFormed | miniapps/ait-webview/src/lib/textUtils.ts:21-35 | one turn adds a clean highlight, preceded by a non-empty plain piece only |
| TextUtils.AssembleWellFormed | miniapps/ait-webview/src/lib/textUtils.ts:19-43 | the loop's plain pieces are non-empty and never adjacent, and its highlights are clean |
| TextUtils.ParseWellFormed | miniapps/ait-webview/src/lib/textUtils.ts:12-46 | for non-empty text the pieces are well formed; empty text gives `['']` |
| TextUtils.NoMarkupIsPlain | miniapps/ait-webview/src/lib/textUtils.ts:40-45 | text comes back as one plain piece iff it holds no complete `**…**` pair on one line |
| TextUtils.ParseEmptyHighlight | miniapps/ait-webview/src/lib/textUtils.ts:14 | `****` gives one empty highlight |
| TextUtils.ParseSentence | miniapps/ait-webview/src/lib/textUtils.ts:12-46 | `a **b** c` gives plain `a `, highlight `b`, plain ` c` |
| TextUtils.ParseAcrossLines | miniapps/ait-webview/src/lib/textUtils.ts:14 | a pair split by a line break is not a highlight |
| ApiBase.NormalizeBase | miniapps/ait-webview/src/lib/apiBase.ts:1-3 | a value ending in `/` is the result plus that one slash; any other value is returned unchanged |
| ApiBase.NormalizeDropsOneSlash | miniapps/ait-webview/src/lib/apiBase.ts:1-3 | only one trailing slash is dropped |
| ApiBase.GetApiBase | miniapps/ait-webview/src/lib/apiBase.ts:5-16 | a non-empty `VITE_API_BASE` gives its trimmed form without a trailing slash; failing that, the Toss origin iff the platform is TOSS, and `''` otherwise |
| ApiBase.BlankBaseIsSameOrigin | miniapps/ait-webview/src/lib/apiBase.ts:6-7 | a white-space-only `VITE_API_BASE` gives `''`, even on TOSS |
| ApiBase.JoinUrl | miniapps/ait-webview/src/lib/apiBase.ts:18-23 | with an empty base, the path; otherwise the URL starts with the base and ends with the path, with one slash added only when the path lacks one |
| ApiBase.ApiUrl | miniapps/ait-webview/src/lib/apiBase.ts:18-23 | with an empty base, the path unchanged; otherwise a URL that starts with the base |
| ApiBase.JoinUrlSplits | miniapps/ait-webview/src/lib/apiBase.ts:21-22 | the URL is the base followed by the path when the path starts with `/`, and by `/` plus the path otherwise |
| UserStore.Apply | store/useUserStore.ts:60-62 | `setLocation` replaces only the location; `setProfile` stores the profile and sets onboarded; `resetProfile` clears both; the location stays |
| UserStore.RunAppend | store/useUserStore.ts:60-62 | running actions then one more is applying it to the result |
| UserStore.ApplyConsistent | store/useUserStore.ts:58-62 | every action keeps the onboarded flag equal to whether a profile is stored |
| UserStore.RunConsistent | store/useUserStore.ts:58-62 | any action sequence keeps that invariant |
| UserStore.ReachableConsistent | store/useUserStore.ts:53-62 | from the initial state, the user is onboarded iff a profile is stored |
| UserStore.LastLocation | store/useUserStore.ts:60 | a last location exists iff some action set one |
| UserStore.LastProfile | store/useUserStore.ts:61-62 | a last profile action exists iff some action was not `setLocation` |
| UserStore.RunLocation | store/useUserStore.ts:53-60 | the location is the last one set, or the starting one |
| UserStore.RunProfile | store/useUserStore.ts:58-62 | the profile is the one the last profile action left, or the starting one |
| UserStore.ApplyIdempotent | store/useUserStore.ts:60-62 | repeating an action changes nothing more |
| UserStore.LocationCommutesWithProfile | store/useUserStore.ts:60-62 | a location change and a profile action commute |
| UserStore.GetItem | store/useUserStore.ts:7 | a value exists iff the name is stored, and it is the stored one |
| UserStore.SetItem | store/useUserStore.ts:8-10 | the name reads back the value; every other name reads as before |
| UserStore.RemoveItem | store/useUserStore.ts:11-13 | the name reads as null; every other name reads as before; removing a missing name changes nothing |
| UserStore.SetThenRemove | store/useUserStore.ts:8-13 | setting then removing a name is removing it alone |
| UserStore.ReadsDetermineStorage | store/useUserStore.ts:4-15 | storages that read alike for every name are equal |

## Left out

- I/O: every `fetch`, the `console` logging, and the CORS headers. The
  upstream answers are function parameters. `Promise.allSettled` is
  modelled by taking both answers as given: a rejected promise is `Fail`.
- The clock: `getSeoulHour`, `new Date()` and `Date.now()` are parameters.
  `updatedAt` is an opaque string.
- IEEE floating point: readings are exact reals. NaN is folded into `None`,
  because JSON cannot carry NaN. `Number(...)` on a non-numeric field is
  not modelled.
- React rendering, hooks, memoisation, the data polling and the abort and
  timeout logic of the home page. Only the pure helpers are modelled.
- The zustand `persist` wrapper and `getSafeStorage`, which probes the
  browser's storage. Both are persistence plumbing.
- Keys of `Object.prototype`: in `memoryStorage`, `name in store` also sees
  inherited keys such as `toString`. The model treats the record as a plain
  map, because the store only uses its own key `epilog-storage`.
- `setProfile(null)`: a caller ignoring the TypeScript type could set
  onboarded with a null profile. `UserStore.Apply` takes a profile, as the
  type demands.
- `toUpperCase` outside ASCII is not modelled. The few non-ASCII characters
  that upper-case to ASCII letters (`ı`, `ſ`, ligatures) cannot form GOOD,
  NORMAL, BAD or VERY_BAD, so the grade letters are unaffected.
- The colour tables (`lib/colorUtils.ts` and its mini-app copy), analytics,
  configuration, the reverse-geocoding route and the MongoDB logging.
- `hourOverride ?? getSeoulHour()`: the hour is always the `hour`
  parameter.
- DataGrid.Pm25Status: states the grade agreement and the two outer labels;
  the inner labels follow from `DataGrid.Banded`.
- ApiBase.ApiUrl: states only the prefix; the exact join is stated on
  `ApiBase.JoinUrl` and `ApiBase.JoinUrlSplits`.
- HomePage.ParseKstDataTimeToEpoch: states when a result exists; its value
  is stated by `HomePage.ParseMatching`, `HomePage.ParseFormatted` and
  `HomePage.ParseCountsCalendar`, for stamps in the canonical format.
- HomePage.ParseCountsCalendar: the calendar reading is proved for years
  100 to 9999. Years 0 to 99 are covered by `HomePage.ParseTwoDigitYear`.
- Strings: a character outside the Basic Multilingual Plane, such as an
  emoji in a badge, is one `char` here and two UTF-16 code units in the
  source, so string lengths differ for such text. No contract states such
  a length.
- AirQualityLatest.GradeScore: a grade text naming an inherited
  `Object.prototype` key (`toString`, `valueOf`, `constructor`,
  `__proto__` and the like) makes `gradeMap[text] || 2` that inherited
  value, `Math.max` then gives NaN and the source grades the reading
  `GOOD`. The model counts such text as 2. `DailyReport.TransformAir` and
  `AirQualityLatest.ToViewAirData` inherit this. Modelling it would need a
  NaN grade in both routes, and an air service sends only the four grade
  texts.

## Findings

| source | as written | input that shows it | evidently intended | confidence | as-written member | corrected member |
|---|---|---|---|---|---|---|
| app/api/daily-report/route.ts:123-166 | The healthy advice is rebuilt without its `pm25_value`, `o3_value`, `pm10_value` and `no2_value`, so the later backfill `if (!airData.pm25_value && aiData.pm25_value)` can never fire. | The air service fails and the advice answers `{decision: "외출 가능", reason: "공기가 보통이에요", pm25_value: 30}`: the report shows no PM2.5 reading. | The comment at lines 159-160 says the advice's numeric values should fill in readings the air service lacks, so the mapping should carry them. | not executed | DailyReport.MapAdviceAsWritten (with DailyReport.PostAsWritten, DailyReport.AsWrittenLosesAdviceReading) | DailyReport.MapAdvice (with DailyReport.Post) |
