# helsi core in Dafny

helsi is a small wellness app. A user finishes an onboarding survey and
gets an avatar. After that they log their day in five categories: food,
sleep, mood, stress and supplements. Each log earns XP and extends a daily
streak. The app then shows the avatar's mood, an insight line, an insights
dashboard (recovery, strain, sleep score, trends, recommendations) and a
leaderboard. A medical-document side feature classifies uploaded files and
extracts biomarkers, medications and diagnoses from their text. It checks
the record's shape and composes a health-insight text from the latest
processed document and the recent logs.

This project models that core as pure Dafny functions over immutable
values and proves its properties:

- `records.dfy`: the user, the log and the survey answers.
- `storage.dfy`: the local store, a user key and a logs key.
- `gamification.dfy`: XP, streaks, avatar mood, the insight line, confidence and the leaderboard.
- `dashboard.dfy`: the insights page's arithmetic.
- `logging_form.dfy` and `survey.dfy`: the log form and the onboarding survey as state machines.
- `session.dfy`: the home page's handlers as transitions of the whole app.
- `medical_data.dfy`: file types and the choice of simulated report.
- `extraction.dfy`: the local text extractor.
- `validation.dfy`: the record's shape check and the demo-mode key rule.
- `composer.dfy`: the insight text and the choice of the latest document.
- Supporting modules:
  - `wrappers.dfy`: `Option` and `Result`.
  - `text.dfy`: strings and decimal numerals.
  - `seqs.dfy`: counting and filtering.
  - `numbers.dfy`: the exact decimals that stand in for JavaScript numbers, `parseFloat` and number-to-string.

The models take several things as parameters:

- The clock: every handler receives one `now`.
- The local calendar day: a `Calendar` function that stands in for `Date.toDateString()`.
- Generated ids.
- The language model's answer: an `Option` of parsed JSON. `None` means no answer.
- The regular-expression matches the extractor works on.

## Model

| member | source | states |
|---|---|---|
| Records.HasNegativeData | src/pages/Index.tsx:73 | A bad-day entry is never blank: at least one category is filled. |
| Records.FilledCount | src/components/LoggingModal.tsx:95 | The number of filled categories is at most five. It is five exactly when the log is complete and zero exactly when the form is blank. |
| Storage.EmptyStoreReads | src/lib/storage.ts:36-64 | With neither key present, the store reads as no user and no logs. |
| Storage.SaveUser | src/lib/storage.ts:41-43 | `getUser` afterwards reads back exactly the saved record. The logs are untouched. |
| Storage.CreateUser | src/lib/storage.ts:45-58 | The new profile becomes the current user. It has the given id, answers and avatar, the name "You", zero XP, zero streak, no last log and creation time `now`. The logs are untouched. |
| Storage.AddLog | src/lib/storage.ts:70-86 | Fails exactly when there is no user. Otherwise exactly one log is appended, owned by the current user, stamped `now` and carrying the entries, and the user is unchanged. |
| Storage.SeedDemoData | src/lib/storage.ts:89-118 | A demo user with a 7-day streak, 210 XP and last log `now`. Seven complete logs, one day apart, end at `now` and are all owned by the demo user. |
| Storage.ResetDemo | src/lib/storage.ts:120-123 | Afterwards there is no user and no log. |
| Storage.Rename | src/pages/Settings.tsx:14-19 | Fails exactly when there is no user. A blank name changes nothing. Otherwise only the name changes, to the trimmed text. Logs are never touched. |
| Storage.StoreOperationsKeepInv | src/lib/storage.ts:45-123 | Every store operation keeps the store consistent: every log is owned by the current user, XP is not negative, and a recorded last log means a streak of at least one. |
| Gamification.CalculateXPGain | src/lib/gamification.ts:16-27 | The base is 10. A bonus of 20 is paid exactly for a complete log, so the total is 30 or 10. The reason text names which. |
| Gamification.AddXP | src/lib/gamification.ts:80-86 | Fails exactly when there is no user. Otherwise the user's XP grows by exactly the amount and nothing else changes. |
| Gamification.DaysBetween | src/lib/gamification.ts:53 | The elapsed time in whole days, rounded down. |
| Gamification.UpdateStreak | src/lib/gamification.ts:29-78 | Every case of the streak rule. The first log starts at 1. The same calendar day keeps the streak. The next day adds one. A longer gap restarts at 1 and reports the streak as broken. A different calendar day less than 24 hours later changes nothing. Only the streak and the last-log date can change. |
| Gamification.StreakRepeatIsIdempotent | src/lib/gamification.ts:29-78 | Updating again at the same instant, or later on the same calendar day, leaves the store as it is and reports the same streak, not broken. |
| Gamification.StreakIgnoresOtherFields | src/lib/gamification.ts:29-78 | The streak result depends only on the user's streak and last-log date. |
| Gamification.StreakKeepsUserInv | src/lib/gamification.ts:29-78 | Updating the streak keeps the store consistent, and the resulting streak is at least one. |
| Gamification.MoodOf | src/lib/gamification.ts:103-127 | Each of the five moods holds exactly under its own conditions on the last log, tried in the source's order. |
| Gamification.AvatarState | src/lib/gamification.ts:88-133 | Without logs the avatar is neutral. Otherwise its mood is that of the last log. |
| Gamification.AvatarDependsOnlyOnLastLog | src/lib/gamification.ts:96-101 | Two histories with the same last log show the same avatar. |
| Gamification.HappyAndRestedIsEnergized | src/lib/gamification.ts:107-111 | Good sleep and a happy mood always give the energized avatar, whatever the other categories say. |
| Gamification.GenerateInsight | src/lib/gamification.ts:135-173 | Fewer than two logs give the keep-logging message. The result is always one of the fixed messages. A generic message is the one the number of logs selects, modulo the number of generic messages. |
| Gamification.InsightChoice | src/lib/gamification.ts:149-172 | Each pattern message is given exactly when its rule holds and no earlier rule does. A generic message is given exactly when none of the four rules holds, and it is the one the count selects, modulo the number of generic messages. |
| Gamification.InsightPrecedence | src/lib/gamification.ts:143-172 | The insight is decided by the four rules over the last three logs, tried in the source's order, before the generic messages. |
| Gamification.ConfidenceLevel | src/lib/gamification.ts:175-182 | Low below 3 logs, with the number of logs still needed. Medium from 3 to 7. High from 8 on. |
| Gamification.ConfidenceMonotone | src/lib/gamification.ts:175-182 | More logs never lower the confidence. |
| Gamification.DaysLogged | src/lib/gamification.ts:198 | The set of calendar days holds every log's day and no other, and is no larger than the number of logs. |
| Gamification.UserEntry | src/lib/gamification.ts:199-208 | The user's row is named "You" and carries the user's id, XP, streak and avatar. Its consistency is the number of days logged plus half the number of complete logs. |
| Gamification.Insert | src/lib/gamification.ts:238-240 | Adds exactly the new entry, and keeps a list sorted by non-increasing consistency sorted. |
| Gamification.SortByConsistency | src/lib/gamification.ts:238-240 | The result is a permutation of the entries, ordered by non-increasing consistency. |
| Gamification.Leaderboard | src/lib/gamification.ts:193-241 | Empty without a user. Otherwise exactly the user's row and the three fixed friends' rows, sorted by non-increasing consistency, with the user ahead of every friend with the same score. |
| Gamification.FirstEntryAheadOfTies | src/lib/gamification.ts:238-240 | The user's row is placed ahead of every friend with the same consistency. |
| Gamification.SeedMatchesXPRules | src/lib/storage.ts:95-116 | The demo profile's 210 XP is what seven perfect logs earn under the XP rules. |
| Dashboard.Window | src/pages/Insights.tsx:25-28 | At most the last seven logs, in order. |
| Dashboard.TallyOf | src/pages/Insights.tsx:25-35 | Every category count lies between zero and the window size. |
| Dashboard.RoundedPercent | src/pages/Insights.tsx:30-38 | A count out of a window becomes a whole percentage between 0 and 100, within half a point of the exact ratio. |
| Dashboard.NearestPercent | src/pages/Insights.tsx:30-38 | The rounded percentage is the nearest whole number, with halves rounded up as `Math.round` does. |
| Dashboard.Strain | src/pages/Insights.tsx:33-35 | Strain lies between 0 and 21. Below the cap it is within half a point of the weighted load of high-stress days and poor nights. It is capped at 21 only when the load reaches 20.5. |
| Dashboard.StrainMonotone | src/pages/Insights.tsx:33-35 | More high-stress days never lower the strain. |
| Dashboard.TrendKinds | src/pages/Insights.tsx:43-79 | Each trend appears exactly when its threshold is crossed, in the page's order. |
| Dashboard.Trends | src/pages/Insights.tsx:43-79 | The trend cards follow the detected trend kinds one for one, each with its value. |
| Dashboard.RecommendationPriorities | src/pages/Insights.tsx:84-106 | Each recommendation appears exactly when its threshold is crossed, in the page's order. |
| Dashboard.RecommendationFor | src/pages/Insights.tsx:84-106 | Each priority has its own recommendation card, which carries that priority. |
| Dashboard.Recommendations | src/pages/Insights.tsx:84-106 | The recommendation cards follow the priorities one for one. |
| Dashboard.MetricsOf | src/pages/Insights.tsx:25-108 | The metrics are computed from the window's tally. |
| Dashboard.Insights | src/pages/Insights.tsx:13-109 | Fewer than two logs give no metrics. Otherwise the metrics are those of the last seven logs. |
| Dashboard.InsightsBounds | src/pages/Insights.tsx:25-106 | Recovery and sleep score always lie between 0 and 100 and strain between 0 and 21. There are at most three trends and three recommendations. |
| Dashboard.OlderLogsIgnored | src/pages/Insights.tsx:25-28 | Logs older than the last seven do not change the dashboard. |
| Dashboard.PerfectDaysTally | src/pages/Insights.tsx:25-35 | A window of perfect days counts every category in every log. |
| Dashboard.PerfectDaysScore | src/pages/Insights.tsx:25-106 | Seven perfect days give recovery 100, sleep score 100 and strain 0. They show three trends and only the optimal-recovery recommendation. |
| Dashboard.PerfectWeek | src/pages/Insights.tsx:13-109 | The seeded demo week shows recovery 100, sleep score 100, strain 0, three trends and only the optimal-recovery recommendation. |
| LoggingForm.Select | src/components/LoggingModal.tsx:74-76 | The clicked option becomes its category's value. Every other category keeps its value. |
| LoggingForm.ReselectReplaces | src/components/LoggingModal.tsx:74-76 | A second click in the same category overrides the first. |
| LoggingForm.SelectionsCommute | src/components/LoggingModal.tsx:74-76 | Clicks in different categories give the same form in either order. |
| LoggingForm.CanSubmit | src/components/LoggingModal.tsx:95-96 | Submission is allowed exactly when some category is filled. |
| LoggingForm.SelectEnablesSubmit | src/components/LoggingModal.tsx:74-96 | After any click the form can be submitted. |
| LoggingForm.SubmitLabel | src/components/LoggingModal.tsx:177-183 | The bonus label shows exactly for a complete form. The request to select shows exactly for a blank one. |
| LoggingForm.LabelAgreesWithXP | src/components/LoggingModal.tsx:177-181 | The button promises the bonus exactly when the XP rules pay it, and the XP it shows is the XP that will be awarded. |
| LoggingForm.Submit | src/components/LoggingModal.tsx:78-92 | A blank form submits nothing. Otherwise the form is handed on as filled in and then cleared. |
| Survey.Without | src/components/OnboardingSurvey.tsx:76 | Every occurrence of the value is removed. All other values are kept. |
| Survey.Toggle | src/components/OnboardingSurvey.tsx:73-78 | An absent option is appended at the end. A present one is removed, and the other options are kept. |
| Survey.WithoutAppend | src/components/OnboardingSurvey.tsx:73-78 | Removing a value that was just appended gives back the original list. |
| Survey.ToggleTwiceRestores | src/components/OnboardingSurvey.tsx:73-78 | Clicking an unselected option twice restores the list. |
| Survey.WithoutKeepsNoDuplicates | src/components/OnboardingSurvey.tsx:76 | Removal never introduces a duplicate. |
| Survey.ToggleKeepsNoDuplicates | src/components/OnboardingSurvey.tsx:73-78 | Toggling never introduces a duplicate. |
| Survey.Answer | src/components/OnboardingSurvey.tsx:70-90 | A multiple-choice question toggles its list. A single-choice question stores the value. No other answer, the step and the avatar change. |
| Survey.Next | src/components/OnboardingSurvey.tsx:92-98 | Moves on one question, or to the avatar screen after the last one, and never beyond it. |
| Survey.ChooseAvatar | src/components/OnboardingSurvey.tsx:197 | Only the avatar changes. |
| Survey.Run | src/components/OnboardingSurvey.tsx:18-98 | From the start, any sequence of clicks keeps the step within the survey and both lists free of duplicates. |
| Session.Open | src/pages/Index.tsx:34-43 | The survey is shown exactly when no user is stored. |
| Session.SurveyComplete | src/pages/Index.tsx:51-59 | A fresh user is created with the survey's answers and the chosen avatar, and the survey is closed. The logs are untouched. |
| Session.XPToast | src/pages/Index.tsx:75-93 | The celebration title appears exactly when the bonus was earned. A description appears exactly for the bonus or for a bad-day entry. |
| Session.StreakToast | src/pages/Index.tsx:95-97 | The streak toast appears exactly for an unbroken streak longer than one day. |
| Session.LogSubmit | src/pages/Index.tsx:61-98 | Fails exactly when there is no user. Otherwise one log carrying the entries is appended under the user's id, with the gain the XP rules give. |
| Session.LogSubmitCredits | src/pages/Index.tsx:62-65 | The user gains exactly the computed XP. The streak moves as it would have moved before the log was added. No other field of the user changes. |
| Session.LogSubmitShows | src/pages/Index.tsx:66-97 | The page shows the new log's mood, the insight of the new history, and the toasts of this gain and streak. |
| Session.SeedDemo | src/pages/Index.tsx:100-107 | The demo week replaces the store: the demo user and its seven logs. Whether the survey shows is untouched. |
| Session.Reset | src/pages/Index.tsx:109-114 | The store is emptied and the survey is shown again. |
| Session.HandlersKeepAppInv | src/pages/Index.tsx:34-114 | Opening, finishing the survey and resetting keep the app consistent: a consistent store, with the survey shown exactly when there is no user. |
| Session.SeedKeepsAppInv | src/pages/Index.tsx:100-107 | Seeding keeps the app consistent. |
| Session.SubmitKeepsAppInv | src/pages/Index.tsx:61-98 | Submitting a log keeps the app consistent. |
| Session.FirstPerfectDay | src/pages/Index.tsx:51-98 | A new user who logs a perfect day has 30 XP, a one-day streak, no streak toast and an energized avatar. |
| Session.SubmitWithoutUserFails | src/lib/storage.ts:70-72 | Without a user, submission fails with the no-user error. |
| Text.ParseNatToString | src/pages/Index.tsx:77 | Reading back a printed whole number gives the number. |
| Text.ContainsIffOccurs | src/lib/medicalService.ts:33 | `includes` holds exactly when the needle occurs at some position. |
| Text.ToLowerIdempotent | src/lib/medicalService.ts:27 | Lower-casing twice is the same as lower-casing once. |
| Numbers.ParseFloat | src/lib/medicalService.ts:258 | The result is NaN exactly when no numeral follows the leading whitespace. |
| Numbers.ParseRender | src/lib/medicalService.ts:257-269 | Reading back a printed number gives its value. |
| Numbers.RenderInjective | src/lib/medicalService.ts:261 | Different values print differently. |
| MedicalData.FileTypeOf | src/lib/medicalService.ts:151-152 | An image exactly for an `image/` MIME prefix. A PDF exactly for `application/pdf`. A lab report for anything else. |
| MedicalData.FileTypeExamples | src/lib/medicalService.ts:151-152 | Any `image/` type is an image, `application/pdf` is a PDF, and an empty type is a lab report. |
| MedicalData.ClassifyScenario | src/lib/medicalService.ts:27-41 | The first keyword group found in the lower-cased name decides the report. With no keyword, the general report is used. |
| MedicalData.ClassifyIgnoresCase | src/lib/medicalService.ts:27 | A name and its lower-cased form get the same report. |
| MedicalData.EarlierGroupWins | src/lib/medicalService.ts:33-41 | A name containing "blood" is a lab report, whatever else it says. |
| Extraction.Split | src/lib/medicalService.ts:268-269 | Splitting gives at least one piece, and no piece contains the separator. |
| Extraction.SplitNone | src/lib/medicalService.ts:268-269 | Text without the separator splits into itself. |
| Extraction.SplitOnce | src/lib/medicalService.ts:268-269 | Text with one separator splits into the parts before and after it. |
| Extraction.LowerBound | src/lib/medicalService.ts:268 | A range without a dash is read whole as its lower bound. |
| Extraction.UpperBound | src/lib/medicalService.ts:269 | A range with neither a dash nor a "<" has no upper bound: it reads as NaN. |
| Extraction.StatusOf | src/lib/medicalService.ts:268-269 | NaN is normal. Low means below the first number of the range. High means above the second. |
| Extraction.BoundsReadBack | src/lib/medicalService.ts:261-269 | The range's text reads back as the bounds it was written from. |
| Extraction.StatusRule | src/lib/medicalService.ts:268-269 | For a range written from its bounds, low holds exactly for a value below a lower bound. High holds exactly for a value that is not low and lies above the upper bound. |
| Extraction.ReferenceRangesWritten | src/lib/medicalService.ts:259-261 | Every reference range in the table is written from its bounds. |
| Extraction.BiomarkerAt | src/lib/medicalService.ts:259-270 | The entry carries the table's name, unit and range and the judged value. |
| Extraction.BiomarkerStatus | src/lib/medicalService.ts:259-270 | For each table entry, low, high and normal hold exactly when the value lies below, above or within its bounds. |
| Extraction.Readings | src/lib/medicalService.ts:255-257 | Exactly one reading for each pattern that matched, in table order. |
| Extraction.Biomarkers | src/lib/medicalService.ts:255-272 | One biomarker per reading, each judged against its own table entry. |
| Extraction.MatchedValueAsWritten | src/lib/medicalService.ts:258 | As written, the value read from whole matches that start with a letter is NaN. |
| Extraction.ValuesAsWritten | src/lib/medicalService.ts:255-258 | There is a value exactly for each pattern with a match. As written it is NaN whenever the matches start with letters. |
| Extraction.AsWrittenValuesAreNaN | src/lib/medicalService.ts:256-269 | As written, every extracted value is NaN and every status is normal. |
| Extraction.SingleMatchReadsNaN | src/lib/medicalService.ts:256-258 | As written, a single match gives NaN. |
| Extraction.VitaminDDeficiencyMissed | src/lib/medicalService.ts:250-269 | As written, a vitamin D reading below 30 is reported as normal. |
| Extraction.CapturedValues | src/lib/medicalService.ts:258 | Corrected, there is a value exactly for each pattern that captured a number. |
| Extraction.CapturedValueJudged | src/lib/medicalService.ts:258-269 | Corrected, a single captured number reads back as the value that was written, and gives one biomarker judged against its own range. |
| Extraction.VitaminDDeficiencyCaught | src/lib/medicalService.ts:250-269 | Corrected, a vitamin D reading below 30 is reported as low. |
| Extraction.Medications | src/lib/medicalService.ts:275-294 | Every pattern that matched gives its medication with its dosage, frequency "Daily" and reason "As prescribed by doctor". Every entry is the record of a pattern that matched, carrying that pattern's dosage, so no other medication appears. Entries follow the pattern order. |
| Extraction.MedicationAdviceIffMatched | src/lib/medicalService.ts:281-294 | The advice to keep taking medications appears exactly when some medication pattern matched. |
| Extraction.DiagnosesAsWritten | src/lib/medicalService.ts:297-312 | As written, the k-th label is listed exactly when the k-th pattern matched. The generic pattern therefore takes the first label and the last pattern none. No label is listed twice, and no other appears. |
| Extraction.DiagnosisLabelsShifted | src/lib/medicalService.ts:297-312 | As written, a report mentioning only a vitamin D deficiency is recorded as hypercholesterolemia, and one mentioning only diabetes records nothing. The corrected rule records each under its own label. |
| Extraction.Diagnoses | src/lib/medicalService.ts:297-312 | Corrected, each condition's label is listed exactly when its own pattern matched. No label is listed twice, and no other label appears. |
| Extraction.Recommendations | src/lib/medicalService.ts:315-327 | The two vitamin D lines appear exactly for a low vitamin D reading. The two cholesterol lines appear exactly for a high cholesterol reading. The medication line appears exactly when medications were found. Nothing else appears, and the order is fixed. |
| Extraction.SummaryText | src/lib/medicalService.ts:331 | The summary opens with the number of biomarkers and ends with " diagnoses.". |
| Extraction.SummaryDeterminesCounts | src/lib/medicalService.ts:331 | The three counts read back from the summary text. |
| Extraction.LocalExtraction | src/lib/medicalService.ts:255-337 | The record has document type "medical_document" and a summary stating its three counts. Its biomarkers are those the read values give, its medications those of the matched patterns, and its diagnoses the labels as written. Its recommendations are those its biomarkers and medications call for. |
| Extraction.AsWrittenAdviceMissing | src/lib/medicalService.ts:256-323 | As written, when every match starts with a letter (as every match of these patterns does), neither the vitamin D advice nor the cholesterol advice ever appears. |
| Validation.ValidateMedicalData | src/lib/openai.ts:142-152 | Valid exactly for an object whose document type is a string and whose four list fields are arrays. |
| Validation.Encode | src/lib/medicalService.ts:329-337 | The JSON object has exactly the record's fields, with lists of the record's lengths. |
| Validation.EncodedRecordsValid | src/lib/medicalService.ts:171-174 | Every well-typed record passes the check. |
| Validation.NonObjectsRejected | src/lib/openai.ts:144-145 | Anything that is not an object fails. |
| Validation.NonStringTypeRejected | src/lib/openai.ts:146 | A document type that is present but not a string fails. |
| Validation.MissingListRejected | src/lib/openai.ts:147-150 | An object missing one list field fails. |
| Validation.EmptyListsAccepted | src/lib/openai.ts:142-152 | Empty lists pass. Only the shape is checked. |
| Validation.OnlyShapeInspected | src/lib/openai.ts:142-152 | Changing an unchecked field, or one list for another, does not change the verdict. |
| Validation.ClientEnabled | src/lib/openai.ts:7-12 | A client exists only for a present, non-empty key that is not the placeholder. |
| Validation.DemoModeKeys | src/lib/openai.ts:7-12 | No key, an empty key and the placeholder all mean demo mode. A real key turns the client on. |
| Validation.ExtractionOutcome | src/lib/medicalService.ts:166-177 | Without a client or an answer, the local extraction is used. A valid answer from a configured client is used as it is. A result is always valid. The step fails exactly for an invalid remote answer. |
| Composer.Sections | src/lib/medicalService.ts:341-413 | At least one section. The processed-only fallback appears only alone. |
| Composer.SectionsOrdered | src/lib/medicalService.ts:341-413 | The sections keep the source's order. |
| Composer.SectionsPresent | src/lib/medicalService.ts:344-408 | Each candidate section appears exactly when it has something to say. Nothing but candidates and the fallback appears. |
| Composer.LifestyleNeedsLogs | src/lib/medicalService.ts:383-398 | The lifestyle section has something to say exactly when there are logs and, among the last seven, a supplement day or a good-sleep day. |
| Composer.SilentCandidates | src/lib/medicalService.ts:344-408 | There is nothing to say exactly when no candidate section has something to say. |
| Composer.FallbackIffNothing | src/lib/medicalService.ts:411-413 | The fallback appears exactly when no candidate has something to say, and then it is the only section. |
| Composer.FallbackAlone | src/lib/medicalService.ts:409-413 | The fallback text is then the whole insight. |
| Composer.OlderLogsIgnored | src/lib/medicalService.ts:383-384 | Only the last seven logs influence the insight. |
| Composer.LifestyleWording | src/lib/medicalService.ts:383-398 | Without supplement days, the lifestyle section reports the number of good-sleep days in its fixed wording. |
| Composer.TrimAround | src/lib/medicalService.ts:388-395 | A heading and a line that start and end with visible characters are unchanged by the trim, apart from the final newline being removed. |
| Composer.TrimOneNewline | src/lib/medicalService.ts:359-405 | The trim removes the final newline from text that starts and ends with visible characters, and keeps the rest. |
| Composer.MarkerLine | src/lib/medicalService.ts:357 | A marker's line starts with its name and reading, then shows its unit and its status in capitals in parentheses, and ends with `)` and a newline. |
| Composer.MedicationLine | src/lib/medicalService.ts:371 | A medication's line starts with its name. The dosage follows in parentheses when there is one, and the frequency after a dash when there is one. With neither, the line is the name alone. |
| Composer.LifestyleText | src/lib/medicalService.ts:388-395 | With supplement days or good-sleep days, the section opens with its heading. With supplement days, their count follows the heading directly. With good-sleep days, their count appears. |
| Composer.SectionText | src/lib/medicalService.ts:345-405 | Each section opens with its heading. The out-of-range and medication sections state how many entries they list, and the normal section its count. Every diagnosis appears. The recommendations open with "Based on your document:". |
| Composer.AnalysisText | src/lib/medicalService.ts:345-347 | The summary section opens with its heading and contains the summary. |
| Composer.OutOfRangeText | src/lib/medicalService.ts:354-359 | The section opens with the number of out-of-range markers. Every marker's line appears, without its newline, despite the trim. |
| Composer.NormalText | src/lib/medicalService.ts:362-364 | The section opens with the number of markers in range. |
| Composer.MedicationsText | src/lib/medicalService.ts:368-374 | The section opens with the number of medications. Every medication's line that ends with a visible character appears, without its newline, despite the trim. |
| Composer.DiagnosesText | src/lib/medicalService.ts:377-379 | The section opens with its heading, and every diagnosis appears. |
| Composer.AdviceText | src/lib/medicalService.ts:400-406 | The section opens with "Based on your document:". Every recommendation that ends with a visible character appears after a bullet. |
| Composer.SectionListsEntries | src/lib/medicalService.ts:354-406 | In a section's text, every out-of-range marker's line appears. So does every medication line and every bulleted recommendation that ends visibly. A lifestyle section with a count opens with its heading. |
| Composer.ListedLinesKept | src/lib/medicalService.ts:355-359 | Under an opening that starts visibly, every listed line that ends visibly survives the trim of the whole text. |
| Composer.LinesSplit | src/lib/medicalService.ts:356-358 | The lines appended one per entry split around any one entry's line. |
| Composer.InsightFromDocument | src/lib/medicalService.ts:341-413 | The insight opens with the first section's text and contains every section's text. Consecutive sections appear in order, separated by a blank line. |
| Composer.OutOfRangeReported | src/lib/medicalService.ts:350-359 | When some biomarker is out of range, the insight states how many are. |
| Composer.DiagnosesReported | src/lib/medicalService.ts:377-378 | Every diagnosis in the document appears in the insight. |
| Text.JoinContainsParts | src/lib/medicalService.ts:413 | Each part of a join occurs in it, and the first part opens it. |
| Text.JoinAdjacent | src/lib/medicalService.ts:413 | Neighbouring parts occur in the join with the separator between them. |
| Text.TrimKeepsPrefix | src/lib/medicalService.ts:359 | Trimming keeps a prefix that starts and ends with visible characters. |
| Composer.LatestFrom | src/lib/medicalService.ts:212-223 | None exactly when no document is completed. Otherwise the pick is a completed document uploaded no earlier than any other, and strictly later than every completed document before it. |
| Composer.Latest | src/lib/medicalService.ts:212-223 | None exactly when no document is completed. Otherwise the latest completed one. |
| Composer.TiesGoToFirst | src/lib/medicalService.ts:217-223 | Among documents uploaded at the same time, the earliest in the list is picked. |
| Composer.MedicalInsights | src/lib/medicalService.ts:206-231 | No documents ask for an upload. With no completed document, or a latest one without data, processing is reported. Otherwise the remote text is shown, or when there is none, the composed insight for the latest document. |

## Left out

- Regular expressions are not modelled. The extractor takes each pattern's matches (whole matches and capture groups) as inputs, and the model states what it does with them.
- The language model's request, prompt and JSON parsing are left out. Its answer is a parameter: `None` when it is unavailable or throws, otherwise the parsed value.
- Reading text from files (OCR, PDF text) and the simulated report texts are left out. Only the choice of scenario is modelled.
- The asynchronous orchestration is left out. So are progress callbacks and the medical document store (`getMedicalDocuments`, `addMedicalDocument`, `updateMedicalDocument`). That store is imported from `src/lib/storage.ts` but not defined there, and is not part of this model. The documents are a plain list given to the model.
- The survey's automatic advance after a single-choice answer uses a timer (src/components/OnboardingSurvey.tsx:82-88). It has no event of its own. A run stands for it by a `NextPressed` right after the click, which is a `Next` taken at the click's step.
- The timer's callback sets the step from the step it captured at the click, not from the current one. So two single-choice clicks within 200 ms, or a click followed by Continue within 200 ms, advance the survey only once. This collapse is not modelled: in a run, each `NextPressed` advances by one.
- The welcome, seed and reset toasts and the confetti have no effect on state and are left out.
- JavaScript numbers are modelled as exact decimals. Binary floating-point rounding and exponent notation in number-to-string are not modelled.
- Numbers.ParseFloat reads only [sign] digits [. digits]. JavaScript `parseFloat` also reads an exponent ("1e3" is 1000, the model gives 1) and `Infinity` (the model gives NaN). No input of the core reaches either: the range pieces are the fixed texts of src/lib/medicalService.ts:261, and every matched text starts with a pattern's name (src/lib/medicalService.ts:248-252).
- Lower-casing covers ASCII letters only. Unicode case folding is not modelled.
- Each handler takes a single `now`. The source reads the clock several times within one handler, milliseconds apart.
- Invalid dates are not modelled. Neither are `localStorage` failures or malformed stored JSON.
- The store's user record declares the survey answers in one shape, while the survey produces another. Both are kept as alternatives of one datatype.
- The section headings in `src/lib/medicalService.ts` carry mis-encoded emoji. They are reproduced character for character.
- The outer `catch` of `generateMedicalInsights` (src/lib/medicalService.ts:233-236) is left out. It is reachable only through a thrown error, and nothing in the model throws. The composer's typed input rules out the records that would throw there: a stored record such as `biomarkers: [{}]` makes `marker.status.toUpperCase()` at src/lib/medicalService.ts:357 throw into that `catch`.
- Extraction.Medications: the names are the fixed ones of the table, but the dosage text is an input per pattern. The rule at src/lib/medicalService.ts:285 that builds it is not modelled. That rule has the same global-flag defect as the biomarker values: `matches[1]` is a second whole match, not the captured number. So a single mention gets "As prescribed", and "Metformin 500 mg" mentioned twice gets "Metformin 500 mg mg". An empty dosage or frequency stands for a missing one, as both are falsy in the source.
- Extraction.Diagnoses: the corrected definition is proved but not used by Extraction.LocalExtraction, which follows the labelling as written. It lists the specific conditions only. It drops the generic first pattern, whose label under the intended reading is the matched text itself, which is not modelled.

## Findings

| source | as written | input that shows it | evidently intended | confidence | as-written member | corrected member |
|---|---|---|---|---|---|---|
| src/lib/medicalService.ts:256-258 | The pattern has the global flag, so `text.match` returns the whole matches. `matches[1]` is then a second whole match or `undefined`, and `parseFloat` of it is NaN. The status is therefore always normal. | A report containing "Vitamin D: 22 ng/mL" | The value is the captured number (22), judged low against 30-100 | not executed | Extraction.VitaminDDeficiencyMissed, Extraction.AsWrittenValuesAreNaN, Extraction.AsWrittenAdviceMissing | Extraction.VitaminDDeficiencyCaught, Extraction.CapturedValueJudged |
| src/lib/medicalService.ts:304-311 | Each pattern's label is picked by its own index, but the first pattern is the generic one. So the generic pattern gets the first condition's label, each condition gets the label of the next one, and the last condition gets none. | A report mentioning only "vitamin D deficiency" is recorded as "Hypercholesterolemia" | Each condition gets its own label | not executed | Extraction.DiagnosesAsWritten, Extraction.DiagnosisLabelsShifted | Extraction.Diagnoses |
