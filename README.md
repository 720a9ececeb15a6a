# Friday mood engine and task ingestion, in Dafny

This project models Friday's mood inference engine and the small conversion rules at its edges, and proves properties of the model:

- **Text analyzer** (`TextMoodAnalyzer.analyze`). It finds lexicon words in a journal text and applies a three-token look-back negation and a one-token intensifier. It averages the hits, or falls back to a substring and punctuation heuristic when there are none.
- **Behavioral predictor.** The scoring half of `BehavioralMoodPredictor.predict` turns six activity counters into valence, arousal, confidence and a features record.
- **Mood fusion** (`MoodFusion.fuse`). A confidence-weighted mean of the text and behavioral estimates, with the "none" sentinel, the fused-confidence rule and the source tag.
- **Current-mood route.** `get_current_mood` labels the latest journal entry only when it has no label yet, fuses the enabled sources and stores the fused profile.
- **Brightspace client.** It converts an assignment to a task (time estimate, title, description, due date), strips the trailing `/` from the host and assembles the signed request URL.
- **Calendar client.** `event_to_task` skips all-day and short events.
- **Sync routes.** The credential string `app_id:app_key:user_id:user_key:host` and its split-based decoding, the Brightspace token upsert, and the course and assignment loop. That loop creates each task unless its title already exists.

Numbers are Dafny `real`s, which are exact rationals. Python's `round(x, n)` is modelled as round-half-even of the exact value (`Numerics.RoundInt`).

Each imperative piece of the source is a `method` proved equal to a specification function, and the properties are lemmas about that function:
- the token loop of `analyze`;
- the accumulating updates of `predict`;
- the list building in `fuse`;
- the label update on a `JournalEntry` object;
- the token and task tables of a `Database` object.

Some behaviours of the code are easy to misread, and the model keeps them as written:

- **Fused confidence and source tag.** `fuse` decides these from whether an estimate was *supplied*, not whether it was *usable* (confidence above 0). So text with confidence 1.0 plus behavioral with confidence 0.0 gives source `text_primary` and confidence 0.5, although the behavioral estimate is left out of the means (mood_fusion.py lines 36-54 and 69-86). This is `MoodFusion.FullTextZeroBehavioralExample`.
- **Fallback counting.** The fallback counts how many *distinct* list words occur as substrings, not how often they occur (`TextAnalyzer.DistinctWordsExample`).
- **Unmatchable table entries.** The `'a bit'` intensifier and the `"n't"` negation can never match a token (`TextAnalyzer.UnmatchableEntries`).

## Model

| member | source | states |
|---|---|---|
| TextAnalyzer.Tokenize | services/mood/text_analyzer.py:61 | defines `re.findall(r'\b\w+\b', ...)` on ASCII: the maximal runs of word characters, left to right |
| TextAnalyzer.ScoreAt | services/mood/text_analyzer.py:69-96 | defines one hit's record: base valence, negated and halved when a negation is among the three preceding tokens; base arousal times the preceding intensifier, else the following one, else 1, clamped to [0, 1] |
| TextAnalyzer.Fallback | services/mood/text_analyzer.py:115-138 | defines `_fallback_analysis`: ±0.3 by the distinct positive and negative substring counts, arousal `min(0.7, 0.3 + 0.1 marks)`, confidence 0.2 |
| TextAnalyzer.AnalyzeWith | services/mood/text_analyzer.py:45-113 | defines `analyze` for given tables: neutral for blank text, else the rounded means of the hits or the rounded fallback |
| TextAnalyzer.AnalyzeSpec | services/mood/text_analyzer.py:17-113 | defines `analyze` with the class's own lexicon, intensifier and negation tables |
| TextAnalyzer.LexiconBounds | services/mood/text_analyzer.py:17-34 | every lexicon entry has base valence in [-0.8, 0.9] and base arousal in [0.1, 0.9] |
| TextAnalyzer.IntensifierBounds | services/mood/text_analyzer.py:36-40 | every intensifier multiplier lies in [0.8, 1.4] |
| TextAnalyzer.TokensAreWords | services/mood/text_analyzer.py:61 | every token of `\b\w+\b` is a non-empty run of word characters |
| TextAnalyzer.UnmatchableEntries | services/mood/text_analyzer.py:36-61 | no token contains a space or an apostrophe, so `"a bit"` and `"n't"` are never tokens and never fire |
| TextAnalyzer.ScoreAtInRange | services/mood/text_analyzer.py:69-96 | a hit's record names the word; its valence is `-0.5 * base` when negated and the base otherwise; with bounded tables the record lies in range |
| TextAnalyzer.IntensityRule | services/mood/text_analyzer.py:80-88 | the multiplier is the preceding token's if that is an intensifier, and is always 1.0 or one table value, so it lies in [0.8, 1.4] |
| TextAnalyzer.NegationWindow | services/mood/text_analyzer.py:72-78 | the source's test, some negation word in the slice of up to three preceding tokens, holds exactly when `NegatedAt` does |
| TextAnalyzer.NegationIsLocal | services/mood/text_analyzer.py:72-78 | negation depends only on the three tokens before the hit: text added before or after does not change it |
| TextAnalyzer.ScoreIsLocal | services/mood/text_analyzer.py:69-88 | a hit's record depends only on its three predecessors and its successor |
| TextAnalyzer.HitPositionsExact | services/mood/text_analyzer.py:67-69 | the hit positions are strictly increasing, and a position is a hit iff its token is in the lexicon |
| TextAnalyzer.HitsAreOrdered | services/mood/text_analyzer.py:67-96 | there is exactly one emotion record per hit, in token order, each the score of its position |
| TextAnalyzer.HitsInRange | services/mood/text_analyzer.py:69-96 | with bounded tables every record has valence in [-1, 1] and arousal in [0, 1] |
| TextAnalyzer.ScoreWord | services/mood/text_analyzer.py:69-96 | the loop body's scoring of a hit equals the record specification `ScoreAt` |
| TextAnalyzer.Analyze | services/mood/text_analyzer.py:45-113 | the imperative analysis returns exactly the specification `AnalyzeWith` for the given tables |
| TextAnalyzer.BlankIsNeutral | services/mood/text_analyzer.py:52-58 | empty or whitespace-only text gives exactly (0.0, 0.3, 0.0) with no emotions |
| TextAnalyzer.BlankExamples | services/mood/text_analyzer.py:52-58 | `""`, `"   "` and `"\t\n "` all give the neutral estimate |
| TextAnalyzer.FallbackInRange | services/mood/text_analyzer.py:115-138 | the fallback valence is one of 0.3, -0.3, 0.0, its arousal lies in [0.3, 0.7] and its confidence is 0.2 |
| TextAnalyzer.HitBranch | services/mood/text_analyzer.py:98-113 | with hits, the evidence is the records and valence and arousal are the rounded unweighted means; confidence is `min(1, 0.3 n)`, which is 0.3 for one hit and 1.0 for four or more |
| TextAnalyzer.FallbackBranch | services/mood/text_analyzer.py:103-138 | without hits, confidence is 0.2 and there are no emotions; valence follows the distinct-substring counts and arousal is `min(0.7, 0.3 + 0.1 (#! + #?))` |
| TextAnalyzer.AnalyzeInRange | services/mood/text_analyzer.py:45-138 | with bounded tables every result has valence in [-1, 1], arousal in [0, 1] and confidence in [0, 1] |
| TextAnalyzer.AnalyzeSpecInRange | services/mood/text_analyzer.py:17-138 | the analyzer with its own tables always returns an in-range estimate |
| TextAnalyzer.NotHappyExample | services/mood/text_analyzer.py:45-113 | `analyze("I am not happy")`, through lower-casing and tokenising, gives one negated record with valence -0.4, arousal 0.7 and confidence 0.3 |
| TextAnalyzer.ExtremelyExcitedExample | services/mood/text_analyzer.py:45-113 | `analyze("I am extremely excited")`, through lower-casing and tokenising, scales arousal 0.9 by 1.4, clamps it to 1.0 and gives confidence 0.3 |
| TextAnalyzer.MarksOnlyExample | services/mood/text_analyzer.py:52-138 | `"!!!"` has no word tokens and takes the fallback: valence 0.0, arousal 0.6, confidence 0.2 |
| TextAnalyzer.DistinctWordsExample | services/mood/text_analyzer.py:118-129 | in "good good bad" the repeated "good" counts once, so the counts tie and the fallback valence is 0.0 |
| BehavioralPredictor.PredictSpec | services/mood/behavioral_predictor.py:97-151 | defines the prediction in closed form: a division-by-zero failure when `days_back` is 0, else the clamped valence and arousal, the confidence and the features |
| BehavioralPredictor.CompletionRate | services/mood/behavioral_predictor.py:66 | the completion rate is 0.5 without tasks and lies in [0, 1] when `completed <= total` |
| BehavioralPredictor.Predict | services/mood/behavioral_predictor.py:97-151 | the accumulating computation equals the closed-form `PredictSpec`, and it fails (division by zero) exactly when `days_back` is 0 |
| BehavioralPredictor.ValenceClampInert | services/mood/behavioral_predictor.py:108-120 | with consistent counters and `days_back > 0`, pre-clamp valence lies in [-0.7, 0.5], so the clamp never changes it |
| BehavioralPredictor.ArousalClampInert | services/mood/behavioral_predictor.py:122-133 | pre-clamp arousal lies in [0.3, 1.0], so the clamp never changes it |
| BehavioralPredictor.PredictInRange | services/mood/behavioral_predictor.py:108-151 | for any non-zero `days_back` the prediction succeeds and is in range, with arousal at least 0.3 |
| BehavioralPredictor.OverdueNeverRaisesValence | services/mood/behavioral_predictor.py:112-114 | more overdue tasks never raise the valence |
| BehavioralPredictor.UpcomingNeverLowersArousal | services/mood/behavioral_predictor.py:125-126 | more upcoming deadlines never lower the arousal |
| BehavioralPredictor.ConfidenceRule | services/mood/behavioral_predictor.py:135-136 | confidence is 0 with no tasks and no journal entries, 1 from 20 items on, and always in [0, 1] |
| BehavioralPredictor.EmptyWindow | services/mood/behavioral_predictor.py:66-151 | with no tasks, journal entries or overdue tasks, the completion rate is 0.5, the valence 0.0 and the confidence 0.0 |
| BehavioralPredictor.FeaturesRule | services/mood/behavioral_predictor.py:138-144 | the features record holds the raw upcoming, overdue and total-time counts, the journaling frequency rounded to 2 places and an in-range completion rate |
| MoodFusion.FuseSpec | services/mood/mood_fusion.py:13-101 | defines `fuse`: the weighted means of the usable estimates rounded to 3 places, or the "none" sentinel; confidence and source from which estimates were supplied |
| MoodFusion.Fuse | services/mood/mood_fusion.py:13-101 | the list-building implementation returns exactly the specification `FuseSpec` |
| MoodFusion.TotalWeight | services/mood/mood_fusion.py:36-54 | the total weight is the sum of the usable estimates' weights (override, else own confidence); the list is empty iff neither estimate is usable |
| MoodFusion.SentinelRule | services/mood/mood_fusion.py:56-100 | the result is the "none" sentinel iff no estimate is usable or the total weight is 0; otherwise `components` echoes both raw inputs |
| MoodFusion.NothingSupplied | services/mood/mood_fusion.py:30-63 | fusing nothing gives (0.0, 0.3, 0.0, "none") with no components |
| MoodFusion.ValenceSumBounds | services/mood/mood_fusion.py:66 | with non-negative weights and valences in [lo, hi], the weighted valence sum lies between lo and hi times the total weight |
| MoodFusion.ArousalSumBounds | services/mood/mood_fusion.py:67 | the same bound for the weighted arousal sum |
| MoodFusion.ValenceMeanBetween | services/mood/mood_fusion.py:66 | with positive total weight, the weighted mean valence lies between the component bounds |
| MoodFusion.ArousalMeanBetween | services/mood/mood_fusion.py:67 | the same for the weighted mean arousal |
| MoodFusion.FusedBetween | services/mood/mood_fusion.py:65-94 | with non-negative weights, the fused valence and arousal lie between the rounded bounds of the contributing estimates |
| MoodFusion.FusedInRange | services/mood/mood_fusion.py:30-95 | in-range inputs and non-negative weights give an in-range fused mood |
| MoodFusion.TextAlone | services/mood/mood_fusion.py:36-96 | a single usable text estimate comes back with its own values rounded, its confidence and source "text_only" |
| MoodFusion.BehavioralAlone | services/mood/mood_fusion.py:46-96 | a single usable behavioral estimate comes back with its own values rounded and source "behavioral_only" |
| MoodFusion.SuppliedButExcluded | services/mood/mood_fusion.py:36-86 | a supplied behavioral estimate with confidence 0 is left out of the means but still halves the confidence and makes the source "text_primary" |
| MoodFusion.SourceRule | services/mood/mood_fusion.py:81-90 | text_primary iff both are supplied and text confidence is strictly higher; behavioral_primary iff both and not; text_only and behavioral_only iff only that one is supplied |
| MoodFusion.FullTextZeroBehavioralExample | services/mood/mood_fusion.py:47-86 | text (0.8, 0.5, confidence 1.0) plus behavioral confidence 0.0 gives (0.8, 0.5, 0.5, "text_primary") |
| MoodFusion.TieExample | services/mood/mood_fusion.py:82-86 | equal confidences give "behavioral_primary" |
| MoodRoutes.LabelFor | backend/app/routes/mood.py:106-111 | the label is "positive" iff valence > 0.5, "negative" iff valence < -0.5, and "neutral" iff it lies in [-0.5, 0.5] |
| MoodRoutes.LabelAfter | backend/app/routes/mood.py:104-111 | after the update the entry is labelled; the label changes only if it was unset, and then to the valence's label |
| MoodRoutes.CurrentMoodSpec | backend/app/routes/mood.py:92-137 | defines the stored profile: the fusion of the text estimate of the latest entry and the 7-day behavioral estimate, each only when enabled |
| MoodRoutes.GetCurrentMood | backend/app/routes/mood.py:92-137 | returns the specification `CurrentMoodSpec` and writes the label rule into the latest entry only when text is enabled |
| MoodRoutes.LabelIdempotent | backend/app/routes/mood.py:104 | an existing label is never overwritten, and applying the rule twice equals applying it once |
| MoodRoutes.LabelBoundaries | backend/app/routes/mood.py:106-111 | exactly 0.5 and -0.5 are neutral; 0.501 is positive and -0.501 negative |
| MoodRoutes.SourcesPassedAsNone | backend/app/routes/mood.py:92-116 | the text estimate is None iff text is disabled or there is no entry; the behavioral one is None iff disabled, and the weekly prediction never fails |
| MoodRoutes.NothingEnabled | backend/app/routes/mood.py:92-131 | with both sources disabled the stored profile is (0.0, 0.3, 0.0), source "fused", breakdown "none" |
| MoodRoutes.ProfileCopiesFusion | backend/app/routes/mood.py:119-131 | the profile's source is "fused", its breakdown is "none" iff fusion gave the sentinel, and otherwise its components are both inputs |
| MoodRoutes.CurrentMoodInRange | backend/app/routes/mood.py:119-137 | the stored profile always has valence in [-1, 1], arousal in [0, 1] and confidence in [0, 1] |
| Brightspace.EstimatedTime | services/ingestion/brightspace_client.py:134-139 | the estimate lies in [60, 300] and is 120 without non-empty instruction HTML |
| Brightspace.EstimateMonotone | services/ingestion/brightspace_client.py:138-139 | longer instruction HTML never lowers the estimate |
| Brightspace.EstimateBands | services/ingestion/brightspace_client.py:138-139 | HTML under 6000 characters gives 60, from 30000 on gives 300, and in between gives `len // 100` |
| Brightspace.ReplaceZ | services/ingestion/brightspace_client.py:130 | the `'Z'` replacement leaves no `'Z'` and changes nothing in a string without one |
| Brightspace.DueDateOf | services/ingestion/brightspace_client.py:127-132 | an absent or empty due date gives None; a present, non-empty one gives the parse of the text after the `'Z'` replacement |
| Brightspace.TitleOf | services/ingestion/brightspace_client.py:142 | the title starts with the course name and `": "`, and the rest is the assignment's name, or "Untitled Assignment" when it has none |
| Brightspace.DescriptionOf | services/ingestion/brightspace_client.py:143 | the description is the instructions' text, or `""` when there are no instructions or no text |
| Brightspace.AssignmentToTask | services/ingestion/brightspace_client.py:116-148 | the task's title, description, due date and estimate are those of `TitleOf`, `DescriptionOf`, `DueDateOf` and `EstimatedTime`; its source is brightspace, its status pending, and the estimate lies in [60, 300] |
| Brightspace.TitleRule | services/ingestion/brightspace_client.py:142 | the title starts with `course_name + ": "` and ends with the name, or "Untitled Assignment" without one |
| Brightspace.EmptyAssignmentExample | services/ingestion/brightspace_client.py:127-148 | an empty assignment in "CS 101" becomes ("CS 101: Untitled Assignment", "", no due date, 120, brightspace, pending) |
| Brightspace.RStripSlash | services/ingestion/brightspace_client.py:32 | the stripped host is a prefix of the host, does not end in `'/'`, and only `'/'`s were removed |
| Brightspace.BrightspaceClient.constructor | services/ingestion/brightspace_client.py:17-33 | the client keeps the four credentials, strips the host and sets API version "1.0" |
| Brightspace.RStripIdempotent | services/ingestion/brightspace_client.py:32 | stripping twice equals stripping once, and a host without a trailing `'/'` is kept as is |
| Brightspace.RStripExample | services/ingestion/brightspace_client.py:26-32 | `"https://learn.example.edu//"` becomes `"https://learn.example.edu"` |
| Brightspace.BrightspaceClient.CreateSignedRequest | services/ingestion/brightspace_client.py:35-77 | with params the URL is `host + route + "?" + params + "&" + signed`; without params it is `host + route + "&" + signed`; the header is the JSON content type |
| Brightspace.NoParamsUrlHasNoQuery | services/ingestion/brightspace_client.py:48-70 | a request without params, as written, has no `'?'` anywhere in its URL |
| Brightspace.BrightspaceClient.IntendedSignedUrl | services/ingestion/brightspace_client.py:48-70 | the corrected URL is `host + route + "?" +` the query string in every case |
| Brightspace.IntendedUrlHasQuery | services/ingestion/brightspace_client.py:48-70 | in the corrected URL, a `'?'` follows `host + route` immediately and the query string follows it |
| Calendar.EventToTask | services/ingestion/calendar_client.py:127-159 | an event without a start `dateTime` is skipped; the conversion raises KeyError iff the start is timed and the end is not; a task has source calendar, status pending, an estimate of at least 15 and the end as its due date |
| Calendar.IncludedIff | services/ingestion/calendar_client.py:142-150 | a timed event with an end becomes a task iff it lasts at least 15 minutes; an end before the start is always skipped |
| Calendar.EstimateIsWholeMinutes | services/ingestion/calendar_client.py:147-156 | the estimate is the whole number of minutes the event lasts |
| Calendar.DefaultsRule | services/ingestion/calendar_client.py:152-158 | title defaults to "Untitled Event" and description to `""`; present values are copied |
| Calendar.OneHourExample | services/ingestion/calendar_client.py:139-159 | a one-hour event becomes a 60-minute pending task due at its end |
| Calendar.AllDayExample | services/ingestion/calendar_client.py:139-143 | an all-day event is skipped |
| Credentials.Encode | backend/app/routes/sync.py:46 | defines the stored form `app_id:app_key:user_id:user_key:host` |
| Credentials.Count | backend/app/routes/sync.py:81 | the separator count is 0 iff the separator does not occur |
| Credentials.Split | backend/app/routes/sync.py:81 | `split(':')` gives one more piece than there are separators, and no piece contains one |
| Credentials.Decode | backend/app/routes/sync.py:81-88 | decoding succeeds iff the string has exactly four `':'`, and then the fields are the five pieces |
| Credentials.EncodeIsJoin | backend/app/routes/sync.py:46 | the stored form is the five fields joined by `':'` in the order app_id, app_key, user_id, user_key, host |
| Credentials.EncodeCount | backend/app/routes/sync.py:46 | the stored form has four separators plus those inside the fields |
| Credentials.SplitJoin | backend/app/routes/sync.py:81 | joining pieces without separators and splitting gives the pieces back |
| Credentials.JoinSplit | backend/app/routes/sync.py:81 | splitting and joining again gives the string back |
| Credentials.DecodeEncode | backend/app/routes/sync.py:46-88 | an encoded credential decodes to the same fields iff no field contains `':'` |
| Credentials.UrlHostNeverDecodes | backend/app/routes/sync.py:81-86 | a host of the form `https://...` adds a sixth piece, so decoding fails |
| Credentials.IndexOf | backend/app/routes/sync.py:81 | the first index of the separator, or the length when there is none |
| Credentials.SplitMax | backend/app/routes/sync.py:81 | `split(':', maxsplit)` gives between one and `maxsplit + 1` pieces |
| Credentials.DecodeIntended | backend/app/routes/sync.py:81-88 | the corrected decoding: a success holds the five pieces of `split(':', 4)` |
| Credentials.DecodeIntendedEncode | backend/app/routes/sync.py:46-88 | with `split(':', 4)`, stored credentials decode to the same fields iff none of the first four contains `':'`; the host may contain any |
| Credentials.UrlHostDecodesIntended | backend/app/routes/sync.py:46-88 | a host of the form `https://...` fails the as-written decoding and round-trips through the corrected one |
| Sync.Upsert | backend/app/routes/sync.py:39-56 | defines the upsert: the user's first Brightspace token gets the new access token, or a token with scope "read" is appended |
| Sync.Candidates | backend/app/routes/sync.py:94-129 | defines the tasks offered for creation: each course's converted assignments, course by course |
| Sync.Created | backend/app/routes/sync.py:112-123 | defines the deduplication: a candidate is created when its title is taken neither by a stored task of the user nor by one created before it |
| Sync.SyncOutcome | backend/app/routes/sync.py:62-135 | defines the route's answer: 400 without a token, 500 when the credentials do not decode, the course list fails or a course's `OrgUnit` is null, else the created tasks |
| Sync.FirstAbort | backend/app/routes/sync.py:98-99 | the index of the first course whose `OrgUnit` is null, where `.get('Id')` raises outside the per-course handler, or the course count |
| Sync.BeforeFirstAbort | backend/app/routes/sync.py:98-99 | no course before that index has a null `OrgUnit` |
| Sync.FirstAbortIsFirst | backend/app/routes/sync.py:98-99 | a course with a null `OrgUnit` comes at or after that index |
| Sync.Committed | backend/app/routes/sync.py:94-135 | defines the tasks a sync leaves in the table: those created from the courses before the first null `OrgUnit`, since `create_task` commits each one at once (backend/app/services/task_service.py line 36); none when the route fails before the course loop |
| Sync.FirstToken | backend/app/routes/sync.py:39-42 | the `.first()` query finds the lowest-index token of the user and provider, or None when there is none |
| Sync.UpsertKeepsUnique | backend/app/routes/sync.py:39-56 | the upsert keeps the (user, provider) index unique, as migration 002 demands, leaves exactly one Brightspace token of the user holding the new encoding, and changes no other token |
| Sync.Database.AuthorizeBrightspace | backend/app/routes/sync.py:23-59 | updates the existing token or appends one with scope "read", keeps the index unique, leaves the tasks unchanged and returns the success message |
| Sync.Database.SyncBrightspaceTasks | backend/app/routes/sync.py:62-135 | returns the specification `SyncOutcome`, leaves the tokens unchanged and appends one row per task of `Committed`, including those created before a null `OrgUnit` ends the sync with 500 |
| Sync.Database.SyncCourses | backend/app/routes/sync.py:94-129 | the course loop stops at the first course with a null `OrgUnit` and says whether it did; it creates exactly `Created` of the candidates of the courses before that one and appends their rows |
| Sync.Database.SyncCourse | backend/app/routes/sync.py:98-127 | one course adds its own candidates' deduplicated tasks; a course without an id, or whose request fails, adds none |
| Sync.CreateTasks | backend/app/routes/sync.py:108-123 | the assignment loop extends the created list and the task rows by the deduplicated tasks of the assignments handled |
| Sync.CreatedStep | backend/app/routes/sync.py:112-123 | one more assignment is created iff its title is not taken by the tasks stored so far |
| Sync.SyncErrors | backend/app/routes/sync.py:68-135 | the sync fails with 400 iff the user has no Brightspace token, and succeeds iff there is a token, it decodes, the course list was fetched and no course's `OrgUnit` is null |
| Sync.SyncCommits | backend/app/routes/sync.py:68-135 | on success the table gains exactly the returned tasks; when there is no usable token or the course list fails, it gains nothing |
| Sync.NullOrgUnitKeepsEarlier | backend/app/routes/sync.py:98-135 | when course i is the first with a null `OrgUnit`, the sync answers 500, yet the tasks created from the courses before it stay in the table |
| Sync.CommittedAreFresh | backend/app/routes/sync.py:94-135 | whatever the sync answers, the tasks it commits have titles not already taken, no two alike, in candidate order |
| Sync.PrefixCreatedFresh | backend/app/routes/sync.py:98-123 | the tasks created from the first n courses have fresh, distinct titles and are a subsequence of all courses' candidates |
| Sync.UrlHostBreaksSync | backend/app/routes/sync.py:46-86 | after authorizing with a host of the form `https://...`, the sync always fails with "Invalid stored credentials" |
| Sync.CandidatesAreBrightspace | backend/app/routes/sync.py:108-110 | every task offered for creation has source brightspace |
| Sync.CandidatesAppend | backend/app/routes/sync.py:98-127 | the candidates of consecutive course lists are the candidates of the first followed by those of the second |
| Sync.SkippedCourse | backend/app/routes/sync.py:99-127 | a course without an id (or id 0), or whose request fails, offers no task |
| Sync.RaisingCourse | backend/app/routes/sync.py:105-127 | an exception at assignment k keeps that course's first k tasks and drops the rest of that course only |
| Sync.CreatedIsFresh | backend/app/routes/sync.py:112-123 | no created task's title was already taken; no two created tasks share a title; every candidate is either taken or created |
| Sync.CreatedKeepsOrder | backend/app/routes/sync.py:98-123 | the created tasks are a subsequence of the candidates, in course-then-assignment order |
| Sync.SyncCreatesFreshTitles | backend/app/routes/sync.py:62-135 | a successful sync creates only new titles, each once, in candidate order |
| Sync.AuthorizeGoogleCalendar | backend/app/routes/sync.py:138-154 | the calendar authorization always fails with 501 |
| Sync.SyncCalendarEvents | backend/app/routes/sync.py:157-182 | the calendar sync fails with 400 iff the user has no calendar token, and with 501 iff there is one |
| Numerics.Round3Error | services/mood/mood_fusion.py:93-95 | rounding to 3 places moves a value by at most 0.0005 |
| Numerics.Round3Monotone | services/mood/mood_fusion.py:93-95 | rounding to 3 places is monotone |
| Numerics.Round3Idempotent | services/mood/text_analyzer.py:109-111 | rounding an already-rounded value changes nothing |

## Left out

- **Database queries.** The queries that count tasks and journal entries (behavioral_predictor.py lines 48-106) are left out. The six counters are inputs (`BehavioralPredictor.Window`).
- **Journal lookup.** The query that finds the latest journal entry is left out; the entry is a parameter of `GetCurrentMood`.
- **Floating point.** Values are exact rationals, and `round` is round-half-even of the exact value. Binary floating-point error, and results that depend on it at a rounding tie, are not modelled.
- **Regex and Unicode.** Tokenisation is an ASCII model of `\b\w+\b` (maximal runs of letters, digits and `_`). `lower()` only maps `A`-`Z`. Unicode word characters and case mappings are not modelled.
- **Cryptography, encoding and the clock.** Brightspace request signing takes HMAC-SHA256 with base64, `urlencode`, `quote` and the timestamp as parameters (`Brightspace.Codec` and a timestamp string). Their outputs are not modelled.
- **Token encryption.** Fernet encryption of stored tokens (encryption_service.py) is the identity here, so a stored access token is the encoded credential itself.
- **Date handling.** ISO 8601 parsing and formatting are outside the model:
  - the Brightspace due date is parsed by a caller-supplied `parseIso` function;
  - calendar times are integer microseconds, already parsed;
  - a due date is kept as the parsed instant rather than re-formatted with `isoformat()`.
- **Network calls.** The `requests` calls, the Google API client and the OAuth flow are left out. The result of `get_courses` is an `Option` (None when it raises). Each course's assignment fetch is a caller-supplied `Fetch`: the assignments plus where handling raises an exception, or a failed request. What raises inside a course is not derived from the data: malformed assignment data (among it a null `Instructions`, below), a pydantic `TaskCreate` validation error or a database error is expressed only by the caller's choice of `raisesAt`.
- **Error text.** The 500 detail on a `get_courses` failure omits the exception text that the source appends after `"Failed to sync Brightspace tasks: "`. The `print` logging of per-course errors is left out too.
- **Framework.** FastAPI routing, authentication, ORM objects, `commit`/`refresh`, `created_at`/`updated_at` and the `TaskResponse` serialisation are left out. A stored task is a (user, task data) row.
- **Other routes.** The `analyze-text` and `predict-behavioral` routes, and the history route (which references an unimported `timedelta`), are not modelled. journal_service.py is not part of this model, and of task_service.py only `create_task` is, as the appended and at once committed row.
- **Other client methods.** `get_course_content`, `create_event` and the other client methods that only call the network are left out.
- **JSON nulls.** Apart from `OrgUnit`, a key present with value `null` is treated like an absent key, although `dict.get(k, default)` returns None there, not the default. A null `OrgUnit` is modelled: `.get('Id')` on it raises outside the per-course handler (backend/app/routes/sync.py lines 99 and 131-135), so the sync answers 500 and keeps the tasks already committed (`Sync.NullOrgUnitKeepsEarlier`). For the other keys the consequences are:
  - `Instructions: null` makes `.get('Html')` raise (brightspace_client.py line 136), which drops the rest of that course (sync.py lines 124-127). The model instead converts the assignment with 120 minutes and description `""`, unless the caller sets `raisesAt` at that assignment.
  - `Name: null` for a course or an assignment gives the text `"None"` in the title; a caller expresses it as `Some("None")`.
  - `Text: null` gives the description None; the model gives `""`.
  - `DueDate: null` and `Html: null` are falsy, as absent keys are, so the model agrees with the source there.
- **Negative counters.** Counters are natural numbers. `days_back` may be any non-zero integer, since the source does not check its sign.
- **Intensity rule.** `TextAnalyzer.IntensityRule` spells out only the preceding-token case. The following-token fallback is stated by `IntensityAt` and `ScoreIsLocal`.

## Findings

| source | as written | input that shows it | evidently intended | confidence | as-written member | corrected member |
|---|---|---|---|---|---|---|
| services/ingestion/brightspace_client.py:48-70 | without query params the signed URL is `host + route + "&" + signed params`, with no `'?'`, so the authentication parameters are not a query string; `get_courses` and `get_assignments` both call it without params | `_create_signed_request('GET', '/d2l/api/lp/1.0/enrollments/myenrollments/')` gives `https://host/d2l/api/lp/1.0/enrollments/myenrollments/&x_a=...` | a `'?'` before the query string in every case, the params (if any) then `'&'` then the signed params | not executed | Brightspace.NoParamsUrlHasNoQuery | Brightspace.BrightspaceClient.IntendedSignedUrl |
| backend/app/routes/sync.py:46-88 | the credentials are stored joined by `':'` and read back with `split(':')` into exactly five names, so a host with a scheme, the form the Brightspace client documents (`'https://learn.uwaterloo.ca'`, brightspace_client.py:26), adds a sixth piece | authorizing with host `https://learn.uwaterloo.ca` stores `app:key:user:ukey:https://learn.uwaterloo.ca`; every later sync answers 500 "Invalid stored credentials" | `split(':', 4)`, so the host keeps its `':'` | not executed | Credentials.UrlHostNeverDecodes | Credentials.DecodeIntended |

The sync model keeps the route's own `split(':')` decoding, so `Sync.UrlHostBreaksSync` and the other sync lemmas describe the route as it behaves. The signed-URL correction is likewise stated beside the as-written `CreateSignedRequest` rather than in place of it.
