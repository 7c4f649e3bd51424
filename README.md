# Carvis job agent: a verified model of its core

Carvis is a job-search assistant: a React front end around a hosted
language model. This project models, in Dafny, the parts of it that carry
logic of their own:

- the **notification engine** of `App.tsx`: deadline reminders for curated jobs, follow-up reminders for applied jobs, and the merge of each pass into the visible list (`notifications.dfy`);
- the **application-tracking state** of `App.tsx`: a `Tracker` class with the applied set, the application dates, the follow-up log, the dismissed ids, the visible notifications, the job lists and the mission state. Its methods are the handlers that update them (`tracker.dfy`);
- the **weekly missions**: progress, claim and the derived views of the mission panel (`missions.dfy`);
- the **job board** match score, filters and filter options (`jobboard.dfy`);
- the **pinboard** search, add, update and delete of pins and contacts (`pinboard.dfy`);
- the **onboarding wizard** and the **dashboard** toggles, form handlers and tabs (`onboarding.dfy`, `dashboard.dfy`);
- the **Markdown renderer**'s block parser and bold rewriting (`markdown.dfy`);
- the deterministic parts of the **simulated e-mail scan** (`scan.dfy`).

`strings.dfy` and `lists.dfy` model the JavaScript string and array
operations these rely on, and `types.dfy` mirrors the records of `types.ts`.

Modelling conventions:
- Every calendar date is an integer day number, so the midnight-normalised differences of the source become subtractions.
- A deadline or application date that is empty, `"Varies"` or unparseable (such as `"Unknown"`) is `None`.
- The clock (`today`, `now`) and the analysis returned by the language model are parameters.
- The `onClick` closure attached to a follow-up reminder is the tagged command `ConfirmFollowUp(jobId, notificationId)`, which `Tracker.Execute` runs.
- The effect that recomputes notifications is `Tracker.Refresh`. The caller runs it after a state change, where React would re-run the effect.
- The two job lists come from a fetch that is not modelled. They are constructor parameters of `Tracker`.
- A string `length` compared with a threshold counts UTF-16 code units, as JavaScript does (`Strings.Utf16Length`): a character above U+FFFF counts twice.

Two behaviours are modelled exactly as written:
- The debug helpers clear every dismissed id that *starts with* `followup-<jobId>` or `deadline-<jobId>`. For job `j1` this also clears the ids of job `j10` (`Tracking.BackdateClearsLongerIds`).
- One pass does not deduplicate its own reminders. An applied job on both the general and the curated list gets its follow-up reminder twice, and both copies are appended to a live list that lacks its id (`Notifications.DuplicateListingsDuplicateReminders`).

## Model

| member | source | states |
|---|---|---|
| Notifications.DeadlineMilestoneSmallest | App.tsx:217-227 | a milestone exists iff 1 ≤ days until the deadline ≤ 28; it is the smallest of 1, 7, 14, 21, 28 not below that distance, and the bracket test always accepts it |
| Notifications.DeadlineRule | App.tsx:208-261 | a curated job yields a deadline reminder iff its deadline is a date, it is not applied, the deadline is 1 to 28 days ahead and the id is not dismissed; the reminder has the smallest fitting milestone, id `deadline-<job>-<m>`, that milestone's severity and no action |
| Notifications.DeadlineSeverities | App.tsx:234-255 | 28 and 21 days are info, 14 and 7 are warning, 1 is error |
| Notifications.FollowUpMilestoneLargest | App.tsx:278-281 | a milestone exists iff the distance is at least 7 days; it is the largest of 28, 21, 14, 7 not above the distance |
| Notifications.FollowUpSeverities | App.tsx:288-300 | 7 and 14 are info, 21 is warning, 28 is error |
| Notifications.AppliedDate | App.tsx:269-272 | the recorded application date wins over the job's own date; with neither there is no date |
| Notifications.FollowUpRule | App.tsx:266-331 | an applied job yields a follow-up reminder iff it has no log entry, it has a date at least 7 days from today in either direction, and the id is not dismissed; the reminder has the largest fitting milestone, id `followup-<job>-<m>`, that milestone's severity and the confirm command |
| Notifications.Collect | App.tsx:208-331 | one reminder at most per job |
| Notifications.CollectMembers | App.tsx:208-331 | the collected reminders are exactly the reminders the rule gives for some listed job |
| Notifications.CollectLoop | App.tsx:208-261 | the `forEach`/`push` loop yields the reminders of the jobs in list order |
| Notifications.Evaluate | App.tsx:203-331 | the pass is the deadline reminders of the curated jobs followed by the follow-up reminders of the applied jobs of all, curated and external lists |
| Notifications.PassAvoidsDismissed | App.tsx:228-285 | no computed reminder has a dismissed id |
| Notifications.LoggedJobsAreQuiet | App.tsx:267 | a job with a follow-up log entry gets no follow-up reminder |
| Notifications.Merge | App.tsx:333-340 | the merged list is the previous list followed by the computed reminders whose id was not in the previous list, in order |
| Notifications.MergeCounts | App.tsx:333-340 | the previous list is a prefix of the result; an appended reminder keeps its multiplicity in the pass; membership is "previous, or computed with a new id" |
| Notifications.MergeIdempotent | App.tsx:333-340 | merging the same pass again appends nothing |
| Notifications.DuplicateListingsDuplicateReminders | App.tsx:264-338 | an applied job on both the general and the curated list yields its follow-up reminder at least twice in one pass, and merging into any live list without that id adds at least two copies |
| Notifications.DismissedStaysGone | App.tsx:604-607 | after a dismissal, a later pass and merge never bring the id back |
| Tracking.ClearPrefixed | App.tsx:542-550 | the kept ids are exactly those that do not start with the prefix |
| Tracking.WithDeadline | App.tsx:558-559 | only the deadline of the jobs with the id changes, to the new date |
| Tracking.InitialMissionsWellFormed | App.tsx:150-160 | the four starting missions have distinct ids, are within their targets and are not complete |
| Tracking.Tracker.constructor | App.tsx:110-160 | the state starts with the given applied set, dates, log, job lists, pins and contacts, no external jobs, no dismissed ids, no notifications, and streak 1 with the four missions; the mission invariant `Valid` (distinct ids, within targets) holds, and every method keeps it |
| Tracking.Tracker.Refresh | App.tsx:200-341 | nothing changes before onboarding; otherwise the notification list becomes the merge of the old list with the pass |
| Tracking.Tracker.MissionProgress | App.tsx:573-589 | the mission state advances by the progress rule, and the total progress grows by 1 exactly when the week is open and the named mission is below target |
| Tracking.Tracker.UpdatePins | App.tsx:624-629 | the pins become the new list, and mission m4 progresses once exactly when the list grew |
| Tracking.Tracker.UpdateContacts | App.tsx:631-633 | the contacts become the new list and nothing else changes |
| Tracking.Tracker.ClaimReward | App.tsx:591-598 | the mission state follows the claim rule |
| Tracking.Tracker.Apply | App.tsx:383-390 | the id joins the applied set, its date becomes today, mission m2 progresses once, and no other field changes |
| Tracking.Tracker.AddExternalJob | App.tsx:392-395 | the job is prepended to the external jobs and m2 progresses once |
| Tracking.Tracker.Dismiss | App.tsx:604-607 | the id joins the dismissed set and every visible notification with that id is removed |
| Tracking.Tracker.ConfirmFollowUpSent | App.tsx:314-322 | the log records today for the job, m3 progresses, and the reminder is dismissed and removed |
| Tracking.Tracker.Execute | App.tsx:306-324 | the confirm command does what the confirm handler does |
| Tracking.Tracker.DebugBackdate | App.tsx:526-551 | the date becomes today − daysAgo, only that job's log entry is deleted, and exactly the dismissed ids starting with `followup-<job>` are cleared |
| Tracking.Tracker.DebugSetDeadline | App.tsx:553-570 | in both job lists only the matching jobs get the new deadline; exactly the dismissed ids starting with `deadline-<job>` are cleared |
| Tracking.FollowUpIdPrefix | App.tsx:545 | every follow-up id of a job whose id extends `jobId` starts with `followup-<jobId>` |
| Tracking.DeadlineIdPrefix | App.tsx:564 | every deadline id of a job whose id extends `jobId` starts with `deadline-<jobId>` |
| Tracking.BackdateRevivesFollowUp | App.tsx:526-551 | after backdating by at least 7 days with nothing dismissed for the job, a follow-up reminder is produced again |
| Tracking.SetDeadlineRevivesReminder | App.tsx:553-570 | after setting an unapplied job's deadline 1 to 28 days ahead with nothing dismissed for it, a deadline reminder is produced again |
| Tracking.BackdateClearsLongerIds | App.tsx:545 | the prefix for job `j1` also matches the ids of job `j10` |
| MissionRules.Bump | App.tsx:577-582 | each mission gains 1 exactly when its id matches and it is below target; nothing else changes |
| MissionRules.Progress | App.tsx:573-589 | no-op once the week is completed; otherwise a mission gains exactly 1 only when it has the id and is below target, every other field stays, and `current ≤ target` is preserved |
| MissionRules.Claim | App.tsx:591-598 | the week is marked completed, the streak grows by 1, the date is recorded and the missions are unchanged, with no completeness guard |
| MissionRules.ProgressAfterClaim | App.tsx:575 | progress after a claim changes nothing |
| MissionRules.BumpTotal | App.tsx:577-582 | the total progress grows by the number of advancing missions and the total target is unchanged |
| MissionRules.CountAdvancingUnique | App.tsx:578 | with distinct ids at most one mission advances, and exactly one iff some mission with the id is below target |
| MissionRules.ProgressTotal | App.tsx:573-589 | with distinct ids one progress call raises the total by at most 1, and by exactly 1 iff it advances a mission |
| MissionControl.AllCompletedIff | components/MissionControl.tsx:38 | all missions are complete iff each has `current ≥ target`; vacuously true for none |
| MissionControl.MissionClick | components/MissionControl.tsx:115-119 | a click forwards to progress only when the mission is below target and the week is open |
| MissionControl.MissionClickTotal | components/MissionControl.tsx:115-119 | a forwarded click raises the total progress by exactly 1 |
| MissionControl.PercentComplete | components/MissionControl.tsx:121-123 | there is no percentage exactly when the total target is zero; otherwise it lies within one half of 100 · current / target, above the lower end and at most the upper end (rounding half up) |
| MissionControl.TotalsBounded | components/MissionControl.tsx:121-122 | within targets, 0 ≤ total progress ≤ total target |
| MissionControl.PercentInRange | components/MissionControl.tsx:121-123 | within targets and with a positive total target, the percentage is in 0..100 |
| MissionControl.ClaimWithdrawsOffer | components/MissionControl.tsx:267-275 | after a claim the claim button is no longer offered |
| MissionControl.Snap | components/MissionControl.tsx:92-101 | x snaps to the edge nearer the button's centre; y is unchanged when already in range, exactly 60 when below 60 or when innerHeight − 100 is below 60, and exactly innerHeight − 100 when above it |
| JobBoard.CountHits | components/JobBoard.tsx:28-34 | the loop counts the keywords longer than three UTF-16 code units that occur in the job text |
| JobBoard.HitsAreMatched | components/JobBoard.tsx:26-34 | counting over the deduplicated keywords counts the distinct matched keywords |
| JobBoard.MatchScore | components/JobBoard.tsx:19-39 | the score is min(98, 50 + 5 per distinct lowercased matched keyword longer than three UTF-16 code units), so it lies in 50..98 |
| JobBoard.FilteredJobsSpec | components/JobBoard.tsx:137-146 | the filtered jobs are an order-preserving subsequence holding exactly the jobs equal to every non-empty filter field |
| JobBoard.ClearFiltersShowsAll | components/JobBoard.tsx:133-135 | after clearing, every job is shown in order |
| JobBoard.PresentValues | components/JobBoard.tsx:149-151 | `.filter(Boolean)` keeps exactly the present, non-empty values |
| JobBoard.OptionListSpec | components/JobBoard.tsx:149-151 | an option list has no duplicates, holds exactly the non-empty values, and keeps first-occurrence order |
| JobBoard.IndustryOptions | components/JobBoard.tsx:149 | the industry options are exactly the non-empty industries of the jobs |
| Pinboard.SearchPinsSpec | components/Pinboard.tsx:240-246 | an empty query returns the pins; otherwise exactly the pins whose lowercased title or content contains the lowercased query, in order |
| Pinboard.SearchContactsSpec | components/Pinboard.tsx:248-257 | the same rule over name, company, role and notes |
| Pinboard.AddPin | components/Pinboard.tsx:259-270 | nothing iff the title or content is blank; otherwise the old pins plus the new pin, sorted by title |
| Pinboard.DeletePinSpec | components/Pinboard.tsx:272 | exactly the pins with the id go; the others keep their multiplicity and order |
| Pinboard.EditPins | components/Pinboard.tsx:274 | only the pins with the id get the new title and content; ids are unchanged |
| Pinboard.UpdatePinSpec | components/Pinboard.tsx:273-275 | the result is sorted by title, is a permutation of the edited pins, and keeps the multiset of ids |
| Pinboard.AddContact | components/Pinboard.tsx:277-283 | nothing iff the name or company is blank; otherwise the old contacts plus the new one, sorted by name |
| Pinboard.ReplaceContact | components/Pinboard.tsx:286 | exactly the entries with the contact's id are replaced |
| Pinboard.UpdateContactSpec | components/Pinboard.tsx:285-287 | the result is sorted by name, is a permutation of the replaced list, and keeps the multiset of ids |
| Pinboard.DeleteContactSpec | components/Pinboard.tsx:289 | exactly the contacts with the id go; the others keep their multiplicity and order |
| Onboarding.NextStep | components/Onboarding.tsx:49-55 | on steps 0..2 the step advances by one and stays in range; on the last step the wizard completes |
| Onboarding.BackStep | components/Onboarding.tsx:57-61 | the step goes back by one, except at step 0 where it stays; it stays in range |
| Onboarding.Wizard.constructor | components/Onboarding.tsx:35-36 | the wizard starts at step 0 with the initial user |
| Onboarding.Wizard.Next | components/Onboarding.tsx:49-55 | the form is handed over exactly on the last step, where the step stays; otherwise the step advances by one |
| Onboarding.Wizard.Back | components/Onboarding.tsx:57-61 | the step follows BackStep and stays in range |
| Onboarding.Wizard.Update | components/Onboarding.tsx:63-65 | the form is replaced by the updater's result |
| Onboarding.ToggleArrayItem | components/Onboarding.tsx:67-77 | a present item loses every occurrence, an absent one is prepended; other items keep their multiplicity and no other field changes |
| Onboarding.ToggleArrayItemTwice | components/Onboarding.tsx:67-77 | toggling an absent item twice restores the form |
| Onboarding.WorkStyles | components/Onboarding.tsx:91 | the listed styles are non-empty and contain no `", "` |
| Onboarding.ToggleWorkStyle | components/Onboarding.tsx:89-101 | a listed style is removed and an unlisted one appended, then the styles are joined with `", "` |
| Onboarding.ToggleWorkStyleFlips | components/Onboarding.tsx:89-101 | a non-empty style without the separator is listed afterwards iff it was not listed before |
| Onboarding.ListedStylesRoundTrip | components/Onboarding.tsx:89-101 | joining non-empty, separator-free styles and splitting them again gives the same styles |
| Onboarding.ToggleWorkStyleTwice | components/Onboarding.tsx:89-101 | adding a new style and removing it again gives the normalised original |
| Onboarding.ToggleProvider | components/Onboarding.tsx:103-111 | a connected provider loses every occurrence, another is appended; no other field changes |
| Onboarding.DisplayInterestsSpec | components/Onboarding.tsx:44-47 | the displayed interests have no duplicates, hold exactly the user's and the predefined interests, start with the user's own, and keep first-occurrence order |
| Onboarding.MergeAnalysis | components/Onboarding.tsx:154-169 | the name is replaced only over `""` or `"Alex Doe"` by a non-empty analysed name; interests and skills become duplicate-free unions; a set work style is kept; nothing else changes |
| Onboarding.MergeAnalysisPrefix | components/Onboarding.tsx:158-159 | the analysis entries come first in the merged lists |
| Onboarding.UploadCv | components/Onboarding.tsx:146-171 | the text always becomes the CV; only a text longer than 50 UTF-16 code units is merged |
| Dashboard.ToggleProvider | components/Dashboard.tsx:104-112 | the copied list loses a connected provider or gains an unconnected one at the end; other providers and fields are unchanged |
| Dashboard.ToggleEnablesScan | components/Dashboard.tsx:103-121 | on the provider list ToggleProvider returns, connecting a first provider enables the scan and disconnecting the only one disables it |
| Dashboard.CommaList | components/Dashboard.tsx:223-225 | the field becomes the comma-separated pieces, each trimmed; there is one more piece than there are commas |
| Dashboard.CommaListPieces | components/Dashboard.tsx:224 | no piece has leading or trailing white space or holds a comma |
| Dashboard.ProfileEditor.constructor | components/Dashboard.tsx:216-217 | the editor starts closed with a copy of the user |
| Dashboard.ProfileEditor.HandleArrayChange | components/Dashboard.tsx:223-225 | only the chosen list field of the edited copy changes, to the comma list |
| Dashboard.ProfileEditor.HandleSave | components/Dashboard.tsx:227-230 | the edited copy is handed over and editing ends |
| Dashboard.ProfileEditor.HandleCancel | components/Dashboard.tsx:232-235 | the edited copy becomes the user again and editing ends |
| Dashboard.SubmitExternal | components/Dashboard.tsx:335-356 | no job iff the title or company is empty; otherwise an external job with the form's title, company, stage and date, no deadline and status "In Progress" |
| Dashboard.TabsPartition | components/Dashboard.tsx:396-397 | the internal tab holds exactly the applied non-external jobs, the external tab exactly the external ones; no job is on both, every applied or external job is on one, and both keep list order |
| Dashboard.SubmittedJobIsExternal | components/Dashboard.tsx:396-397 | a submitted job is on the external tab and never on the internal one |
| Markdown.CloseAt | components/common/MarkdownRenderer.tsx:13 | the lazy match ends at a `**` at or after the start |
| Markdown.CloseAtSpec | components/common/MarkdownRenderer.tsx:13 | the match ends at the first `**`, with no line terminator before it; it fails only when every later `**` has a line terminator before it |
| Markdown.HeadText | components/common/MarkdownRenderer.tsx:13 | the span produced at a position, a copied character or a whole `**...**` match, spells out exactly the text up to where the scan resumes |
| Markdown.ParseRoundTrip | components/common/MarkdownRenderer.tsx:13 | the matched spans spell out the line again |
| Markdown.BoldSpansWellFormed | components/common/MarkdownRenderer.tsx:13 | no bold text contains `**` or a line terminator |
| Markdown.NoMarkersUnchanged | components/common/MarkdownRenderer.tsx:13 | a line without `**` is rendered unchanged |
| Markdown.LazyMatch | components/common/MarkdownRenderer.tsx:13 | in `**a**b**` only `a` becomes bold |
| Markdown.ClassifySpec | components/common/MarkdownRenderer.tsx:35-52 | a trimmed line starting with `### ` is a heading of the rest; else one starting with `* ` is an item of the rest; else a non-empty line is a paragraph; a line is skipped iff it is blank |
| Markdown.FlushList | components/common/MarkdownRenderer.tsx:21-32 | pending items are emitted as one list, if any, and the pending items are reset |
| Markdown.Render | components/common/MarkdownRenderer.tsx:9-57 | nothing for empty content; otherwise the loop emits the blocks the grouping defines for the lines |
| Markdown.GroupItems | components/common/MarkdownRenderer.tsx:21-55 | every item line appears exactly once as a list item, in line order |
| Markdown.GroupStandalone | components/common/MarkdownRenderer.tsx:36-51 | headings and paragraphs are emitted one per line, in line order |
| Markdown.GroupShape | components/common/MarkdownRenderer.tsx:21-51 | no list is empty and no two lists are adjacent |
| Markdown.BlankLinesIgnored | components/common/MarkdownRenderer.tsx:45 | blank lines neither flush the pending list nor emit anything |
| Markdown.ItemsAcrossBlankLines | components/common/MarkdownRenderer.tsx:43-45 | two item lines separated only by blank lines share one list |
| Markdown.BareMarkers | components/common/MarkdownRenderer.tsx:35-45 | `### ` and `* ` alone trim to `###` and `*` and become paragraphs |
| Scan.RelevantEmailsSpec | App.tsx:414-417 | the relevant messages are the subjects mentioning application, update or interview in any ASCII case, in mailbox order |
| Scan.RelevanceIgnoresCase | App.tsx:415 | lowercasing a subject first does not change its relevance |
| Scan.TrackableJobsSpec | App.tsx:441-442 | the trackable jobs are the applied jobs of the general and curated lists and every external job |
| Scan.OutcomeOf | App.tsx:462-466 | no update iff the draw is at most 0.6; rejection iff it is above 0.8; otherwise the next stage |
| Scan.OutcomeMonotone | App.tsx:462-466 | a larger draw never gives a milder outcome |
| Scan.ScanOutcome | App.tsx:460-466 | a job whose status or stage is "Offer" gets no update |
| Strings.Utf16Length | components/JobBoard.tsx:31 | `length` counts UTF-16 code units: between the number of characters and twice that, and equal to it when no character lies above U+FFFF |
| Strings.Utf16LengthOfPairs | components/Onboarding.tsx:150 | two characters above U+FFFF have length four |
| Strings.TrimProperties | components/Pinboard.tsx:260 | `trim` gives the empty string exactly for blank input, and otherwise a slice with no white space at either end |
| Strings.SplitJoin | components/Onboarding.tsx:91-99 | splitting a join of separator-free parts gives the parts back |
| Strings.SplitCharCount | components/Dashboard.tsx:224 | splitting on one character gives one more piece than there are occurrences |
| Lists.Find | App.tsx:218 | `find` gives the first satisfying element, or nothing when none satisfies |
| Lists.FilterSubseq | components/JobBoard.tsx:137-146 | `filter` keeps an order-preserving subsequence |
| Lists.FilterCounts | components/Pinboard.tsx:272 | `filter` keeps every occurrence of a satisfying element and none of the others |
| Lists.Dedup | components/JobBoard.tsx:149-151 | `Array.from(new Set(..))` has no duplicates and the same members |
| Lists.DedupFirstOccurrenceOrder | components/JobBoard.tsx:149-151 | a deduplicated list keeps first-occurrence order |
| Lists.DedupPrefix | components/Onboarding.tsx:158-159 | deduplicating a concatenation starts with the deduplicated first part |
| Lists.ToggleFlips | components/Onboarding.tsx:67-77 | after a toggle the item is present iff it was absent, and other elements keep their multiplicity |
| Lists.ToggleFrontTwice | components/Onboarding.tsx:67-77 | prepending an absent item and toggling it off restores the list |
| Lists.ToggleBackTwice | components/Onboarding.tsx:103-111 | appending an absent item and toggling it off restores the list |
| Lists.SortBy | components/Pinboard.tsx:266 | the sorted list is ordered by the key and is a permutation of the input |
| Lists.SortByMap | components/Pinboard.tsx:274 | sorting keeps the multiset of any projection, such as ids |

## Left out

- JSX rendering, styling, modals, confetti, clipboard, navigation between views and the theme toggle: display only.
- `localStorage` reads and writes and `JSON.parse`: ambient storage. The initial applied set, dates and log are constructor parameters of `Tracker`; dismissed ids are not persisted in the source either.
- The job fetch on onboarding: its results are the `curatedJobs` and `allJobs` constructor parameters of `Tracker`.
- The asynchronous e-mail scan (`Math.random`, timers, the language model, MSAL sign-in and the Graph fetch): nondeterminism and I/O. Only the subject filter, the trackable-job list and the outcome chosen from a draw are modelled. The draw is a parameter.
- JavaScript `Date` parsing, time zones and `toISOString`: dates are day numbers. So the rounding of a non-whole number of days at a daylight-saving change is not modelled.
- An empty or unparseable `applicationDates` entry: every recorded entry is a day number here, so the model represents neither case. It misses the fallback to `job.dateApplied` that the source takes for an empty entry, and the missing reminder that the source's `NaN` distance gives for a non-empty unparseable one.
- Notification message wording: a tagged `Message` value records the milestone and the quoted job fields instead of the English sentence.
- `localeCompare`: pins and contacts are sorted by code-point order on strings. Lists.SortBy does not state that the sort is stable.
- `toLowerCase` and `trim` beyond their character sets: only ASCII letters are folded. `trim` removes the JavaScript white space and line terminators, without Unicode normalisation.
- MissionControl.PercentComplete: `Math.round` of a floating-point quotient is modelled as exact rounding half up of the rational value, and the `NaN` of a zero total target as `None`.
- MissionControl.Snap: JavaScript numbers are reals here. The `offsetWidth || 190` fallback covers a missing or zero width only.
- Pointer-event wiring, drag refs and the window listeners of the mission widget: only the snap arithmetic is modelled.
- The starter-pin generation after onboarding: it calls the language model. The pins it returns would be the `pins` constructor parameter of `Tracker`.
- `readPdf` and `file.text()`: browser file I/O. The extracted text is a parameter of Onboarding.UploadCv, and so is the analysis the language model returns.
- The fields that only the display uses (`url`, company information, news, recruiter details): display only.
- services/geminiService.ts and services/microsoftAuth.ts: they wrap the language model and MSAL.
- Markdown.Render: blocks carry their raw text. Each text goes through Markdown.RenderBold when displayed; the React element keys are not modelled.
