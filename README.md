# Candidate interview progress, modelled in Dafny

This project models the data core of a recruiting dashboard. The dashboard shows one candidate's
progress through a fixed ten-stage interview plan. The model covers:

- the snapshot entities: plan stages, interviews, interviewers with RSVP and score, visited and
  upcoming stages, the next action and urgency signals (`Types`);
- the fixed plan, the visited/upcoming split at index 3 and the interview titles (`Data`);
- the mock-snapshot generator (`Generate`, `NextActions`, `UrgencySignals`). It walks the three
  visited stages backwards from "now", builds their interviews back to back, schedules three
  interviews for the next stage, infers the next action and draws urgency signals;
- the "time spent" text, e.g. "3 days ago" (`TimeUtils`);
- the set of expanded stages in the interview-history list (`InterviewHistory`);
- the earliest stage entry shown in the progress header (`CandidateProgress`).

Modelling choices:

- Instants are integer milliseconds. A day is exactly 86 400 000 ms, and "start of day" is the
  largest multiple of that at or below the instant.
- The current time is a parameter `now`.
- Every random draw is a parameter:
  - a draw from a fixed pool of values (days ago, lengths, counts, RSVPs, scores, and the
    interview titles of both the visited and the next stage) is a value that a `Valid…Draw`
    predicate restricts to that pool; a title, for example, must be in `Data.InterviewTitles`;
  - a draw by position (the index of the next signal type, the signal message, the next
    action) is an arbitrary natural reduced modulo the list's length (`Types.PickIndex`), so
    every position can be drawn.
- The UUID supply is a counter `ids` that is threaded through the generator. Each method returns
  the next unused value. The plan's own stage ids are 0 to 9.
- The declared RSVP type spells the middle value "tenative", while the generator and the UI
  write "tentative". The model has the single constructor `Tentative`.

The generator's code differs from its written description in three places. The model follows
the code:

- Interviewers of an exited stage get a score from a pool that includes "unsubmitted"
  (src/generate.ts:219, 258), so a finished stage can still lack feedback.
- The interviews of the in-progress stage begin two days after now (src/generate.ts:233), not
  between the stage's entry and now. Their scores are always "unsubmitted". So in a generated
  snapshot "ping for feedback" is always eligible and "make a decision" never is
  (`Generate.GenerateInterviewProgress`, `Generate.InProgressStageAwaitsFeedback`).
- "Schedule interview" can be eligible twice. This happens when the current stage has no
  interviews and the next stage has a schedule (src/generate.ts:116-123). No other action is
  then eligible, so the list is exactly two "schedule interview" entries and every draw picks
  it; the duplicate does not change the outcome (`NextActions.DoubleScheduleIsCertain`,
  `NextActions.ScenarioNothingVisited`). In a generated snapshot the current stage always has
  four interviews, so it is eligible exactly once there.

## Model

| member | source | states |
|---|---|---|
| Types.PickIndex | src/generate.ts:192-194 | a random index into a non-empty list is always in range, and every index can be drawn |
| Data.OrderedInterviewPlan | src/data.ts:4-45 | the plan has ten stages in fixed order, from "New Lead" to "Archived", with pairwise distinct ids |
| Data.VisitedPlanStages | src/data.ts:47-48 | the next-stage index 3 lies inside the plan; the visited stages are the plan's first three, and with the upcoming rest they make up the whole plan |
| Data.InterviewTitles | src/data.ts:50-57 | there are six pairwise distinct interview titles |
| NextActions.ActionList | src/generate.ts:82-142 | the eligible list is never empty, so the default branch cannot fire; each action is in it exactly when its rule holds |
| NextActions.ActionListCount | src/generate.ts:98-142 | each action occurs once per rule that pushes it: "schedule interview" twice exactly when the current stage has no interviews and the next stage has a schedule, every other action at most once |
| NextActions.OccurrencesAppend | src/generate.ts:82-142 | counting occurrences distributes over the successive pushes |
| NextActions.EligibleActions | src/generate.ts:82-142 | "ping for feedback" is eligible iff the current stage has an unsubmitted score; "follow up / reschedule" iff it has a declined RSVP; "schedule interview" iff the next stage has a non-empty schedule or the current stage is missing or has no interviews, once for each of these that holds; "make a decision" iff the current stage has interviews and neither of the two problems; no other action occurs twice |
| NextActions.InferNextAction | src/generate.ts:144-150 | the chosen action is always one of the eligible actions |
| NextActions.EveryEligibleActionIsDrawable | src/generate.ts:150 | every eligible action is the outcome of some draw |
| NextActions.NoDecisionWhileFeedbackPending | src/generate.ts:125-142 | while some interviewer of the current stage has not submitted feedback, the chosen action is never "make a decision" |
| NextActions.DoubleScheduleIsCertain | src/generate.ts:98-150 | whenever "schedule interview" is eligible twice, the eligible list is exactly those two entries and every draw recommends scheduling |
| NextActions.ScenarioNothingVisited | src/generate.ts:114-123 | with no visited stage and a scheduled next stage, the eligible list is exactly "schedule interview" twice |
| NextActions.ScenarioFeedbackPending | src/generate.ts:88-142 | a current stage whose only interviewer accepted but has not scored gives "ping" and neither "follow up" nor "decision" |
| UrgencySignals.MessagePool | src/generate.ts:160-175 | each signal type has its own pool of two or three messages |
| UrgencySignals.RemoveAt | src/generate.ts:195 | removing the chosen type shortens the choices by one, keeps every entry before it in place and shifts every entry after it down by one; from distinct choices it drops the chosen one and keeps the rest distinct |
| UrgencySignals.RemoveAtPermutes | src/generate.ts:195 | splicing removes exactly one occurrence of the chosen entry and keeps all other entries with their multiplicities |
| UrgencySignals.SelectTypes | src/generate.ts:188-196 | the selection has min(count, remaining) types, all drawn from the remaining choices and pairwise distinct |
| UrgencySignals.Messages | src/generate.ts:199-209 | one signal per selected type, in order, each message taken from its own type's pool |
| UrgencySignals.SignalsDistinct | src/generate.ts:177-211 | a draw of count 0 to 3 yields exactly that many signals, at most one per type |
| UrgencySignals.SignalMessagesFromOwnPool | src/generate.ts:198-209 | every generated signal's message belongs to its type's pool |
| UrgencySignals.SelectTypesStep | src/generate.ts:191-196 | one loop step moves the drawn type from the remaining choices to the selection, leaving the final selection unchanged |
| UrgencySignals.GenerateUrgencySignals | src/generate.ts:153-212 | the splice loop yields the draw's signals whatever the stages are; their number is the drawn count and their types are distinct |
| Generate.StartOfDay | src/generate.ts:235 | the start of day is a day boundary at or before the instant, less than a day before it |
| Generate.GenerateVisitedStage | src/generate.ts:221-282 | entry is the reference instant (leave time, or now) minus the drawn days; an exited stage has 0 or 1 interviews, an in-progress stage 4; the first starts at 10:00 on the day before leaving (or two days after now), and the interviews run back to back for the drawn lengths and titles; exited interviewers accepted with a drawn score, in-progress ones drawn RSVP and unsubmitted score; the stage id is fresh |
| Generate.AssignInterviewers | src/generate.ts:248-260 | one interviewer per draw, in order, with the drawn name and photo; accepted with the drawn score once the stage was left, otherwise the drawn RSVP and no feedback; fresh ids from the supply |
| Generate.GeneratedStageHolds | src/generate.ts:225-269 | a stage built from valid draws has the generated shape: entered at least three days before its reference instant, interviews back to back and well formed, exited interviews inside the stage, in-progress interviews after now |
| Generate.ChainedIsChronological | src/generate.ts:26-36 | when each stage is left exactly when the next is entered, and each exited stage was entered before it was left, the entry instants strictly increase along the list |
| Generate.InProgressStageAwaitsFeedback | src/generate.ts:237-258 | a generated in-progress stage has interviews and a pending score |
| Generate.GeneratedSnapshotActions | src/generate.ts:60-61 | when the current stage is a generated in-progress stage and the next stage has a schedule, "ping" is eligible, "schedule interview" is eligible exactly once and "make a decision" is not |
| Generate.ReversedTwice | src/generate.ts:58 | reversing twice gives back the original list |
| Generate.ReversedPermutes | src/generate.ts:58 | reversal keeps every stage with its multiplicity, it only reorders |
| Generate.ReverseInPlace | src/generate.ts:58 | the in-place swap loop leaves the array holding its old contents in the opposite order |
| Generate.ReverseStages | src/generate.ts:58 | reversing the walked stages in a fresh array yields the reversed walk |
| Generate.WalkVisitedStages | src/generate.ts:26-36 | the backward walk yields one generated stage per plan stage, last one first; the first is in progress and each later one is left when its successor was entered |
| Generate.ReversedWalkIsChained | src/generate.ts:26-58 | reversing the walk gives stages in plan order, each left exactly when the next was entered |
| Generate.GenerateUpcomingStages | src/generate.ts:38-56 | one upcoming entry per remaining plan stage, in order; only the first carries a schedule of three interviews with drawn titles, the rest an empty one |
| Generate.GenerateInterviewProgress | src/generate.ts:21-73 | the snapshot has the three visited plan stages in order, chained and chronological, only the last in progress; the seven later plan stages are upcoming; the next action is inferred from them, "ping" is eligible, "schedule" exactly once, and "decision" is never drawn; the signals are the drawn ones |
| TimeUtils.RoundHalfUp | src/utils/timeUtils.ts:26-29 | the result is the nearest integer to the quotient, a half rounded up |
| TimeUtils.Measure | src/utils/timeUtils.ts:20-31 | hours are used exactly when the span is under 24 hours, and the amount is the span rounded half up in that unit |
| TimeUtils.SpanText | src/utils/timeUtils.ts:25-31 | the unit word ends in "s" exactly when the amount is not 1 |
| TimeUtils.FormatTimeSpent | src/utils/timeUtils.ts:12-34 | the text ends in " ago" exactly when the suffix is requested |
| TimeUtils.ParseIntToString | src/utils/timeUtils.ts:27 | the printed amount reads back as the same integer |
| TimeUtils.ParseRendered | src/utils/timeUtils.ts:27-33 | a span's text, with or without " ago", reads back as that span and that choice |
| TimeUtils.FormatTimeSpentRoundTrip | src/utils/timeUtils.ts:12-34 | reading the text back gives the measured span from start to end (or to now) and the suffix flag |
| TimeUtils.MeasureExamples | src/utils/timeUtils.ts:25-30 | 1 h measures as 1 hour; 25 h as 1 day; 23.5 h rounds to 24 but stays in hours; a negative half hour rounds to 0 hours |
| TimeUtils.TextExamples | src/utils/timeUtils.ts:27-33 | "1 hour", "1 day ago" and "24 hours" |
| InterviewHistory.InitiallyExpanded | src/components/InterviewHistory/InterviewHistory.tsx:19-25 | a stage id starts expanded exactly when some visited stage with that id is in progress and has interviews |
| InterviewHistory.Toggled | src/components/InterviewHistory/InterviewHistory.tsx:31-37 | toggling flips the membership of the toggled id and leaves every other id as it was |
| InterviewHistory.ToggleTwice | src/components/InterviewHistory/InterviewHistory.tsx:29-39 | toggling the same id twice restores the set |
| InterviewHistory.ToggleUpcomingKeepsVisited | src/components/InterviewHistory/InterviewHistory.tsx:51-65 | toggling an upcoming stage's row flips that row alone; every visited stage whose key differs keeps its expansion |
| InterviewHistory.ExpansionState.constructor | src/components/InterviewHistory/InterviewHistory.tsx:16-27 | the state starts with the initially expanded set |
| InterviewHistory.ExpansionState.ToggleStage | src/components/InterviewHistory/InterviewHistory.tsx:29-39 | the state becomes the toggled copy of the previous set |
| InterviewHistory.GeneratedSnapshotExpandsCurrentStage | src/components/InterviewHistory/InterviewHistory.tsx:19-25 | in a generated snapshot exactly the last visited stage starts expanded |
| CandidateProgress.EarliestStage | src/components/CandidateProgress/CandidateProgress.tsx:12-16 | the reduce keeps a stage entered no later than any other, and the first one with that entry |
| CandidateProgress.GetEarliestStageEntry | src/components/CandidateProgress/CandidateProgress.tsx:9-19 | no entry exactly when nothing was visited; otherwise some stage's entry, no later than every stage's |
| CandidateProgress.ChronologicalEarliestIsFirst | src/components/CandidateProgress/CandidateProgress.tsx:12-18 | for stages in generated (chronological) order the earliest entry is the first stage's |

## Left out

- Rendering: the React components, styles, icons, avatars and click handling. Of the
  interview-history component only the expanded-id set is modelled. `isStageExpanded` is set
  membership (`InterviewHistory.ExpansionState.IsStageExpanded`). Visited and upcoming stages use
  their own ids as keys in the same set (`VisitedKey`, `UpcomingKey`). Whether a visited stage's
  id can equal an upcoming plan stage's id is not modelled: the UUIDs are counter values here.
- Random distributions: only which values a draw can take is modelled, not how likely each one is.
  For example, the weights 1:3:2:1 of the signal count are not modelled. Nor is the rule of the
  `unique-random-array` helper that the same title, RSVP or score is not drawn twice in a row,
  so the model allows such repeats.
- Names and avatar URLs come from a fake-data library. They are arbitrary strings in the draws.
- Generate.GenerateVisitedStage: UUIDs are counter values, and the contract states only that the
  stage id comes fresh from the supply. It does not state that all interviewer, user and interview
  ids are pairwise distinct, or that they differ from the plan's ids.
- Generate.ValidStageDraw asks for at least four interview draws even for exited stages, which use
  at most one. The unused draws have no effect.
- Dates: time zones, daylight-saving transitions, calendar-aware day differences, ISO-8601
  parsing and printing, and invalid dates (NaN) are not modelled. A day is always 24 hours and
  "start of day" is taken in UTC.
- TimeUtils.FormatTimeSpent: an empty end string counts as "no end" in the source. The model has
  only present or absent ends. Fractional hours and days are exact integer arithmetic here, not
  floating point.
- `generateInterview` (src/generate.ts:284-289) is `Generate.GenerateInterview`. It has no
  property of its own beyond pairing a fresh id with a title.
