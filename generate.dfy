/**
 * Synthesis of an interview-progress snapshot (`generateVisitedStage`,
 * `generateInterviewProgress` and `generateInterview`, src/generate.ts).
 *
 * The clock ("now") is a parameter, and every random draw is a parameter
 * whose domain is stated by a `Valid...Draw` predicate: a value drawn from a
 * fixed literal pool is passed as that value, an index into a list as a
 * natural number reduced modulo the list's length. Identifiers come from a
 * supply: `ids` is the next unused one, and each call returns the next
 * unused one after it.
 */
module Generate {
  import opened Types
  import opened Data
  import NextActions
  import UrgencySignals

  const MsPerMinute: int := 60_000
  const MsPerHour: int := 3_600_000
  const MsPerDay: int := 86_400_000

  /** `startOf("day")`: the last day boundary at or before `t` (time zones are not modelled). */
  function StartOfDay(t: Instant): (day: Instant)
    ensures day <= t < day + MsPerDay
    ensures day % MsPerDay == 0
  {
    t - t % MsPerDay
  }

  /** The random values one interviewer assignment consumes. */
  datatype InterviewerDraw = InterviewerDraw(name: string, photoUrl: string, rsvp: Rsvp, score: Score)

  /** The random values one scheduled interview consumes: its length, its title and its interviewers. */
  datatype InterviewDraw = InterviewDraw(minutes: int, title: string, interviewers: seq<InterviewerDraw>)

  /**
   * The random values one visited stage consumes: days spent in the stage, the
   * interview count of an exited stage, and draws for up to four interviews.
   */
  datatype StageDraw = StageDraw(daysAgo: int, exitedCount: int, interviews: seq<InterviewDraw>)

  /** Lengths come from [30, 45, 60, 90], interviewer counts from [1, 2], titles from the title pool. */
  predicate ValidInterviewDraw(d: InterviewDraw) {
    d.minutes in {30, 45, 60, 90} && d.title in InterviewTitles() && 1 <= |d.interviewers| <= 2
  }

  /** Days come from [3, 5, 7, 14] and an exited stage's interview count from [0, 1]. */
  predicate ValidStageDraw(d: StageDraw) {
    && d.daysAgo in {3, 5, 7, 14}
    && d.exitedCount in {0, 1}
    && |d.interviews| >= 4
    && forall i :: 0 <= i < |d.interviews| ==> ValidInterviewDraw(d.interviews[i])
  }

  /** `generateInterview`: a schedulable interview with a fresh id and the given title. */
  function GenerateInterview(id: Id, title: string): Interview {
    Interview(id, title)
  }

  /** The instant a stage's timeline is measured back from: its exit, or now while in progress. */
  function Reference(leftAt: Option<Instant>, now: Instant): Instant {
    if leftAt.Some? then leftAt.value else now
  }

  /** Interviews are packed back to back: each one ends when the next one starts. */
  predicate BackToBack(interviews: seq<ScheduledInterview>) {
    forall i :: 0 <= i < |interviews| - 1 ==> interviews[i].end == interviews[i + 1].start
  }

  /** An interview lasts 30, 45, 60 or 90 minutes, has one or two interviewers and a title from the pool. */
  predicate WellShaped(iv: ScheduledInterview) {
    && iv.end - iv.start in {30 * MsPerMinute, 45 * MsPerMinute, 60 * MsPerMinute, 90 * MsPerMinute}
    && 1 <= |iv.interviewers| <= 2
    && iv.interview.title in InterviewTitles()
  }

  /** An interviewer as assigned from a draw: accepted with a drawn score once the stage was left, else a drawn RSVP and no feedback yet. */
  predicate AssignedFrom(p: Interviewer, d: InterviewerDraw, exited: bool) {
    && p.user.name == d.name
    && p.user.profilePhotoUrl == d.photoUrl
    && p.rsvp == Some(if exited then Accepted else d.rsvp)
    && p.score == Some(if exited then d.score else Unsubmitted)
  }

  /** A scheduled interview built from its draw. */
  predicate ScheduledFrom(iv: ScheduledInterview, d: InterviewDraw, exited: bool) {
    && iv.end - iv.start == d.minutes * MsPerMinute
    && iv.interview.title == d.title
    && |iv.interviewers| == |d.interviewers|
    && forall m :: 0 <= m < |iv.interviewers| ==> AssignedFrom(iv.interviewers[m], d.interviewers[m], exited)
  }

  /**
   * What the generator guarantees of every visited stage: it was entered at
   * least three days before its reference instant; its interviews are packed
   * back to back and well shaped; an in-progress stage has exactly four
   * interviews, all in the future, whose interviewers have RSVPs and
   * "unsubmitted" scores; an exited stage has at most one interview, inside
   * its stay, whose interviewers accepted and carry a score (which may be
   * "unsubmitted").
   */
  predicate GeneratedStage(s: VisitedStage, now: Instant) {
    && s.enteredAt <= Reference(s.leftAt, now) - 3 * MsPerDay
    && BackToBack(s.interviews)
    && (forall i :: 0 <= i < |s.interviews| ==> WellShaped(s.interviews[i]))
    && (s.leftAt.None? ==>
          && |s.interviews| == 4
          && forall i :: 0 <= i < |s.interviews| ==>
               && now < s.interviews[i].start
               && forall m :: 0 <= m < |s.interviews[i].interviewers| ==>
                    s.interviews[i].interviewers[m].rsvp.Some? &&
                    s.interviews[i].interviewers[m].score == Some(Unsubmitted))
    && (s.leftAt.Some? ==>
          && |s.interviews| <= 1
          && forall i :: 0 <= i < |s.interviews| ==>
               && s.enteredAt < s.interviews[i].start
               && s.interviews[i].end < s.leftAt.value
               && forall m :: 0 <= m < |s.interviews[i].interviewers| ==>
                    s.interviews[i].interviewers[m].rsvp == Some(Accepted) &&
                    s.interviews[i].interviewers[m].score.Some?)
  }

  /** The first interview of a stage starts at 10:00 the day before it was left, or two days from now. */
  function FirstInterviewStart(leftAt: Option<Instant>, now: Instant): Instant {
    StartOfDay(if leftAt.Some? then leftAt.value - MsPerDay else now + 2 * MsPerDay) + 10 * MsPerHour
  }

  /**
   * Synthesises the visited-stage record of `stage`, which was left at
   * `leftAt` (or is in progress when that is absent), and returns it with its
   * entry instant.
   */
  method GenerateVisitedStage(stage: InterviewStage, leftAt: Option<Instant>, now: Instant, d: StageDraw, ids: Id)
    returns (visited: VisitedStage, enteredAt: Instant, nextId: Id)
    requires ValidStageDraw(d)
    ensures visited.stage == stage && visited.leftAt == leftAt && visited.enteredAt == enteredAt
    ensures enteredAt == Reference(leftAt, now) - d.daysAgo * MsPerDay
    ensures |visited.interviews| == if leftAt.None? then 4 else d.exitedCount
    ensures forall i :: 0 <= i < |visited.interviews| ==>
              ScheduledFrom(visited.interviews[i], d.interviews[i], leftAt.Some?)
    ensures |visited.interviews| > 0 ==> visited.interviews[0].start == FirstInterviewStart(leftAt, now)
    ensures GeneratedStage(visited, now)
    ensures ids <= visited.id < nextId
  {
    var reference := if leftAt.Some? then leftAt.value else now;
    enteredAt := reference - d.daysAgo * MsPerDay;
    var nextInterviewStart := FirstInterviewStart(leftAt, now);
    var interviewCount := if leftAt.Some? then d.exitedCount else 4;
    var exited := leftAt.Some?;
    var next := ids;
    var interviews: seq<ScheduledInterview> := [];
    var i := 0;
    while i < interviewCount
      invariant 0 <= i <= interviewCount
      invariant |interviews| == i
      invariant next >= ids
      invariant nextInterviewStart == if i == 0 then FirstInterviewStart(leftAt, now) else interviews[i - 1].end
      invariant |interviews| > 0 ==> interviews[0].start == FirstInterviewStart(leftAt, now)
      invariant nextInterviewStart >= FirstInterviewStart(leftAt, now)
      invariant BackToBack(interviews)
      invariant forall k :: 0 <= k < i ==> ScheduledFrom(interviews[k], d.interviews[k], exited)
      invariant forall k :: 0 <= k < i ==> interviews[k].start >= FirstInterviewStart(leftAt, now)
    {
      var draw := d.interviews[i];
      var start := nextInterviewStart;
      var end := start + draw.minutes * MsPerMinute;
      var interviewers;
      interviewers, next := AssignInterviewers(draw.interviewers, exited, next);
      var scheduled := ScheduledInterview(next, GenerateInterview(next + 1, draw.title), start, end, interviewers);
      next := next + 2;
      interviews := interviews + [scheduled];
      nextInterviewStart := end;
      i := i + 1;
    }
    visited := VisitedStage(next, stage, enteredAt, leftAt, interviews);
    nextId := next + 1;
    GeneratedStageHolds(visited, now, d, exited);
  }

  /**
   * The interviewer loop of one interview: one interviewer per draw, each
   * consuming two identifiers (the assignment's and its user's).
   */
  method AssignInterviewers(draws: seq<InterviewerDraw>, exited: bool, ids: Id)
    returns (interviewers: seq<Interviewer>, nextId: Id)
    ensures |interviewers| == |draws|
    ensures forall m :: 0 <= m < |draws| ==> AssignedFrom(interviewers[m], draws[m], exited)
    ensures forall m :: 0 <= m < |draws| ==> ids <= interviewers[m].id < nextId
    ensures nextId >= ids
  {
    nextId := ids;
    interviewers := [];
    var j := 0;
    while j < |draws|
      invariant 0 <= j <= |draws|
      invariant |interviewers| == j
      invariant nextId >= ids
      invariant forall m :: 0 <= m < j ==> AssignedFrom(interviewers[m], draws[m], exited)
      invariant forall m :: 0 <= m < j ==> ids <= interviewers[m].id < nextId
    {
      var p := draws[j];
      interviewers := interviewers + [Interviewer(
        nextId,
        User(nextId + 1, p.name, p.photoUrl),
        Some(if exited then Accepted else p.rsvp),
        Some(if exited then p.score else Unsubmitted))];
      nextId := nextId + 2;
      j := j + 1;
    }
  }

  /** The timeline facts of `GeneratedStage`, from the draws and the packing. */
  lemma GeneratedStageHolds(s: VisitedStage, now: Instant, d: StageDraw, exited: bool)
    requires ValidStageDraw(d)
    requires exited == s.leftAt.Some?
    requires s.enteredAt == Reference(s.leftAt, now) - d.daysAgo * MsPerDay
    requires |s.interviews| == if s.leftAt.None? then 4 else d.exitedCount
    requires forall i :: 0 <= i < |s.interviews| ==> ScheduledFrom(s.interviews[i], d.interviews[i], exited)
    requires forall i :: 0 <= i < |s.interviews| ==> s.interviews[i].start >= FirstInterviewStart(s.leftAt, now)
    requires |s.interviews| > 0 ==> s.interviews[0].start == FirstInterviewStart(s.leftAt, now)
    requires BackToBack(s.interviews)
    ensures GeneratedStage(s, now)
  {
    forall i | 0 <= i < |s.interviews| ensures WellShaped(s.interviews[i]) {
      assert ValidInterviewDraw(d.interviews[i]);
    }
    if s.leftAt.Some? && |s.interviews| == 1 {
      var iv := s.interviews[0];
      var leftAt := s.leftAt.value;
      assert iv.start == StartOfDay(leftAt - MsPerDay) + 10 * MsPerHour;
      assert iv.end <= iv.start + 90 * MsPerMinute by {
        assert ValidInterviewDraw(d.interviews[0]);
      }
    }
  }

  /** Each stage's exit instant is the next stage's entry instant. */
  predicate Chained(visited: seq<VisitedStage>) {
    forall k :: 0 <= k < |visited| - 1 ==> visited[k].leftAt == Some(visited[k + 1].enteredAt)
  }

  /** Entry instants strictly increase along the list. */
  predicate Chronological(visited: seq<VisitedStage>) {
    forall j, k :: 0 <= j < k < |visited| ==> visited[j].enteredAt < visited[k].enteredAt
  }

  /** A chained list of stages, each entered before it was left, is strictly chronological. */
  lemma {:induction false} ChainedIsChronological(visited: seq<VisitedStage>)
    requires Chained(visited)
    requires forall k :: 0 <= k < |visited| ==>
               visited[k].leftAt.Some? ==> visited[k].enteredAt < visited[k].leftAt.value
    ensures Chronological(visited)
  {
    if |visited| > 1 {
      ChainedIsChronological(visited[1..]);
      forall k | 1 <= k < |visited| ensures visited[0].enteredAt < visited[k].enteredAt {
        assert visited[0].enteredAt < visited[1].enteredAt;
        if k > 1 {
          assert visited[1..][0].enteredAt < visited[1..][k - 1].enteredAt;
        }
      }
      forall j, k | 0 <= j < k < |visited| ensures visited[j].enteredAt < visited[k].enteredAt {
        if j > 0 {
          assert visited[1..][j - 1].enteredAt < visited[1..][k - 1].enteredAt;
        }
      }
    }
  }

  /** An in-progress generated stage always has an interviewer whose score is "unsubmitted". */
  lemma InProgressStageAwaitsFeedback(s: VisitedStage, now: Instant)
    requires GeneratedStage(s, now) && s.leftAt.None?
    ensures NextActions.HasUnsubmittedFeedback(s)
  {
    var iv := s.interviews[0];
    assert WellShaped(iv);
    var p := iv.interviewers[0];
    assert iv in s.interviews && p in iv.interviewers && p.score == Some(Unsubmitted);
  }

  /** `visitedStages.reverse()`: the list in the opposite order. */
  function Reversed<T>(s: seq<T>): (r: seq<T>)
    ensures |r| == |s|
    ensures forall k :: 0 <= k < |s| ==> r[k] == s[|s| - 1 - k]
  {
    seq(|s|, k requires 0 <= k < |s| => s[|s| - 1 - k])
  }

  /** Reversing twice gives back the original list. */
  lemma ReversedTwice<T>(s: seq<T>)
    ensures Reversed(Reversed(s)) == s
  {
  }

  /** Reversal only reorders: every element keeps its multiplicity. */
  lemma {:induction false} ReversedPermutes<T>(s: seq<T>)
    ensures multiset(Reversed(s)) == multiset(s)
  {
    if s != [] {
      var n := |s|;
      assert s == s[..n - 1] + [s[n - 1]];
      assert Reversed(s) == [s[n - 1]] + Reversed(s[..n - 1]);
      ReversedPermutes(s[..n - 1]);
    }
  }

  /**
   * `Array.prototype.reverse`: swaps the two ends of the array and moves
   * inwards until they meet, so the array ends up holding its old contents
   * in the opposite order.
   */
  method ReverseInPlace<T>(a: array<T>)
    modifies a
    ensures a[..] == Reversed(old(a[..]))
  {
    var i := 0;
    while i < a.Length / 2
      invariant 0 <= i <= a.Length / 2
      invariant forall k :: 0 <= k < i ==> a[k] == old(a[a.Length - 1 - k]) && a[a.Length - 1 - k] == old(a[k])
      invariant forall k :: i <= k < a.Length - i ==> a[k] == old(a[k])
    {
      a[i], a[a.Length - 1 - i] := a[a.Length - 1 - i], a[i];
      i := i + 1;
    }
  }

  /**
   * The walked list is held in a fresh array and reversed there, in place,
   * as `visitedStages.reverse()` does; its final contents are the result.
   */
  method ReverseStages(walked: seq<VisitedStage>) returns (visited: seq<VisitedStage>)
    ensures visited == Reversed(walked)
  {
    var stages := new VisitedStage[|walked|](k requires 0 <= k < |walked| => walked[k]);
    assert stages[..] == walked;
    ReverseInPlace(stages);
    visited := stages[..];
  }

  /**
   * The backward walk over the visited plan prefix: the most recent stage is
   * generated first, in progress, and each stage's entry instant is passed on
   * as the exit instant of the next older one. The result is in walk order,
   * most recent first.
   */
  method WalkVisitedStages(stages: seq<InterviewStage>, now: Instant, draws: seq<StageDraw>, ids: Id)
    returns (walked: seq<VisitedStage>, nextId: Id)
    requires |draws| == |stages|
    requires forall i :: 0 <= i < |draws| ==> ValidStageDraw(draws[i])
    ensures |walked| == |stages|
    ensures forall k :: 0 <= k < |walked| ==> walked[k].stage == stages[|stages| - 1 - k]
    ensures forall k :: 0 <= k < |walked| ==> GeneratedStage(walked[k], now)
    ensures |walked| > 0 ==> walked[0].leftAt == None
    ensures forall k :: 0 < k < |walked| ==> walked[k].leftAt == Some(walked[k - 1].enteredAt)
    ensures nextId >= ids
  {
    nextId := ids;
    walked := [];
    var lastDate: Option<Instant> := None;
    var i := |stages| - 1;
    while i >= 0
      invariant -1 <= i < |stages|
      invariant |walked| == |stages| - 1 - i
      invariant nextId >= ids
      invariant forall k :: 0 <= k < |walked| ==> walked[k].stage == stages[|stages| - 1 - k]
      invariant forall k :: 0 <= k < |walked| ==> GeneratedStage(walked[k], now)
      invariant |walked| > 0 ==> walked[0].leftAt == None
      invariant forall k :: 0 < k < |walked| ==> walked[k].leftAt == Some(walked[k - 1].enteredAt)
      invariant lastDate == if |walked| == 0 then None else Some(walked[|walked| - 1].enteredAt)
    {
      var visitedStage, enteredAt;
      visitedStage, enteredAt, nextId := GenerateVisitedStage(stages[i], lastDate, now, draws[i], nextId);
      lastDate := Some(enteredAt);
      walked := walked + [visitedStage];
      i := i - 1;
    }
  }

  /** Reversing the walk gives stages in plan order, each one's exit being the next one's entry. */
  lemma {:induction false} ReversedWalkIsChained(walked: seq<VisitedStage>)
    requires forall k :: 0 < k < |walked| ==> walked[k].leftAt == Some(walked[k - 1].enteredAt)
    ensures Chained(Reversed(walked))
  {
    var visited := Reversed(walked);
    forall k | 0 <= k < |visited| - 1 ensures visited[k].leftAt == Some(visited[k + 1].enteredAt) {
      assert walked[|walked| - 1 - k].leftAt == Some(walked[|walked| - 1 - k - 1].enteredAt);
    }
  }

  /**
   * The stages after the cursor, in plan order; only the first is given a
   * schedule of three proposed interviews with the drawn titles, the others
   * an empty one.
   */
  method GenerateUpcomingStages(plan: seq<InterviewStage>, from: nat, titles: seq<string>, ids: Id)
    returns (upcoming: seq<UpcomingStage>, nextId: Id)
    requires from <= |plan|
    requires |titles| == 3
    ensures |upcoming| == |plan| - from
    ensures forall k :: 0 <= k < |upcoming| ==> upcoming[k].stage == plan[from + k]
    ensures |upcoming| > 0 ==>
              && upcoming[0].schedule.Some? && |upcoming[0].schedule.value| == 3
              && forall m :: 0 <= m < 3 ==> upcoming[0].schedule.value[m].title == titles[m]
    ensures forall k :: 1 <= k < |upcoming| ==> upcoming[k].schedule == Some([])
    ensures nextId >= ids
  {
    nextId := ids;
    upcoming := [];
    var j := from;
    while j < |plan|
      invariant from <= j <= |plan|
      invariant |upcoming| == j - from
      invariant nextId >= ids
      invariant forall k :: 0 <= k < |upcoming| ==> upcoming[k].stage == plan[from + k]
      invariant |upcoming| > 0 ==>
                  && upcoming[0].schedule.Some? && |upcoming[0].schedule.value| == 3
                  && forall m :: 0 <= m < 3 ==> upcoming[0].schedule.value[m].title == titles[m]
      invariant forall k :: 1 <= k < |upcoming| ==> upcoming[k].schedule == Some([])
    {
      var schedule: seq<Interview> := [];
      if j == from {
        schedule := [
          GenerateInterview(nextId, titles[0]),
          GenerateInterview(nextId + 1, titles[1]),
          GenerateInterview(nextId + 2, titles[2])];
        nextId := nextId + 3;
      }
      upcoming := upcoming + [UpcomingStage(plan[j], Some(schedule))];
      j := j + 1;
    }
  }

  /**
   * In a snapshot whose current stage is a generated in-progress stage and
   * whose next stage has a schedule, feedback is always pending: "ping" is
   * eligible, "schedule interview" is eligible exactly once (only through the
   * next stage's schedule) and "make a decision" never is.
   */
  lemma GeneratedSnapshotActions(visited: seq<VisitedStage>, upcoming: seq<UpcomingStage>, now: Instant)
    requires |visited| > 0 && visited[|visited| - 1].leftAt.None?
    requires GeneratedStage(visited[|visited| - 1], now)
    requires NextActions.NextStageHasSchedule(upcoming)
    ensures var eligible := NextActions.EligibleActions(visited, upcoming);
      && PingForFeedback in eligible
      && NextActions.Occurrences(eligible, ScheduleInterview) == 1
      && MakeDecision !in eligible
  {
    InProgressStageAwaitsFeedback(visited[|visited| - 1], now);
    assert NextActions.CurrentHasInterviews(visited);
    assert NextActions.PingEligible(visited);
  }

  /** All random values one snapshot consumes. */
  datatype ProgressDraw = ProgressDraw(
    stages: seq<StageDraw>,       // indexed by plan position
    nextTitles: seq<string>,      // titles of the next stage's three proposed interviews
    actionPick: nat,
    signals: UrgencySignals.SignalDraw)

  predicate ValidProgressDraw(d: ProgressDraw) {
    && |d.stages| == NextStageIndex
    && (forall i :: 0 <= i < |d.stages| ==> ValidStageDraw(d.stages[i]))
    && |d.nextTitles| == 3
    && (forall i :: 0 <= i < 3 ==> d.nextTitles[i] in InterviewTitles())
    && UrgencySignals.ValidSignalDraw(d.signals)
  }

  /**
   * Generates a snapshot: the visited prefix of the plan is walked from the
   * most recent stage backwards, each stage's entry instant becoming the
   * older stage's exit instant, and the walked list is then reversed; the
   * remaining plan stages become upcoming stages, only the first of which is
   * given three proposed interviews; the next action and the urgency signals
   * are inferred last.
   */
  method GenerateInterviewProgress(now: Instant, d: ProgressDraw, ids: Id)
    returns (progress: InterviewProgress, nextId: Id)
    requires ValidProgressDraw(d)
    ensures var v := progress.visited;
      && |v| == NextStageIndex
      && (forall k :: 0 <= k < |v| ==> v[k].stage == OrderedInterviewPlan()[k])
      && (forall k :: 0 <= k < |v| ==> GeneratedStage(v[k], now))
      && v[|v| - 1].leftAt == None
      && Chained(v)
      && Chronological(v)
    ensures var u := progress.upcoming;
      && |u| == |OrderedInterviewPlan()| - NextStageIndex
      && (forall k :: 0 <= k < |u| ==> u[k].stage == OrderedInterviewPlan()[NextStageIndex + k])
      && u[0].schedule.Some? && |u[0].schedule.value| == 3
      && (forall m :: 0 <= m < 3 ==> u[0].schedule.value[m].title == d.nextTitles[m])
      && (forall k :: 1 <= k < |u| ==> u[k].schedule == Some([]))
    ensures progress.nextAction == NextActions.InferNextAction(progress.visited, progress.upcoming, d.actionPick)
    ensures PingForFeedback in NextActions.EligibleActions(progress.visited, progress.upcoming)
    ensures NextActions.Occurrences(NextActions.EligibleActions(progress.visited, progress.upcoming), ScheduleInterview) == 1
    ensures progress.nextAction != MakeDecision
    ensures progress.signals == UrgencySignals.Signals(d.signals)
    ensures nextId >= ids
  {
    var plan := OrderedInterviewPlan();
    var walked, upcoming;
    walked, nextId := WalkVisitedStages(VisitedPlanStages(), now, d.stages, ids);
    upcoming, nextId := GenerateUpcomingStages(plan, NextStageIndex, d.nextTitles, nextId);

    var visited := ReverseStages(walked);
    ReversedWalkIsChained(walked);
    assert forall k :: 0 <= k < |visited| ==> GeneratedStage(visited[k], now);
    ChainedIsChronological(visited);
    GeneratedSnapshotActions(visited, upcoming, now);

    var nextAction := NextActions.InferNextAction(visited, upcoming, d.actionPick);
    var signals := UrgencySignals.GenerateUrgencySignals(visited, upcoming, d.signals);
    progress := InterviewProgress(visited, upcoming, nextAction, signals);
  }
}
