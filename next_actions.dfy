/**
 * Next-action inference (`inferNextAction`, src/generate.ts): a list of
 * eligible actions is built from the most recent visited stage and the first
 * upcoming stage, then one entry of it is drawn at random.
 *
 * The random draw is a natural number `pick`, reduced modulo the length of
 * the list; every entry is reached by some pick.
 */
module NextActions {
  import opened Types

  /** Some interviewer of some interview of `stage` has the score "unsubmitted" (an absent score does not count). */
  predicate HasUnsubmittedFeedback(stage: VisitedStage) {
    exists iv, p :: iv in stage.interviews && p in iv.interviewers && p.score == Some(Unsubmitted)
  }

  /** Some interviewer of some interview of `stage` declined. */
  predicate HasDeclinedRsvp(stage: VisitedStage) {
    exists iv, p :: iv in stage.interviews && p in iv.interviewers && p.rsvp == Some(Declined)
  }

  /** There is a current (last visited) stage and it has at least one interview. */
  predicate CurrentHasInterviews(visited: seq<VisitedStage>) {
    |visited| > 0 && |visited[|visited| - 1].interviews| > 0
  }

  /** The first upcoming stage carries a non-empty interview schedule. */
  predicate NextStageHasSchedule(upcoming: seq<UpcomingStage>) {
    |upcoming| > 0 && upcoming[0].schedule.Some? && |upcoming[0].schedule.value| > 0
  }

  predicate PingEligible(visited: seq<VisitedStage>) {
    CurrentHasInterviews(visited) && HasUnsubmittedFeedback(visited[|visited| - 1])
  }

  predicate FollowUpEligible(visited: seq<VisitedStage>) {
    CurrentHasInterviews(visited) && HasDeclinedRsvp(visited[|visited| - 1])
  }

  /**
   * The eligible list in terms of the four tests it is built from: pending
   * feedback, a declined RSVP (both only counted when the current stage has
   * interviews), a schedule on the next stage, and a current stage with interviews.
   * Entries come in the order the source pushes them; SCHEDULE_INTERVIEW may be
   * pushed by two independent rules and is not de-duplicated.
   */
  function ActionList(ping: bool, followUp: bool, nextScheduled: bool, withInterviews: bool): (actions: seq<NextAction>)
    requires ping || followUp ==> withInterviews
    ensures |actions| >= 1
    ensures PingForFeedback in actions <==> ping
    ensures FollowUpReschedule in actions <==> followUp
    ensures MakeDecision in actions <==> withInterviews && !ping && !followUp
    ensures ScheduleInterview in actions <==> !withInterviews || nextScheduled
  {
    When(ping, PingForFeedback) + When(followUp, FollowUpReschedule)
      + When(nextScheduled, ScheduleInterview) + When(!withInterviews, ScheduleInterview)
      + When(withInterviews && !ping && !followUp, MakeDecision)
  }

  /** The one-entry list `[a]` when `b` holds, else the empty list: one guarded push. */
  function When(b: bool, a: NextAction): seq<NextAction> {
    if b then [a] else []
  }

  /** The number of entries of `s` equal to `a`. */
  function Occurrences(s: seq<NextAction>, a: NextAction): nat {
    if |s| == 0 then 0 else (if s[0] == a then 1 else 0) + Occurrences(s[1..], a)
  }

  lemma {:induction false} OccurrencesAppend(s: seq<NextAction>, t: seq<NextAction>, a: NextAction)
    ensures Occurrences(s + t, a) == Occurrences(s, a) + Occurrences(t, a)
  {
    if |s| > 0 {
      assert (s + t)[1..] == s[1..] + t;
      OccurrencesAppend(s[1..], t, a);
    } else {
      assert s + t == t;
    }
  }

  /** A guarded push contributes one occurrence of its action when its guard holds, and none otherwise. */
  lemma WhenOccurrences(b: bool, a: NextAction, x: NextAction)
    ensures Occurrences(When(b, a), x) == if b && a == x then 1 else 0
  {
    if b {
      assert When(b, a)[1..] == [];
    }
  }

  /** How many of the five rules push `x`: SCHEDULE_INTERVIEW has two rules, every other action one. */
  function RulesPushing(ping: bool, followUp: bool, nextScheduled: bool, withInterviews: bool, x: NextAction): nat {
    match x
    case PingForFeedback => (if ping then 1 else 0)
    case FollowUpReschedule => (if followUp then 1 else 0)
    case MakeDecision => (if withInterviews && !ping && !followUp then 1 else 0)
    case ScheduleInterview => (if nextScheduled then 1 else 0) + (if withInterviews then 0 else 1)
  }

  /**
   * How often each action occurs in the list: once per rule that pushes it.
   * So SCHEDULE_INTERVIEW occurs twice exactly when both of its rules fire,
   * and every other action at most once.
   */
  lemma ActionListCount(ping: bool, followUp: bool, nextScheduled: bool, withInterviews: bool)
    requires ping || followUp ==> withInterviews
    ensures forall x :: Occurrences(ActionList(ping, followUp, nextScheduled, withInterviews), x) ==
              RulesPushing(ping, followUp, nextScheduled, withInterviews, x)
  {
    var p, f := When(ping, PingForFeedback), When(followUp, FollowUpReschedule);
    var s1, s2 := When(nextScheduled, ScheduleInterview), When(!withInterviews, ScheduleInterview);
    var m := When(withInterviews && !ping && !followUp, MakeDecision);
    var actions := ActionList(ping, followUp, nextScheduled, withInterviews);
    forall x ensures Occurrences(actions, x) == RulesPushing(ping, followUp, nextScheduled, withInterviews, x)
    {
      OccurrencesAppend(p + f + s1 + s2, m, x);
      OccurrencesAppend(p + f + s1, s2, x);
      OccurrencesAppend(p + f, s1, x);
      OccurrencesAppend(p, f, x);
      WhenOccurrences(ping, PingForFeedback, x);
      WhenOccurrences(followUp, FollowUpReschedule, x);
      WhenOccurrences(nextScheduled, ScheduleInterview, x);
      WhenOccurrences(!withInterviews, ScheduleInterview, x);
      WhenOccurrences(withInterviews && !ping && !followUp, MakeDecision, x);
    }
  }

  /** The eligible actions for a snapshot's visited and upcoming stages. */
  function EligibleActions(visited: seq<VisitedStage>, upcoming: seq<UpcomingStage>): (actions: seq<NextAction>)
    ensures |actions| >= 1
    ensures PingForFeedback in actions <==> PingEligible(visited)
    ensures FollowUpReschedule in actions <==> FollowUpEligible(visited)
    ensures MakeDecision in actions <==>
              CurrentHasInterviews(visited) && !PingEligible(visited) && !FollowUpEligible(visited)
    ensures ScheduleInterview in actions <==> !CurrentHasInterviews(visited) || NextStageHasSchedule(upcoming)
    ensures Occurrences(actions, ScheduleInterview) ==
              (if NextStageHasSchedule(upcoming) then 1 else 0) + (if CurrentHasInterviews(visited) then 0 else 1)
    ensures forall a :: a != ScheduleInterview ==> Occurrences(actions, a) <= 1
  {
    var ping, followUp := PingEligible(visited), FollowUpEligible(visited);
    var nextScheduled, withInterviews := NextStageHasSchedule(upcoming), CurrentHasInterviews(visited);
    ActionListCount(ping, followUp, nextScheduled, withInterviews);
    ActionList(ping, followUp, nextScheduled, withInterviews)
  }

  /** The recommended action: the entry `pick` (modulo the length) of the eligible list. */
  function InferNextAction(visited: seq<VisitedStage>, upcoming: seq<UpcomingStage>, pick: nat): (action: NextAction)
    ensures action in EligibleActions(visited, upcoming)
  {
    var eligible := EligibleActions(visited, upcoming);
    if |eligible| == 0 then ScheduleInterview
    else eligible[PickIndex(pick, |eligible|)]
  }

  /** Every eligible action is the outcome of some draw. */
  lemma EveryEligibleActionIsDrawable(visited: seq<VisitedStage>, upcoming: seq<UpcomingStage>, action: NextAction)
    requires action in EligibleActions(visited, upcoming)
    ensures exists pick: nat :: InferNextAction(visited, upcoming, pick) == action
  {
    var eligible := EligibleActions(visited, upcoming);
    var k :| 0 <= k < |eligible| && eligible[k] == action;
    assert InferNextAction(visited, upcoming, k) == eligible[k];
  }

  /** With unsubmitted feedback pending in the current stage, MAKE_DECISION is never chosen. */
  lemma NoDecisionWhileFeedbackPending(visited: seq<VisitedStage>, upcoming: seq<UpcomingStage>, pick: nat)
    requires |visited| > 0
    requires exists iv, p :: iv in visited[|visited| - 1].interviews && p in iv.interviewers && p.score == Some(Unsubmitted)
    ensures InferNextAction(visited, upcoming, pick) != MakeDecision
  {
  }

  /**
   * The duplicated SCHEDULE_INTERVIEW never biases a draw: whenever both
   * scheduling rules fire, the list holds nothing else, so every draw
   * recommends scheduling.
   */
  lemma DoubleScheduleIsCertain(visited: seq<VisitedStage>, upcoming: seq<UpcomingStage>)
    ensures Occurrences(EligibleActions(visited, upcoming), ScheduleInterview) == 2 ==>
              && EligibleActions(visited, upcoming) == [ScheduleInterview, ScheduleInterview]
              && forall pick: nat :: InferNextAction(visited, upcoming, pick) == ScheduleInterview
  {
    if Occurrences(EligibleActions(visited, upcoming), ScheduleInterview) == 2 {
      assert !CurrentHasInterviews(visited) && NextStageHasSchedule(upcoming);
      assert EligibleActions(visited, upcoming) == ActionList(false, false, true, false);
    }
  }

  /** No visited stage and a next stage with a schedule: both scheduling rules fire, and nothing else. */
  lemma ScenarioNothingVisited(upcoming: seq<UpcomingStage>)
    requires NextStageHasSchedule(upcoming)
    ensures EligibleActions([], upcoming) == [ScheduleInterview, ScheduleInterview]
  {
  }

  /** A current stage whose only interviewer accepted but has not submitted feedback. */
  lemma ScenarioFeedbackPending(stage: VisitedStage, p: Interviewer)
    requires |stage.interviews| == 1 && stage.interviews[0].interviewers == [p]
    requires p.score == Some(Unsubmitted) && p.rsvp == Some(Accepted)
    ensures var actions := EligibleActions([stage], []);
      PingForFeedback in actions && FollowUpReschedule !in actions && MakeDecision !in actions
  {
    assert stage.interviews[0] in stage.interviews && p in stage.interviews[0].interviewers;
  }
}
