/**
 * The entities of an interview-progress snapshot (src/types.ts).
 *
 * Identifiers are abstract values (`Id`); instants are integer milliseconds
 * since an arbitrary epoch, standing for the ISO strings of the source.
 */
module Types {

  datatype Option<+T> = None | Some(value: T)

  /** An opaque identifier; the source draws these from a UUID generator. */
  type Id = nat

  /** An instant, in milliseconds. */
  type Instant = int

  /**
   * A uniform random index into a list of length `n`, modelled as an arbitrary
   * natural `r` reduced modulo `n`: always in range, and every index is reached.
   */
  function PickIndex(r: nat, n: nat): (k: nat)
    requires n > 0
    ensures k < n
    ensures r < n ==> k == r
  {
    r % n
  }

  /** A named step of the interview plan. */
  datatype InterviewStage = InterviewStage(id: Id, title: string)

  /** An interview type that can be scheduled. */
  datatype Interview = Interview(id: Id, title: string)

  datatype User = User(id: Id, name: string, profilePhotoUrl: string)

  /**
   * Calendar response of an interviewer. The declared type spells the middle
   * value "tenative"; the generator and the UI both use "tentative", which is
   * the spelling kept here.
   */
  datatype Rsvp = Accepted | Tentative | Declined

  /** A submitted rating is one of 1, 2, 3 or 4. */
  type Rating = n: int | 1 <= n <= 4 witness 1

  datatype Score = Rated(points: Rating) | Unsubmitted

  /** An absent RSVP means "no response yet"; an absent score is not "unsubmitted". */
  datatype Interviewer = Interviewer(id: Id, user: User, rsvp: Option<Rsvp>, score: Option<Score>)

  datatype ScheduledInterview = ScheduledInterview(
    id: Id,
    interview: Interview,
    start: Instant,
    end: Instant,
    interviewers: seq<Interviewer>)

  /** A stage the candidate entered; `leftAt == None` means it is still in progress. */
  datatype VisitedStage = VisitedStage(
    id: Id,
    stage: InterviewStage,
    enteredAt: Instant,
    leftAt: Option<Instant>,
    interviews: seq<ScheduledInterview>)

  /** A stage not yet entered, with an optional (possibly empty) list of interviews to schedule. */
  datatype UpcomingStage = UpcomingStage(stage: InterviewStage, schedule: Option<seq<Interview>>)

  datatype NextAction = ScheduleInterview | FollowUpReschedule | PingForFeedback | MakeDecision

  datatype SignalType = DaysInStage | StrongFeedback | UpcomingInterviewIssues

  datatype UrgencySignal = UrgencySignal(kind: SignalType, message: string)

  datatype InterviewProgress = InterviewProgress(
    visited: seq<VisitedStage>,
    upcoming: seq<UpcomingStage>,
    nextAction: NextAction,
    signals: seq<UrgencySignal>)
}
