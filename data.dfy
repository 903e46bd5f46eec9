/**
 * The fixed configuration the generator reads (src/data.ts): the ordered
 * interview plan, the index of the candidate's first not-yet-entered stage
 * and the pool of interview titles. Stage ids, random in the source, are
 * the plan positions 0..9 here.
 */
module Data {
  import opened Types

  /** Titles of the ten stages of the plan, in pipeline order. */
  const PlanTitles: seq<string> := [
    "New Lead", "Reached Out", "Responded", "Recruiter Screen", "Founder Screen",
    "Onsite 1", "Onsite 2", "Offer", "Hired", "Archived"
  ]

  /** The ordered interview plan. */
  function OrderedInterviewPlan(): (plan: seq<InterviewStage>)
    ensures |plan| == 10
    ensures plan[0].title == "New Lead" && plan[9].title == "Archived"
    ensures forall k :: 0 <= k < |plan| ==> plan[k].title == PlanTitles[k]
    ensures forall j, k :: 0 <= j < k < |plan| ==> plan[j].id != plan[k].id
  {
    seq(|PlanTitles|, k requires 0 <= k < |PlanTitles| => InterviewStage(k, PlanTitles[k]))
  }

  /** Position in the plan of the candidate's first not-yet-entered stage. */
  const NextStageIndex: nat := 3

  /** The stages the candidate has entered: the plan prefix before the cursor. */
  function VisitedPlanStages(): (visited: seq<InterviewStage>)
    ensures NextStageIndex <= |OrderedInterviewPlan()|
    ensures |visited| == NextStageIndex
    ensures visited + OrderedInterviewPlan()[NextStageIndex..] == OrderedInterviewPlan()
  {
    OrderedInterviewPlan()[..NextStageIndex]
  }

  /** The pool of titles the generator draws interview names from. */
  function InterviewTitles(): (titles: seq<string>)
    ensures |titles| == 6
    ensures forall j, k :: 0 <= j < k < |titles| ==> titles[j] != titles[k]
  {
    ["Technical Screen", "Culture Screen", "Past Projects Deep Drive",
     "Pair Programming", "Review Take Home", "Presentation"]
  }
}
