/**
 * The earliest stage-entry instant shown in the progress header
 * (`getEarliestStageEntry`, src/components/CandidateProgress/CandidateProgress.tsx):
 * a reduce over the visited stages that keeps the running earliest stage and
 * replaces it only by a stage entered strictly earlier.
 */
module CandidateProgress {
  import opened Types
  import Generate

  /**
   * The reduce, folded from the left starting with the first stage. The result
   * is entered no later than any stage, and it is the first stage in the list
   * with that entry instant: every stage before it was entered strictly later.
   */
  function EarliestStage(stages: seq<VisitedStage>): (earliest: VisitedStage)
    requires |stages| > 0
    ensures exists k :: 0 <= k < |stages| && stages[k] == earliest &&
              forall j :: 0 <= j < k ==> earliest.enteredAt < stages[j].enteredAt
    ensures forall j :: 0 <= j < |stages| ==> earliest.enteredAt <= stages[j].enteredAt
  {
    if |stages| == 1 then stages[0]
    else
      var prefix := stages[..|stages| - 1];
      var earliest := EarliestStage(prefix);
      var current := stages[|stages| - 1];
      assert forall j :: 0 <= j < |prefix| ==> prefix[j] == stages[j];
      if current.enteredAt < earliest.enteredAt then current else earliest
  }

  /** No entry without visited stages; otherwise the entry instant of some stage, and no later than any. */
  function GetEarliestStageEntry(stages: seq<VisitedStage>): (entry: Option<Instant>)
    ensures entry.None? <==> |stages| == 0
    ensures entry.Some? ==>
              && (exists k :: 0 <= k < |stages| && stages[k].enteredAt == entry.value)
              && (forall j :: 0 <= j < |stages| ==> entry.value <= stages[j].enteredAt)
  {
    if |stages| == 0 then None
    else Some(EarliestStage(stages).enteredAt)
  }

  /** For a strictly chronological list, as the generator produces, the earliest entry is the first stage's. */
  lemma ChronologicalEarliestIsFirst(stages: seq<VisitedStage>)
    requires Generate.Chronological(stages)
    ensures |stages| > 0 ==> GetEarliestStageEntry(stages) == Some(stages[0].enteredAt)
  {
  }
}
