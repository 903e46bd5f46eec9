/**
 * The expand/collapse state of the interview-history list
 * (src/components/InterviewHistory/InterviewHistory.tsx), without rendering:
 * a set of stage ids, initially those of the in-progress stages that have
 * interviews, changed one id at a time by toggling. Visited stages are keyed
 * by their own id and upcoming stages by their plan stage's id, in the same set.
 */
module InterviewHistory {
  import opened Types
  import Generate

  /** The key a visited stage is expanded under. */
  function VisitedKey(s: VisitedStage): Id {
    s.id
  }

  /** The key an upcoming stage is expanded under. */
  function UpcomingKey(u: UpcomingStage): Id {
    u.stage.id
  }

  /** A stage starts expanded when it is still in progress and has at least one interview. */
  predicate StartsExpanded(s: VisitedStage) {
    s.leftAt.None? && |s.interviews| > 0
  }

  /** The initial state: every visited stage is visited once, and the qualifying ones are added. */
  method InitiallyExpanded(visited: seq<VisitedStage>) returns (expanded: set<Id>)
    ensures forall id :: id in expanded <==>
              exists k :: 0 <= k < |visited| && VisitedKey(visited[k]) == id && StartsExpanded(visited[k])
  {
    expanded := {};
    for i := 0 to |visited|
      invariant forall id :: id in expanded <==>
                  exists k :: 0 <= k < i && VisitedKey(visited[k]) == id && StartsExpanded(visited[k])
    {
      if StartsExpanded(visited[i]) {
        expanded := expanded + {VisitedKey(visited[i])};
      }
    }
  }

  /**
   * The set after toggling `id`: a fresh set in which only the membership of
   * `id` is flipped; `prev` itself is left as it was.
   */
  function Toggled(prev: set<Id>, id: Id): (next: set<Id>)
    ensures id in next <==> id !in prev
    ensures forall other :: other != id ==> (other in next <==> other in prev)
  {
    if id in prev then prev - {id} else prev + {id}
  }

  /** Toggling the same id twice restores the original set. */
  lemma ToggleTwice(prev: set<Id>, id: Id)
    ensures Toggled(Toggled(prev, id), id) == prev
  {
  }

  /**
   * Both kinds of row share one set, so toggling an upcoming stage's row
   * flips that row alone and leaves every visited stage's row as it was,
   * as long as no visited stage shares its key.
   */
  lemma ToggleUpcomingKeepsVisited(prev: set<Id>, u: UpcomingStage, visited: seq<VisitedStage>)
    requires forall k :: 0 <= k < |visited| ==> VisitedKey(visited[k]) != UpcomingKey(u)
    ensures UpcomingKey(u) in Toggled(prev, UpcomingKey(u)) <==> UpcomingKey(u) !in prev
    ensures forall k :: 0 <= k < |visited| ==>
              (VisitedKey(visited[k]) in Toggled(prev, UpcomingKey(u)) <==> VisitedKey(visited[k]) in prev)
  {
  }

  class ExpansionState {
    var expanded: set<Id>

    constructor (visited: seq<VisitedStage>)
      ensures forall id :: id in expanded <==>
                exists k :: 0 <= k < |visited| && VisitedKey(visited[k]) == id && StartsExpanded(visited[k])
    {
      var initial := InitiallyExpanded(visited);
      expanded := initial;
    }

    /** `toggleStage`: replaces the set with the toggled copy. */
    method ToggleStage(stageId: Id)
      modifies this
      ensures expanded == Toggled(old(expanded), stageId)
    {
      expanded := Toggled(expanded, stageId);
    }

    /** `isStageExpanded`: membership of the key in the current set. */
    predicate IsStageExpanded(stageId: Id)
      reads this
    {
      stageId in expanded
    }
  }

  /**
   * In a generated snapshot only the last visited stage is in progress, and it
   * has interviews, so it is the one stage expanded initially.
   */
  lemma GeneratedSnapshotExpandsCurrentStage(visited: seq<VisitedStage>, now: Instant)
    requires |visited| > 0
    requires Generate.Chained(visited)
    requires visited[|visited| - 1].leftAt.None?
    requires Generate.GeneratedStage(visited[|visited| - 1], now)
    ensures forall k :: 0 <= k < |visited| ==> (StartsExpanded(visited[k]) <==> k == |visited| - 1)
  {
    forall k | 0 <= k < |visited| - 1 ensures !StartsExpanded(visited[k]) {
      assert visited[k].leftAt == Some(visited[k + 1].enteredAt);
    }
  }
}
