/**
 * Urgency-signal selection (`generateUrgencySignals`, src/generate.ts).
 *
 * A drawn count in {0, 1, 2, 3} says how many signals to show; that many
 * signal types are taken without replacement from the three types (one
 * `splice` per step), and each selected type gets one message from its own
 * pool. Index draws (`Math.floor(Math.random() * n)` and `rand(messages)`)
 * are natural numbers reduced modulo the length of the list they index.
 */
module UrgencySignals {
  import opened Types

  /** The signal types, in the key order of the source's message table. */
  const AllSignalTypes: seq<SignalType> := [DaysInStage, StrongFeedback, UpcomingInterviewIssues]

  /** The messages a signal of type `kind` may carry. */
  function MessagePool(kind: SignalType): (pool: seq<string>)
    ensures |pool| == (if kind == UpcomingInterviewIssues then 2 else 3)
  {
    match kind
    case DaysInStage => [
      "Candidate has been in stage for 8 days",
      "Candidate has been in stage for 12 days",
      "Candidate inquiry about timeline received"]
    case StrongFeedback => [
      "Strong positive feedback",
      "Hiring manager requested expedited process",
      "Multiple interviewers recommend advancing immediately"]
    case UpcomingInterviewIssues => [
      "Upcoming interviews have declined RSVPs - needs immediate attention",
      "Interview room conflict detected for next week"]
  }

  /** The random draws one call consumes. */
  datatype SignalDraw = SignalDraw(count: int, typePicks: seq<nat>, messagePicks: seq<nat>)

  /** The count comes from the pool [0, 1, 1, 1, 2, 2, 3]; one type pick and one message pick per signal. */
  predicate ValidSignalDraw(d: SignalDraw) {
    0 <= d.count <= 3 && |d.typePicks| >= d.count && |d.messagePicks| >= d.count
  }

  predicate Distinct<T(==)>(s: seq<T>) {
    forall j, k :: 0 <= j < k < |s| ==> s[j] != s[k]
  }

  /** `s` with the entry at position `k` removed (`splice(k, 1)`). */
  function RemoveAt<T>(s: seq<T>, k: nat): (rest: seq<T>)
    requires k < |s|
    ensures |rest| == |s| - 1
    ensures forall x :: x in rest ==> x in s
    ensures Distinct(s) ==> Distinct(rest) && s[k] !in rest
    ensures forall i :: 0 <= i < k ==> rest[i] == s[i]
    ensures forall i :: k <= i < |rest| ==> rest[i] == s[i + 1]
  {
    s[..k] + s[k + 1..]
  }

  /** Splicing one entry out removes exactly that one occurrence and keeps every other entry. */
  lemma RemoveAtPermutes<T>(s: seq<T>, k: nat)
    requires k < |s|
    ensures multiset(RemoveAt(s, k)) + multiset{s[k]} == multiset(s)
  {
    assert s == s[..k] + [s[k]] + s[k + 1..];
  }

  /**
   * Selection without replacement: up to `count` entries of `remaining`, the
   * i-th chosen by `picks[i]` among the entries not yet chosen.
   */
  function SelectTypes(remaining: seq<SignalType>, count: nat, picks: seq<nat>): (selected: seq<SignalType>)
    requires |picks| >= count
    ensures |selected| == if count <= |remaining| then count else |remaining|
    ensures forall x :: x in selected ==> x in remaining
    ensures Distinct(remaining) ==> Distinct(selected)
    decreases count
  {
    if count == 0 || |remaining| == 0 then []
    else
      var k := PickIndex(picks[0], |remaining|);
      [remaining[k]] + SelectTypes(RemoveAt(remaining, k), count - 1, picks[1..])
  }

  /** One signal per selected type, its message drawn from that type's pool (the `map` of the source). */
  function Messages(selected: seq<SignalType>, picks: seq<nat>): (signals: seq<UrgencySignal>)
    requires |picks| >= |selected|
    ensures |signals| == |selected|
    ensures forall i :: 0 <= i < |selected| ==>
              signals[i].kind == selected[i] && signals[i].message in MessagePool(selected[i])
  {
    if |selected| == 0 then []
    else
      var pool := MessagePool(selected[0]);
      [UrgencySignal(selected[0], pool[PickIndex(picks[0], |pool|)])] + Messages(selected[1..], picks[1..])
  }

  /** The signals a draw produces; the snapshot's stages play no part in them. */
  function Signals(d: SignalDraw): (signals: seq<UrgencySignal>)
    requires ValidSignalDraw(d)
  {
    if d.count == 0 then []
    else Messages(SelectTypes(AllSignalTypes, d.count, d.typePicks), d.messagePicks)
  }

  /** The signals have the drawn length and pairwise distinct types. */
  lemma SignalsDistinct(d: SignalDraw)
    requires ValidSignalDraw(d)
    ensures |Signals(d)| == d.count
    ensures forall j, k :: 0 <= j < k < |Signals(d)| ==> Signals(d)[j].kind != Signals(d)[k].kind
  {
    if d.count > 0 {
      assert Distinct(AllSignalTypes);
    }
  }

  /** Each signal's message belongs to its own type's pool. */
  lemma SignalMessagesFromOwnPool(d: SignalDraw)
    requires ValidSignalDraw(d)
    ensures forall i :: 0 <= i < |Signals(d)| ==> Signals(d)[i].message in MessagePool(Signals(d)[i].kind)
  {
  }

  /**
   * The loop of the source: repeatedly splice a drawn type out of the
   * remaining ones, then map each selected type to a message of its pool.
   * The stage arguments are accepted and ignored.
   */
  method GenerateUrgencySignals(visited: seq<VisitedStage>, upcoming: seq<UpcomingStage>, d: SignalDraw)
    returns (signals: seq<UrgencySignal>)
    requires ValidSignalDraw(d)
    ensures signals == Signals(d)
    ensures |signals| == d.count
    ensures forall j, k :: 0 <= j < k < |signals| ==> signals[j].kind != signals[k].kind
  {
    if d.count == 0 {
      return [];
    }
    var selected: seq<SignalType> := [];
    var choices := AllSignalTypes;
    var i := 0;
    while i < d.count && |choices| > 0
      invariant 0 <= i <= d.count
      invariant selected + SelectTypes(choices, d.count - i, d.typePicks[i..])
             == SelectTypes(AllSignalTypes, d.count, d.typePicks)
    {
      var k := PickIndex(d.typePicks[i], |choices|);
      SelectTypesStep(selected, choices, d.count - i, d.typePicks, i);
      selected := selected + [choices[k]];
      choices := RemoveAt(choices, k);
      i := i + 1;
    }
    assert SelectTypes(choices, d.count - i, d.typePicks[i..]) == [];
    assert selected == SelectTypes(AllSignalTypes, d.count, d.typePicks);
    signals := Messages(selected, d.messagePicks);
    SignalsDistinct(d);
  }

  /** One step of the splice loop: the type drawn by `picks[i]` moves from the remaining choices to the selection. */
  lemma SelectTypesStep(selected: seq<SignalType>, choices: seq<SignalType>, count: nat, picks: seq<nat>, i: nat)
    requires 0 < count && 0 < |choices| && i + count <= |picks|
    ensures var k := PickIndex(picks[i], |choices|);
      selected + SelectTypes(choices, count, picks[i..])
      == (selected + [choices[k]]) + SelectTypes(RemoveAt(choices, k), count - 1, picks[i + 1..])
  {
    var k := PickIndex(picks[i], |choices|);
    var rest := SelectTypes(RemoveAt(choices, k), count - 1, picks[i + 1..]);
    assert picks[i..][0] == picks[i] && picks[i..][1..] == picks[i + 1..];
    assert SelectTypes(choices, count, picks[i..]) == [choices[k]] + rest;
    assert selected + ([choices[k]] + rest) == (selected + [choices[k]]) + rest;
  }
}
