/**
 * The step range of a task and walking through it (apps/ingestion/src/core/contexts/task.py and builder/builder.py).
 */
module StepWalk {
  import opened Decimals
  import opened Texts

  const START := "start"

  predicate Distinct(ids: seq<string>) {
    forall i, j :: 0 <= i < j < |ids| ==> ids[i] != ids[j]
  }

  /** `ids.index(id)`: the first position. */
  function IndexOf(ids: seq<string>, id: string): (k: nat)
    requires id in ids
    ensures k < |ids| && ids[k] == id && forall i :: 0 <= i < k ==> ids[i] != id
  {
    if ids[0] == id then 0 else 1 + IndexOf(ids[1..], id)
  }

  /** The steps of a task and its boundaries; an empty boundary is one that is not set. */
  datatype Task = Task(steps: seq<string>, fromStep: string, toStep: string)

  function AllIds(steps: seq<string>): seq<string> {
    [START] + steps
  }

  /** `get_step_ids` with the task's own boundaries. */
  function StepIds(t: Task): seq<string> {
    var all := AllIds(t.steps);
    var startIdx := if t.fromStep != "" && t.fromStep in all then IndexOf(all, t.fromStep) else 0;
    var endIdx := if t.toStep != "" && t.toStep in all then IndexOf(all, t.toStep) + 1 else |all|;
    if startIdx >= endIdx then [] else all[startIdx..endIdx]
  }

  /** `get_next_step_id`, given the active ids. */
  function NextStepId(active: seq<string>, current: string): Option<string> {
    if current in active && IndexOf(active, current) + 1 < |active|
    then Some(active[IndexOf(active, current) + 1])
    else None
  }

  datatype Failure = NoSteps | InvalidFromStep | InvalidToStep | ReversedRange

  datatype Result = Ok(fromStep: string, toStep: string) | Raises(failure: Failure)

  /** The boundaries with their defaults filled in. */
  function Completed(t: Task): Task {
    var all := AllIds(t.steps);
    t.(fromStep := if t.fromStep == "" then START else t.fromStep,
       toStep := if t.toStep == "" then all[|all| - 1] else t.toStep)
  }

  /** Both boundaries are steps, or not set, and the range does not run backwards. */
  predicate IsRange(t: Task) {
    var all, from := AllIds(t.steps), Completed(t).fromStep;
    from in all && (t.toStep == "" || (t.toStep in all && IndexOf(all, from) <= IndexOf(all, t.toStep)))
  }

  class TaskContext {
    const steps: seq<string>
    var fromStep: string
    var toStep: string

    constructor (steps: seq<string>, fromStep: string, toStep: string)
      ensures this.steps == steps && this.fromStep == fromStep && this.toStep == toStep
    {
      this.steps, this.fromStep, this.toStep := steps, fromStep, toStep;
    }

    /**
     * `__post_init__`: it succeeds exactly for a range within the steps that does not run backwards. Its separate check
     * of the order is never reached, since a reversed range already fails as an unknown first step.
     */
    method PostInit() returns (result: Result)
      modifies this
      ensures result.Ok? <==> IsRange(old(Task(steps, fromStep, toStep)))
      ensures result.Ok? ==> Task(steps, fromStep, toStep) == Completed(old(Task(steps, fromStep, toStep)))
      ensures result != Raises(NoSteps) && result != Raises(ReversedRange)
    {
      ghost var t := Task(steps, fromStep, toStep);
      var allIds := StepIds(Task(steps, fromStep, toStep));
      if IsRange(t) {
        RangeIsThere(t);
      } else {
      }
      if fromStep == "" {
        fromStep := START;
      }
      if toStep == "" {
        if allIds == [] {
          return Raises(NoSteps);
        }
        toStep := allIds[|allIds| - 1];
      }
      if fromStep !in allIds {
        return Raises(InvalidFromStep);
      }
      if toStep !in allIds {
        return Raises(InvalidToStep);
      }
      if IndexOf(allIds, fromStep) > IndexOf(allIds, toStep) {
        return Raises(ReversedRange);
      }
      result := Ok(fromStep, toStep);
    }
  }

  lemma RangeIsThere(t: Task)
    requires IsRange(t)
    ensures var active, c := StepIds(t), Completed(t);
      active != [] && active[0] == c.fromStep && active[|active| - 1] == c.toStep && IndexOf(active, c.fromStep) == 0
  {
    var all, c := AllIds(t.steps), Completed(t);
    assert all[0] == START;
  }

  // ----- Walking

  /** `get_next_step_id` within the active ids. */
  function Successor(active: seq<string>): string -> Option<string> {
    current => NextStepId(active, current)
  }

  /** The step reached after `n` moves from `first`. */
  function Walk(next: string -> Option<string>, first: string, n: nat): Option<string> {
    if n == 0 then Some(first)
    else
      match Walk(next, first, n - 1)
      case None => None
      case Some(current) => next(current)
  }

  /** The walk visits the given ids, in order, and then ends. */
  ghost predicate VisitsAll(next: string -> Option<string>, ids: seq<string>, first: string) {
    (forall n :: 0 <= n < |ids| ==> Walk(next, first, n) == Some(ids[n])) && Walk(next, first, |ids|) == None
  }

  lemma {:induction false} WalkFollows(next: string -> Option<string>, ids: seq<string>, n: nat)
    requires ids != [] && n <= |ids|
    requires forall k :: 0 <= k < |ids| ==> next(ids[k]) == if k + 1 < |ids| then Some(ids[k + 1]) else None
    ensures Walk(next, ids[0], n) == if n < |ids| then Some(ids[n]) else None
  {
    if n > 0 {
      WalkFollows(next, ids, n - 1);
    }
  }

  /** The walk depends only on where it is. */
  lemma {:induction false} SameFromHere(next: string -> Option<string>, first: string, i: nat, j: nat, m: nat)
    requires Walk(next, first, i) == Walk(next, first, j)
    ensures Walk(next, first, i + m) == Walk(next, first, j + m)
  {
    if m > 0 {
      SameFromHere(next, first, i, j, m - 1);
    }
  }

  lemma RepeatNeverEnds(next: string -> Option<string>, ids: seq<string>, first: string, i: nat, j: nat)
    requires i < j < |ids| && ids[i] == ids[j]
    ensures !VisitsAll(next, ids, first)
  {
    if Walk(next, first, i) == Walk(next, first, j) {
      SameFromHere(next, first, i, j, |ids| - j);
    }
  }

  /** Walking from the first active step visits exactly the active steps, in order, and ends: iff no id occurs twice. */
  lemma {:induction false} WalkIsExact(active: seq<string>)
    requires active != []
    ensures VisitsAll(Successor(active), active, active[0]) <==> Distinct(active)
  {
    var next := Successor(active);
    if Distinct(active) {
      forall k | 0 <= k < |active|
        ensures next(active[k]) == if k + 1 < |active| then Some(active[k + 1]) else None
      {
      }
      forall n | 0 <= n <= |active|
        ensures Walk(next, active[0], n) == if n < |active| then Some(active[n]) else None
      {
        WalkFollows(next, active, n);
      }
    } else {
      var i, j :| 0 <= i < j < |active| && active[i] == active[j];
      RepeatNeverEnds(next, active, active[0], i, j);
    }
  }

  /**
   * A task with distinct step ids whose boundaries `__post_init__` accepts is then, with the boundaries filled in,
   * walked from its first step to its last.
   */
  lemma TaskIsWalked(t: Task)
    requires Distinct(AllIds(t.steps)) && "" !in t.steps && IsRange(t)
    ensures var all, c := AllIds(t.steps), Completed(t);
      && c.fromStep in all && c.toStep in all
      && StepIds(c) == all[IndexOf(all, c.fromStep)..IndexOf(all, c.toStep) + 1]
      && VisitsAll(Successor(StepIds(c)), StepIds(c), c.fromStep)
  {
    CompletedIsWalked(Completed(t));
  }

  lemma CompletedIsWalked(t: Task)
    requires Distinct(AllIds(t.steps)) && "" !in t.steps && IsRange(t) && t == Completed(t)
    ensures t.fromStep in AllIds(t.steps) && t.toStep in AllIds(t.steps)
    ensures StepIds(t) == AllIds(t.steps)[IndexOf(AllIds(t.steps), t.fromStep)..IndexOf(AllIds(t.steps), t.toStep) + 1]
    ensures VisitsAll(Successor(StepIds(t)), StepIds(t), t.fromStep)
  {
    assert t.toStep in AllIds(t.steps) && t.toStep != "";
    RangeIsThere(t);
    ActiveIsSlice(t);
    SliceIsDistinct(AllIds(t.steps), IndexOf(AllIds(t.steps), t.fromStep), IndexOf(AllIds(t.steps), t.toStep) + 1);
    WalkIsExact(StepIds(t));
  }

  lemma ActiveIsSlice(t: Task)
    requires IsRange(t) && t == Completed(t) && t.toStep != ""
    ensures t.fromStep in AllIds(t.steps) && t.toStep in AllIds(t.steps)
    ensures IndexOf(AllIds(t.steps), t.fromStep) <= IndexOf(AllIds(t.steps), t.toStep)
    ensures StepIds(t) == AllIds(t.steps)[IndexOf(AllIds(t.steps), t.fromStep)..IndexOf(AllIds(t.steps), t.toStep) + 1]
  {
  }

  lemma SliceIsDistinct(all: seq<string>, i: nat, j: nat)
    requires Distinct(all) && i <= j <= |all|
    ensures Distinct(all[i..j])
  {
  }

  // ----- Generated step ids

  function GeneratedId(stage: string, count: nat, dataset: string): string {
    if count == 1 then stage + "_" + dataset + "_data" else stage + "_" + Dec(count)
  }

  function CountIn(stages: seq<string>, stage: string): nat {
    if stages == [] then 0
    else CountIn(stages[..|stages| - 1], stage) + if stages[|stages| - 1] == stage then 1 else 0
  }

  /** The id of step `i`: the configured one, or one made of its stage and how often that stage has come up. */
  function StepId(stages: seq<string>, ids: seq<string>, dataset: string, i: nat): string
    requires i < |stages| == |ids|
  {
    if ids[i] != "" then ids[i] else GeneratedId(stages[i], CountIn(stages[..i + 1], stages[i]), dataset)
  }

  /** No step before this one has its stage. */
  predicate IsFirst(stages: seq<string>, i: nat)
    requires i < |stages|
  {
    forall j :: 0 <= j < i ==> stages[j] != stages[i]
  }

  lemma {:induction false} NoneCounted(stages: seq<string>, s: string)
    ensures CountIn(stages, s) == 0 <==> s !in stages
  {
    if stages != [] {
      NoneCounted(stages[..|stages| - 1], s);
      assert stages == stages[..|stages| - 1] + [stages[|stages| - 1]];
    }
  }

  /** Where the stage occurs. */
  function Occurrences(stages: seq<string>, s: string): set<nat> {
    set j: nat | j < |stages| && stages[j] == s
  }

  lemma {:induction false} CountIsOccurrences(stages: seq<string>, s: string)
    ensures CountIn(stages, s) == |Occurrences(stages, s)|
  {
    if stages == [] {
      assert Occurrences(stages, s) == {};
    } else {
      var n := |stages| - 1;
      CountIsOccurrences(stages[..n], s);
      assert Occurrences(stages, s) == Occurrences(stages[..n], s) + if stages[n] == s then {n} else {};
    }
  }

  lemma FirstOfStage(stages: seq<string>, i: nat)
    requires i < |stages|
    ensures CountIn(stages[..i + 1], stages[i]) == 1 <==> IsFirst(stages, i)
  {
    assert stages[..i + 1][..i] == stages[..i];
    NoneCounted(stages[..i], stages[i]);
  }

  /**
   * A configured id is kept; without one, the first step of a stage is named after the dataset, and later ones count.
   */
  lemma IdOfStep(stages: seq<string>, ids: seq<string>, dataset: string, i: nat)
    requires i < |stages| == |ids|
    ensures ids[i] != "" ==> StepId(stages, ids, dataset, i) == ids[i]
    ensures ids[i] == "" && IsFirst(stages, i) ==>
      StepId(stages, ids, dataset, i) == stages[i] + "_" + dataset + "_data"
    ensures ids[i] == "" && !IsFirst(stages, i) ==>
      StepId(stages, ids, dataset, i) == stages[i] + "_" + Dec(|Occurrences(stages[..i + 1], stages[i])|)
  {
    FirstOfStage(stages, i);
    CountIsOccurrences(stages[..i + 1], stages[i]);
  }

  /** The loop over the raw steps; an empty id is one that is not given. */
  method BuildStepIds(stages: seq<string>, ids: seq<string>, dataset: string) returns (built: seq<string>)
    requires |stages| == |ids|
    ensures |built| == |stages| && forall i :: 0 <= i < |built| ==> built[i] == StepId(stages, ids, dataset, i)
    ensures (forall i :: 0 <= i < |ids| ==> ids[i] == "") ==> Distinct(AllIds(built))
  {
    built := [];
    var stageCounts: map<string, nat> := map[];
    for n := 0 to |stages|
      invariant |built| == n && forall i :: 0 <= i < n ==> built[i] == StepId(stages, ids, dataset, i)
      invariant forall s :: (if s in stageCounts then stageCounts[s] else 0) == CountIn(stages[..n], s)
    {
      var stage := stages[n];
      assert stages[..n + 1][..n] == stages[..n];
      stageCounts := stageCounts[stage := (if stage in stageCounts then stageCounts[stage] else 0) + 1];
      built := built + [if ids[n] != "" then ids[n] else GeneratedId(stage, stageCounts[stage], dataset)];
    }
    if forall i :: 0 <= i < |ids| ==> ids[i] == "" {
      GeneratedAreDistinct(stages, dataset, built);
    }
  }

  lemma LastField(a: string, b: string, x: string, y: string)
    requires '_' !in x && '_' !in y && a + "_" + x == b + "_" + y
    ensures x == y && a == b
  {
    SplitAdds(a, x, '_');
    SplitAdds(b, y, '_');
    assert (Split(a, '_') + [x])[|Split(a, '_')|] == x && (Split(b, '_') + [y])[|Split(b, '_')|] == y;
    assert |a| == |b| && (a + "_" + x)[..|a|] == a && (b + "_" + y)[..|b|] == b;
  }

  /** Different stages or counts give different ids, and none of them is the start step. */
  lemma GeneratedIdsDiffer(s: string, m: nat, t: string, n: nat, dataset: string)
    requires GeneratedId(s, m, dataset) == GeneratedId(t, n, dataset)
    ensures s == t && m == n
  {
    NumberOfDec(m);
    NumberOfDec(n);
    var a, x := if m == 1 then s + "_" + dataset else s, if m == 1 then "data" else Dec(m);
    var b, y := if n == 1 then t + "_" + dataset else t, if n == 1 then "data" else Dec(n);
    assert "data"[0] == 'd' && IsDigit(Dec(m)[0]) && IsDigit(Dec(n)[0]);
    assert "_data" == "_" + "data";
    assert GeneratedId(s, m, dataset) == a + "_" + x && GeneratedId(t, n, dataset) == b + "_" + y;
    LastField(a, b, x, y);
    if m == 1 {
      assert (s + "_" + dataset)[..|s|] == s && (t + "_" + dataset)[..|t|] == t;
    }
  }

  lemma NeverStart(s: string, n: nat, dataset: string)
    ensures GeneratedId(s, n, dataset) != START
  {
    assert GeneratedId(s, n, dataset)[|s|] == '_';
    assert '_' !in START;
  }

  lemma {:induction false} CountGrows(stages: seq<string>, i: nat, j: nat)
    requires i < j < |stages| && stages[i] == stages[j]
    ensures CountIn(stages[..i + 1], stages[j]) < CountIn(stages[..j + 1], stages[j])
  {
    assert stages[..j + 1][..j] == stages[..j];
    CountMonotone(stages, stages[j], i + 1, j);
  }

  lemma {:induction false} CountMonotone(stages: seq<string>, s: string, i: nat, j: nat)
    requires i <= j <= |stages|
    ensures CountIn(stages[..i], s) <= CountIn(stages[..j], s)
  {
    if i < j {
      assert stages[..j][..j - 1] == stages[..j - 1];
      CountMonotone(stages, s, i, j - 1);
    }
  }

  lemma TwoStepsDiffer(stages: seq<string>, dataset: string, i: nat, j: nat)
    requires i < j < |stages|
    ensures GeneratedId(stages[i], CountIn(stages[..i + 1], stages[i]), dataset)
         != GeneratedId(stages[j], CountIn(stages[..j + 1], stages[j]), dataset)
  {
    var m, n := CountIn(stages[..i + 1], stages[i]), CountIn(stages[..j + 1], stages[j]);
    if GeneratedId(stages[i], m, dataset) == GeneratedId(stages[j], n, dataset) {
      GeneratedIdsDiffer(stages[i], m, stages[j], n, dataset);
      CountGrows(stages, i, j);
    }
  }

  /** With no ids given, all steps including the start step have different ids. */
  lemma GeneratedAreDistinct(stages: seq<string>, dataset: string, built: seq<string>)
    requires |stages| == |built|
    requires forall i :: 0 <= i < |built| ==>
      built[i] == GeneratedId(stages[i], CountIn(stages[..i + 1], stages[i]), dataset)
    ensures Distinct(AllIds(built))
  {
    forall i | 0 <= i < |built|
      ensures built[i] != START
    {
      NeverStart(stages[i], CountIn(stages[..i + 1], stages[i]), dataset);
    }
    forall i, j | 0 <= i < j < |built|
      ensures built[i] != built[j]
    {
      TwoStepsDiffer(stages, dataset, i, j);
    }
  }
}
