/** Promotion of a staging table into its destination (apps/ingestion/src/services/database.py). */
module Promotion {
  import opened Tables

  datatype Op = Truncate | Delete | Update | Insert | SoftDeleteOp | Unsupported(name: string)

  /** What one promotion works with; `columns` are the staging table's. */
  datatype Job = Job(
    pks: seq<Column>,
    updateKey: string,
    partition: Value,        // Null models Python's None
    soft: Column,
    columns: set<Column>,
    now: Value)

  datatype Outcome = Applied | NeedsPartition | NeedsKeys | NeedsAll | NotImplemented

  datatype Result = Result(rows: seq<Row>, outcome: Outcome)

  predicate HasPartition(job: Job) {
    job.updateKey != "" && job.partition != Null
  }

  /** One merge step, with the check that precedes its statement. */
  function Step(job: Job, plan: seq<Op>, op: Op, staged: seq<Row>, target: seq<Row>): Result {
    match op
    case Truncate => Result([], Applied)
    case Delete =>
      if !HasPartition(job) then Result(target, NeedsPartition)
      else Result(DeleteWhere(job.updateKey, job.partition, target), Applied)
    case Update =>
      if job.pks == [] then Result(target, NeedsKeys)
      else Result(UpdateFrom(job.columns, job.pks, staged, target), Applied)
    case Insert =>
      if Update in plan && job.pks != [] then Result(InsertMissing(job.pks, staged, target), Applied)
      else Result(target + staged, Applied)
    case SoftDeleteOp =>
      if job.pks == [] || !HasPartition(job) then Result(target, NeedsAll)
      else Result(SoftDelete(job.pks, job.updateKey, job.partition, job.soft, job.now, staged, target), Applied)
    case Unsupported(_) => Result(target, NotImplemented)
  }

  /** The steps `todo` of `plan`, each its own command; an exception keeps what the earlier steps did. */
  function RunPlan(job: Job, plan: seq<Op>, todo: seq<Op>, staged: seq<Row>, target: seq<Row>): Result
    decreases |todo|
  {
    if todo == [] then Result(target, Applied)
    else
      var r := Step(job, plan, todo[0], staged, target);
      if r.outcome != Applied then r else RunPlan(job, plan, todo[1..], staged, r.rows)
  }

  lemma {:induction false} RunAppend(job: Job, plan: seq<Op>, a: seq<Op>, b: seq<Op>, staged: seq<Row>,
                                     target: seq<Row>)
    ensures var r := RunPlan(job, plan, a, staged, target);
      RunPlan(job, plan, a + b, staged, target)
        == if r.outcome != Applied then r else RunPlan(job, plan, b, staged, r.rows)
    decreases |a|
  {
    if a == [] {
      assert a + b == b;
    } else {
      assert (a + b)[1..] == a[1..] + b;
      var r := Step(job, plan, a[0], staged, target);
      RunAppend(job, plan, a[1..], b, staged, r.rows);
    }
  }

  // ----- Which steps raise

  /** The values that a step needs are there. */
  predicate CanRun(job: Job, op: Op) {
    match op
    case Truncate => true
    case Insert => true
    case Delete => job.updateKey != "" && job.partition != Null
    case Update => |job.pks| > 0
    case SoftDeleteOp => |job.pks| > 0 && job.updateKey != "" && job.partition != Null
    case Unsupported(_) => false
  }

  /** The error of a step that cannot run. */
  predicate RaisedBy(op: Op, outcome: Outcome) {
    match outcome
    case Applied => false
    case NeedsPartition => op == Delete
    case NeedsKeys => op == Update
    case NeedsAll => op == SoftDeleteOp
    case NotImplemented => op.Unsupported?
  }

  /**
   * A plan runs through exactly if each of its steps can run. Otherwise the first step that cannot stops it, with the
   * effects of the steps before it kept.
   */
  lemma {:induction false} FirstFailureStops(job: Job, plan: seq<Op>, todo: seq<Op>, staged: seq<Row>, target: seq<Row>)
    returns (n: nat)
    ensures n <= |todo| && forall i :: 0 <= i < n ==> CanRun(job, todo[i])
    ensures var r := RunPlan(job, plan, todo, staged, target);
      && (r.outcome == Applied <==> n == |todo|)
      && (n < |todo| ==> !CanRun(job, todo[n]) && RaisedBy(todo[n], r.outcome))
      && r.rows == RunPlan(job, plan, todo[..n], staged, target).rows
    decreases |todo|
  {
    if todo == [] {
      n := 0;
    } else if !CanRun(job, todo[0]) {
      n := 0;
      assert todo[..0] == [];
    } else {
      var r := Step(job, plan, todo[0], staged, target);
      n := FirstFailureStops(job, plan, todo[1..], staged, r.rows);
      n := n + 1;
      assert todo[..n][1..] == todo[1..][..n - 1];
    }
  }

  /** An insertion appends all staged rows, or those whose key the target lacks, if the plan updates by keys too. */
  lemma InsertRows(job: Job, plan: seq<Op>, staged: seq<Row>, target: seq<Row>)
    ensures RunPlan(job, plan, [Insert], staged, target).outcome == Applied
    ensures Update !in plan || |job.pks| == 0 ==> RunPlan(job, plan, [Insert], staged, target).rows == target + staged
    ensures Update in plan && |job.pks| > 0 ==>
      var lacks := r => forall i :: 0 <= i < |target| ==> !SameKey(job.pks, r, target[i]);
      RunPlan(job, plan, [Insert], staged, target).rows == target + Keep(lacks, staged)
  {
    RunOne(job, plan, Insert, staged, target);
    var lacks := r => forall i :: 0 <= i < |target| ==> !SameKey(job.pks, r, target[i]);
    KeepSame(Unmatched(job.pks, target), lacks, staged);
  }

  /** Row by row: an update takes over a matching staged row, but for its keys and the columns that are not staged. */
  lemma UpdateRows(job: Job, plan: seq<Op>, staged: seq<Row>, target: seq<Row>, i: nat)
    requires |job.pks| > 0 && UniqueKeys(job.pks, staged) && i < |target|
    ensures var r := RunPlan(job, plan, [Update], staged, target);
      && r.outcome == Applied && |r.rows| == |target| && r.rows[i].Keys == target[i].Keys
      && (forall c :: c in target[i] && (c in job.pks || c !in job.columns) ==> r.rows[i][c] == target[i][c])
      && (forall j :: 0 <= j < |staged| && SameKey(job.pks, target[i], staged[j]) ==>
            forall c :: c in target[i] && c in job.columns && c !in job.pks ==> r.rows[i][c] == Get(staged[j], c))
      && ((forall j :: 0 <= j < |staged| ==> !SameKey(job.pks, target[i], staged[j])) ==> r.rows[i] == target[i])
  {
    RunOne(job, plan, Update, staged, target);
    forall j | 0 <= j < |staged| && SameKey(job.pks, target[i], staged[j])
      ensures MatchOf(job.pks, target[i], staged) == staged[j]
    {
      OnlyMatch(job.pks, target[i], staged, j);
    }
  }

  lemma OnlyMatch(pks: seq<Column>, r: Row, table: seq<Row>, j: nat)
    requires j < |table| && SameKey(pks, r, table[j]) && UniqueKeys(pks, table)
    ensures Matches(pks, r, table) && MatchOf(pks, r, table) == table[j]
  {
    var s := MatchOf(pks, r, table);
    var k :| 0 <= k < |table| && table[k] == s;
    assert SameKey(pks, table[k], table[j]);
  }

  // ----- What the plans mean

  predicate IsUpsert(plan: seq<Op>) {
    plan == [Update, Insert] || plan == [Insert, Update]
  }

  /** The target with its matching rows updated, then the staged rows it lacked. */
  function Upserted(job: Job, staged: seq<Row>, target: seq<Row>): seq<Row> {
    UpdateFrom(job.columns, job.pks, staged, target) + Keep(Unmatched(job.pks, target), staged)
  }

  lemma RunOne(job: Job, plan: seq<Op>, op: Op, staged: seq<Row>, target: seq<Row>)
    ensures RunPlan(job, plan, [op], staged, target) == Step(job, plan, op, staged, target)
  {
    var r := Step(job, plan, op, staged, target);
    assert [op][1..] == [];
    assert RunPlan(job, plan, [], staged, r.rows) == Result(r.rows, Applied);
  }

  lemma RunTwo(job: Job, plan: seq<Op>, a: Op, b: Op, staged: seq<Row>, target: seq<Row>)
    ensures var r := Step(job, plan, a, staged, target);
      RunPlan(job, plan, [a, b], staged, target)
        == if r.outcome != Applied then r else Step(job, plan, b, staged, r.rows)
  {
    RunAppend(job, plan, [a], [b], staged, target);
    assert [a] + [b] == [a, b];
    RunOne(job, plan, a, staged, target);
    RunOne(job, plan, b, staged, Step(job, plan, a, staged, target).rows);
  }

  /** Both orders of update and insert do the same, row for row. */
  lemma UpsertRuns(job: Job, plan: seq<Op>, todo: seq<Op>, staged: seq<Row>, target: seq<Row>)
    requires job.pks != [] && Update in plan && IsUpsert(todo) && UniqueKeys(job.pks, staged)
    ensures RunPlan(job, plan, todo, staged, target) == Result(Upserted(job, staged, target), Applied)
  {
    UpdateOfInsert(job.columns, job.pks, staged, target);
    RunTwo(job, plan, Update, Insert, staged, target);
    RunTwo(job, plan, Insert, Update, staged, target);
  }

  /** An upsert is the key-wise override of the target by the staged rows. */
  lemma UpsertMeaning(job: Job, plan: seq<Op>, staged: seq<Row>, target: seq<Row>)
    requires job.pks != [] && IsUpsert(plan)
    requires UniqueKeys(job.pks, staged) && UniqueKeys(job.pks, target)
    requires Shaped(job.columns, staged) && Shaped(job.columns, target)
    ensures multiset(RunPlan(job, plan, plan, staged, target).rows)
         == multiset(Keep(Unmatched(job.pks, staged), target)) + multiset(staged)
  {
    UpsertRuns(job, plan, plan, staged, target);
    UpsertOverrides(job.columns, job.pks, staged, target);
  }

  function DeleteInserted(job: Job, staged: seq<Row>, target: seq<Row>): seq<Row> {
    DeleteWhere(job.updateKey, job.partition, target) + staged
  }

  lemma DeleteInsertRuns(job: Job, plan: seq<Op>, staged: seq<Row>, target: seq<Row>)
    requires HasPartition(job) && Update !in plan
    ensures RunPlan(job, plan, [Delete, Insert], staged, target) == Result(DeleteInserted(job, staged, target), Applied)
  {
    RunTwo(job, plan, Delete, Insert, staged, target);
  }

  function InPartition(job: Job): Row -> bool {
    r => SqlEqual(Get(r, job.updateKey), job.partition)
  }

  predicate AllStagedInPartition(job: Job, staged: seq<Row>) {
    forall i :: 0 <= i < |staged| ==> InPartition(job)(staged[i])
  }

  /** Delete and insert leaves the other partitions as they were, row for row, and makes this one the staged rows. */
  lemma DeleteInsertMeaning(job: Job, staged: seq<Row>, target: seq<Row>)
    requires HasPartition(job) && AllStagedInPartition(job, staged)
    ensures var rows := RunPlan(job, [Delete, Insert], [Delete, Insert], staged, target).rows;
      && Keep(Outside(job.updateKey, job.partition), rows) == Keep(Outside(job.updateKey, job.partition), target)
      && Keep(InPartition(job), rows) == staged
  {
    var out, kept := Outside(job.updateKey, job.partition), DeleteWhere(job.updateKey, job.partition, target);
    DeleteInsertRuns(job, [Delete, Insert], staged, target);
    KeepAppend(out, kept, staged);
    KeepAppend(InPartition(job), kept, staged);
    KeepAll(out, kept);
    KeepNone(out, staged);
    KeepNone(InPartition(job), kept);
    KeepAll(InPartition(job), staged);
  }

  // ----- Running a plan again after a crash

  /** An attempt that crashed after so many steps; every attempt has its own time. */
  datatype Attempt = Attempt(steps: nat, now: Value)

  predicate Crashes(plan: seq<Op>, attempts: seq<Attempt>) {
    forall i :: 0 <= i < |attempts| ==> attempts[i].steps <= |plan|
  }

  /** What one crashed attempt leaves. */
  function Crashed(job: Job, plan: seq<Op>, a: Attempt, staged: seq<Row>, target: seq<Row>): seq<Row>
    requires a.steps <= |plan|
  {
    RunPlan(job.(now := a.now), plan, plan[..a.steps], staged, target).rows
  }

  /** What any number of crashed attempts leave. */
  function Attempted(job: Job, plan: seq<Op>, attempts: seq<Attempt>, staged: seq<Row>, target: seq<Row>): seq<Row>
    requires Crashes(plan, attempts)
    decreases |attempts|
  {
    if attempts == [] then target
    else Attempted(job, plan, attempts[1..], staged, Crashed(job, plan, attempts[0], staged, target))
  }

  /** Any number of crashes, then the whole plan: the same target as running the plan once. */
  ghost predicate RetriesSafe(job: Job, plan: seq<Op>, attempts: seq<Attempt>, staged: seq<Row>, target: seq<Row>)
    requires Crashes(plan, attempts)
  {
    RunPlan(job, plan, plan, staged, Attempted(job, plan, attempts, staged, target)).rows
      == RunPlan(job, plan, plan, staged, target).rows
  }

  lemma UpsertedIsSettled(job: Job, staged: seq<Row>, target: seq<Row>)
    requires job.pks != [] && UniqueKeys(job.pks, staged)
    ensures var x := Upserted(job, staged, target);
      && UpdateFrom(job.columns, job.pks, staged, x) == x
      && (InsertMissing(job.pks, staged, x) == x <==> NoNullKeys(job.pks, staged))
  {
    var x, inserted := Upserted(job, staged, target), InsertMissing(job.pks, staged, target);
    UpdateOfInsert(job.columns, job.pks, staged, target);
    UpdateIdempotent(job.columns, job.pks, staged, inserted);
    InsertAgain(job.pks, staged, target, x);
  }

  lemma UpsertAfterUpdate(job: Job, staged: seq<Row>, target: seq<Row>)
    requires job.pks != [] && UniqueKeys(job.pks, staged)
    ensures Upserted(job, staged, UpdateFrom(job.columns, job.pks, staged, target)) == Upserted(job, staged, target)
  {
    UpdateOfInsert(job.columns, job.pks, staged, target);
    UpdateOfInsert(job.columns, job.pks, staged, UpdateFrom(job.columns, job.pks, staged, target));
    UpdateIdempotent(job.columns, job.pks, staged, target);
  }

  lemma UpsertPrefix(job: Job, plan: seq<Op>, todo: seq<Op>, n: nat, staged: seq<Row>, target: seq<Row>)
    requires job.pks != [] && Update in plan && IsUpsert(todo) && n <= 1
    requires UniqueKeys(job.pks, staged) && NoNullKeys(job.pks, staged)
    ensures var crashed := RunPlan(job, plan, todo[..n], staged, target).rows;
      Upserted(job, staged, crashed) == Upserted(job, staged, target)
  {
    if n == 1 {
      assert todo[..1] == [todo[0]];
      RunOne(job, plan, todo[0], staged, target);
      if todo[0] == Update {
        UpsertAfterUpdate(job, staged, target);
      } else {
        var crashed := RunPlan(job, plan, todo[..1], staged, target).rows;
        UpdateOfInsert(job.columns, job.pks, staged, target);
        UpdateOfInsert(job.columns, job.pks, staged, crashed);
        InsertAgain(job.pks, staged, target, crashed);
      }
    }
  }

  lemma UpsertTwice(job: Job, staged: seq<Row>, target: seq<Row>)
    requires job.pks != [] && UniqueKeys(job.pks, staged) && NoNullKeys(job.pks, staged)
    ensures Upserted(job, staged, Upserted(job, staged, target)) == Upserted(job, staged, target)
  {
    UpsertedIsSettled(job, staged, target);
    UpdateOfInsert(job.columns, job.pks, staged, Upserted(job, staged, target));
  }

  lemma UpsertOneCrash(job: Job, plan: seq<Op>, a: Attempt, staged: seq<Row>, target: seq<Row>)
    requires job.pks != [] && IsUpsert(plan) && a.steps <= 2
    requires UniqueKeys(job.pks, staged) && NoNullKeys(job.pks, staged)
    ensures Upserted(job, staged, Crashed(job, plan, a, staged, target)) == Upserted(job, staged, target)
  {
    var job' := job.(now := a.now);
    if a.steps <= 1 {
      UpsertPrefix(job', plan, plan, a.steps, staged, target);
    } else {
      assert plan[..2] == plan;
      UpsertRuns(job', plan, plan, staged, target);
      UpsertTwice(job, staged, target);
    }
  }

  lemma {:induction false} UpsertAttempts(job: Job, plan: seq<Op>, attempts: seq<Attempt>, staged: seq<Row>,
                                          target: seq<Row>)
    requires job.pks != [] && IsUpsert(plan) && Crashes(plan, attempts)
    requires UniqueKeys(job.pks, staged) && NoNullKeys(job.pks, staged)
    ensures Upserted(job, staged, Attempted(job, plan, attempts, staged, target)) == Upserted(job, staged, target)
    decreases |attempts|
  {
    if attempts != [] {
      UpsertOneCrash(job, plan, attempts[0], staged, target);
      UpsertAttempts(job, plan, attempts[1..], staged, Crashed(job, plan, attempts[0], staged, target));
    }
  }

  /** No attempt got as far as the insertion. */
  predicate NoneInserted(plan: seq<Op>, attempts: seq<Attempt>)
    requires Crashes(plan, attempts)
  {
    forall i :: 0 <= i < |attempts| ==> Insert !in plan[..attempts[i].steps]
  }

  /** An attempt that did not insert leaves the upsert its work, and one that did has added all the rows it adds. */
  lemma UpsertAfterCrash(job: Job, plan: seq<Op>, a: Attempt, staged: seq<Row>, target: seq<Row>)
    requires job.pks != [] && IsUpsert(plan) && a.steps <= 2 && UniqueKeys(job.pks, staged)
    ensures var crashed := Crashed(job, plan, a, staged, target);
      if Insert in plan[..a.steps] then |crashed| == |Upserted(job, staged, target)|
      else Upserted(job, staged, crashed) == Upserted(job, staged, target)
  {
    var job' := job.(now := a.now);
    assert plan[..0] == [] && plan[..1] == [plan[0]] && plan[..2] == plan;
    if a.steps == 1 {
      RunOne(job', plan, plan[0], staged, target);
      UpsertAfterUpdate(job, staged, target);
    } else if a.steps == 2 {
      UpsertRuns(job', plan, plan, staged, target);
    }
  }

  lemma NullKeyInsertsAgain(job: Job, staged: seq<Row>, x: seq<Row>)
    requires job.pks != [] && !NoNullKeys(job.pks, staged)
    ensures |Upserted(job, staged, x)| > |x|
  {
    var i :| 0 <= i < |staged| && !HasKey(job.pks, staged[i]);
    KeepMember(Unmatched(job.pks, x), staged, staged[i]);
  }

  lemma {:induction false} AttemptsAddRows(job: Job, plan: seq<Op>, attempts: seq<Attempt>, staged: seq<Row>,
                                           target: seq<Row>)
    requires job.pks != [] && IsUpsert(plan) && Crashes(plan, attempts)
    requires UniqueKeys(job.pks, staged) && !NoNullKeys(job.pks, staged)
    ensures var again := Upserted(job, staged, Attempted(job, plan, attempts, staged, target));
      if NoneInserted(plan, attempts) then again == Upserted(job, staged, target)
      else |again| > |Upserted(job, staged, target)|
    decreases |attempts|
  {
    if attempts != [] {
      var crashed := Crashed(job, plan, attempts[0], staged, target);
      UpsertAfterCrash(job, plan, attempts[0], staged, target);
      NullKeyInsertsAgain(job, staged, crashed);
      AttemptsAddRows(job, plan, attempts[1..], staged, crashed);
      assert forall i :: 0 < i < |attempts| ==> attempts[i] == attempts[1..][i - 1];
    }
  }

  /**
   * Crash-retry safety of an upsert: after any number of crashes the whole plan gives the table of one run, exactly if
   * none of the earlier attempts got as far as the insertion or no staged row has a NULL in its key.
   */
  lemma UpsertRetry(job: Job, plan: seq<Op>, attempts: seq<Attempt>, staged: seq<Row>, target: seq<Row>)
    requires job.pks != [] && IsUpsert(plan) && Crashes(plan, attempts) && UniqueKeys(job.pks, staged)
    ensures RetriesSafe(job, plan, attempts, staged, target) <==>
      NoneInserted(plan, attempts) || NoNullKeys(job.pks, staged)
  {
    UpsertRuns(job, plan, plan, staged, target);
    UpsertRuns(job, plan, plan, staged, Attempted(job, plan, attempts, staged, target));
    if NoNullKeys(job.pks, staged) {
      UpsertAttempts(job, plan, attempts, staged, target);
    } else {
      AttemptsAddRows(job, plan, attempts, staged, target);
    }
  }

  /** A crashed delete and insert leaves the rows outside the partition, and adds the staged ones if it got that far. */
  lemma OutsideAfterCrash(job: Job, a: Attempt, staged: seq<Row>, target: seq<Row>)
    requires HasPartition(job) && a.steps <= 2
    ensures var out := Outside(job.updateKey, job.partition);
      Keep(out, Crashed(job, [Delete, Insert], a, staged, target))
        == Keep(out, target) + if a.steps == 2 then Keep(out, staged) else []
  {
    var plan, out, job' := [Delete, Insert], Outside(job.updateKey, job.partition), job.(now := a.now);
    var kept := DeleteWhere(job.updateKey, job.partition, target);
    KeepAll(out, kept);
    if a.steps == 1 {
      assert plan[..1] == [Delete];
      RunOne(job', plan, Delete, staged, target);
    } else if a.steps == 2 {
      assert plan[..2] == plan;
      DeleteInsertRuns(job', plan, staged, target);
      KeepAppend(out, kept, staged);
    }
  }

  lemma {:induction false} OutsideAfterAttempts(job: Job, attempts: seq<Attempt>, staged: seq<Row>, target: seq<Row>)
    requires HasPartition(job) && Crashes([Delete, Insert], attempts)
    ensures var out := Outside(job.updateKey, job.partition);
      var rows := Keep(out, Attempted(job, [Delete, Insert], attempts, staged, target));
      && (NoneFinished([Delete, Insert], attempts) || Keep(out, staged) == [] ==> rows == Keep(out, target))
      && |rows| >= |Keep(out, target)| + if NoneFinished([Delete, Insert], attempts) then 0 else |Keep(out, staged)|
    decreases |attempts|
  {
    if attempts != [] {
      var crashed := Crashed(job, [Delete, Insert], attempts[0], staged, target);
      OutsideAfterCrash(job, attempts[0], staged, target);
      OutsideAfterAttempts(job, attempts[1..], staged, crashed);
      NoneFinishedStep([Delete, Insert], attempts);
    }
  }

  /** No attempt got through all steps. */
  predicate NoneFinished(plan: seq<Op>, attempts: seq<Attempt>) {
    forall i :: 0 <= i < |attempts| ==> attempts[i].steps < |plan|
  }

  lemma NoneFinishedStep(plan: seq<Op>, attempts: seq<Attempt>)
    requires attempts != []
    ensures NoneFinished(plan, attempts) <==> attempts[0].steps < |plan| && NoneFinished(plan, attempts[1..])
  {
    assert forall i :: 0 < i < |attempts| ==> attempts[i] == attempts[1..][i - 1];
  }

  lemma NoneOutside(job: Job, staged: seq<Row>)
    ensures Keep(Outside(job.updateKey, job.partition), staged) == [] <==> AllStagedInPartition(job, staged)
  {
    var out := Outside(job.updateKey, job.partition);
    if AllStagedInPartition(job, staged) {
      KeepNone(out, staged);
    } else {
      var i :| 0 <= i < |staged| && !InPartition(job)(staged[i]);
      KeepMember(out, staged, staged[i]);
    }
  }

  /**
   * Crash-retry safety of delete and insert: after any number of crashes the whole plan gives the table of one run,
   * exactly if none of the earlier attempts got through all steps or every staged row is in the partition.
   */
  lemma DeleteInsertRetry(job: Job, attempts: seq<Attempt>, staged: seq<Row>, target: seq<Row>)
    requires HasPartition(job) && Crashes([Delete, Insert], attempts)
    ensures RetriesSafe(job, [Delete, Insert], attempts, staged, target) <==>
      NoneFinished([Delete, Insert], attempts) || AllStagedInPartition(job, staged)
  {
    var plan, rows := [Delete, Insert], Attempted(job, [Delete, Insert], attempts, staged, target);
    OutsideAfterAttempts(job, attempts, staged, target);
    NoneOutside(job, staged);
    DeleteInsertRuns(job, plan, staged, target);
    DeleteInsertRuns(job, plan, staged, rows);
    assert |DeleteInserted(job, staged, rows)| == |DeleteWhere(job.updateKey, job.partition, rows)| + |staged|;
    assert |DeleteInserted(job, staged, target)| == |DeleteWhere(job.updateKey, job.partition, target)| + |staged|;
  }

  lemma TruncateInsertRetry(job: Job, attempts: seq<Attempt>, staged: seq<Row>, target: seq<Row>)
    requires Crashes([Truncate, Insert], attempts)
    ensures RetriesSafe(job, [Truncate, Insert], attempts, staged, target)
    ensures RunPlan(job, [Truncate, Insert], [Truncate, Insert], staged, target) == Result(staged, Applied)
  {
    RunTwo(job, [Truncate, Insert], Truncate, Insert, staged, target);
    RunTwo(job, [Truncate, Insert], Truncate, Insert, staged,
           Attempted(job, [Truncate, Insert], attempts, staged, target));
  }

  // ----- Plans that end with a soft deletion

  predicate IsBase(plan: seq<Op>) {
    IsUpsert(plan) || plan == [Truncate, Insert] || plan == [Delete, Insert]
  }

  /** What the soft-deleting plans need: keys and a partition, and a marker column apart from both. */
  ghost predicate CanSoftDelete(job: Job, base: seq<Op>, staged: seq<Row>) {
    && job.pks != [] && HasPartition(job) && job.now != Null
    && job.soft !in job.pks && job.soft != job.updateKey
    && UniqueKeys(job.pks, staged) && NoNullKeys(job.pks, staged)
    && (Delete in base ==> AllStagedInPartition(job, staged))
  }

  function Stamped(job: Job, staged: seq<Row>, target: seq<Row>): seq<Row> {
    SoftDelete(job.pks, job.updateKey, job.partition, job.soft, job.now, staged, target)
  }

  function Alive(job: Job, staged: seq<Row>): Row -> bool {
    r => StaysLive(job.pks, job.updateKey, job.partition, job.soft, staged, r)
  }

  function Base(job: Job, base: seq<Op>, staged: seq<Row>, target: seq<Row>): seq<Row> {
    if base == [Truncate, Insert] then staged
    else if base == [Delete, Insert] then DeleteInserted(job, staged, target)
    else Upserted(job, staged, target)
  }

  lemma BaseRuns(job: Job, base: seq<Op>, staged: seq<Row>, target: seq<Row>)
    requires IsBase(base) && CanSoftDelete(job, base, staged)
    ensures RunPlan(job, base + [SoftDeleteOp], base, staged, target)
         == Result(Base(job, base, staged, target), Applied)
  {
    var plan := base + [SoftDeleteOp];
    if IsUpsert(base) {
      assert Update in base;
      UpsertRuns(job, plan, base, staged, target);
    } else if base == [Delete, Insert] {
      DeleteInsertRuns(job, plan, staged, target);
    } else {
      RunTwo(job, plan, Truncate, Insert, staged, target);
    }
  }

  lemma SoftPlanRuns(job: Job, base: seq<Op>, staged: seq<Row>, target: seq<Row>)
    requires IsBase(base) && CanSoftDelete(job, base, staged)
    ensures var plan := base + [SoftDeleteOp];
      RunPlan(job, plan, plan, staged, target) == Result(Stamped(job, staged, Base(job, base, staged, target)), Applied)
  {
    var plan := base + [SoftDeleteOp];
    BaseRuns(job, base, staged, target);
    RunAppend(job, plan, base, [SoftDeleteOp], staged, target);
    RunOne(job, plan, SoftDeleteOp, staged, Base(job, base, staged, target));
  }

  /** The live rows after a soft deletion do not depend on its time stamp. */
  lemma LiveAfterSoftDelete(job: Job, staged: seq<Row>, target: seq<Row>)
    requires job.now != Null
    ensures Keep(Live(job.soft), Stamped(job, staged, target)) == Keep(Alive(job, staged), target)
    ensures Keep(Alive(job, staged), Stamped(job, staged, target)) == Keep(Alive(job, staged), target)
  {
    var stamp := StampRow(job.pks, job.updateKey, job.partition, job.soft, job.now, staged);
    KeepMapped(Live(job.soft), Alive(job, staged), stamp, target);
    KeepMapped(Alive(job, staged), Alive(job, staged), stamp, target);
  }

  /** Running the base plan over the crashed attempt, however far it got, gives the same rows that stay alive. */
  lemma BaseAfterCrash(job: Job, base: seq<Op>, n: nat, staged: seq<Row>, target: seq<Row>)
    requires IsBase(base) && CanSoftDelete(job, base, staged) && n <= 3
    ensures var plan := base + [SoftDeleteOp];
      var crashed := RunPlan(job, plan, plan[..n], staged, target).rows;
      Keep(Alive(job, staged), Base(job, base, staged, crashed))
        == Keep(Alive(job, staged), Base(job, base, staged, target))
  {
    var plan := base + [SoftDeleteOp];
    if n == 3 {
      assert plan[..3] == plan;
      SoftPlanRuns(job, base, staged, target);
      BaseOfStamped(job, base, staged, target);
    } else {
      assert plan[..n] == base[..n];
      BaseAfterBasePrefix(job, base, n, staged, target);
    }
  }

  lemma BaseAfterBasePrefix(job: Job, base: seq<Op>, n: nat, staged: seq<Row>, target: seq<Row>)
    requires IsBase(base) && CanSoftDelete(job, base, staged) && n <= 2
    ensures var crashed := RunPlan(job, base + [SoftDeleteOp], base[..n], staged, target).rows;
      Base(job, base, staged, crashed) == Base(job, base, staged, target)
  {
    var plan := base + [SoftDeleteOp];
    var x := Base(job, base, staged, target);
    if n == 2 {
      assert base[..2] == base;
      BaseRuns(job, base, staged, target);
    }
    if IsUpsert(base) {
      assert Update in base;
      if n == 2 {
        UpsertedIsSettled(job, staged, target);
        UpdateOfInsert(job.columns, job.pks, staged, x);
      } else {
        UpsertPrefix(job, plan, base, n, staged, target);
      }
    } else if base == [Delete, Insert] {
      var out, kept := Outside(job.updateKey, job.partition), DeleteWhere(job.updateKey, job.partition, target);
      KeepAll(out, kept);
      KeepAppend(out, kept, staged);
      KeepNone(out, staged);
      if n == 1 {
        assert base[..1] == [Delete];
        RunOne(job, plan, Delete, staged, target);
      }
    }
  }

  lemma BaseOfStamped(job: Job, base: seq<Op>, staged: seq<Row>, target: seq<Row>)
    requires IsBase(base) && CanSoftDelete(job, base, staged)
    ensures var x := Base(job, base, staged, target);
      Keep(Alive(job, staged), Base(job, base, staged, Stamped(job, staged, x))) == Keep(Alive(job, staged), x)
  {
    var x := Base(job, base, staged, target);
    var after := Stamped(job, staged, x);
    if IsUpsert(base) {
      UpsertedIsSettled(job, staged, target);
      SoftDeleteStaysSettled(job.columns, job.pks, job.updateKey, job.partition, job.soft, job.now, staged, x);
      UpdateOfInsert(job.columns, job.pks, staged, after);
      StampedLacksNone(job, staged, target);
      LiveAfterSoftDelete(job, staged, x);
    } else if base == [Delete, Insert] {
      assert Delete in base;
      DeleteAfterStamp(job, staged, target);
    }
  }

  /** Rows outside the partition are not stamped, so deleting it again leaves the same rows. */
  lemma DeleteAfterStamp(job: Job, staged: seq<Row>, target: seq<Row>)
    requires job.soft != job.updateKey && AllStagedInPartition(job, staged)
    ensures DeleteInserted(job, staged, Stamped(job, staged, DeleteInserted(job, staged, target)))
         == DeleteInserted(job, staged, target)
  {
    var out, kept := Outside(job.updateKey, job.partition), DeleteWhere(job.updateKey, job.partition, target);
    KeepMapped(out, out, StampRow(job.pks, job.updateKey, job.partition, job.soft, job.now, staged), kept + staged);
    KeepAll(out, kept);
    KeepAppend(out, kept, staged);
    KeepNone(out, staged);
  }

  /** After an upsert and a soft deletion no staged row is missing in the target. */
  lemma StampedLacksNone(job: Job, staged: seq<Row>, target: seq<Row>)
    requires CanSoftDelete(job, [Update, Insert], staged)
    ensures var after := Stamped(job, staged, Upserted(job, staged, target));
      InsertMissing(job.pks, staged, after) == after
  {
    var x, inserted := Upserted(job, staged, target), InsertMissing(job.pks, staged, target);
    var after := Stamped(job, staged, x);
    UpdateOfInsert(job.columns, job.pks, staged, target);
    InsertAgain(job.pks, staged, target, after);
  }

  lemma {:induction false} BaseAfterAttempts(job: Job, base: seq<Op>, attempts: seq<Attempt>, staged: seq<Row>,
                                             target: seq<Row>)
    requires IsBase(base) && CanSoftDelete(job, base, staged) && Crashes(base + [SoftDeleteOp], attempts)
    requires forall i :: 0 <= i < |attempts| ==> attempts[i].now != Null
    ensures var left := Attempted(job, base + [SoftDeleteOp], attempts, staged, target);
      Keep(Alive(job, staged), Base(job, base, staged, left))
        == Keep(Alive(job, staged), Base(job, base, staged, target))
    decreases |attempts|
  {
    if attempts != [] {
      var job' := job.(now := attempts[0].now);
      var crashed := Crashed(job, base + [SoftDeleteOp], attempts[0], staged, target);
      BaseAfterCrash(job', base, attempts[0].steps, staged, target);
      BaseAfterAttempts(job, base, attempts[1..], staged, crashed);
      assert Alive(job', staged) == Alive(job, staged);
      assert Base(job', base, staged, crashed) == Base(job, base, staged, crashed);
      assert Base(job', base, staged, target) == Base(job, base, staged, target);
    }
  }

  /**
   * Crash-retry safety of the soft-deleting plans, for any number of crashes: the attempt that finishes leaves the same
   * live rows as one undisturbed run, whatever the times of all of them.
   */
  lemma SoftDeleteRetry(job: Job, base: seq<Op>, attempts: seq<Attempt>, later: Value, staged: seq<Row>,
                        target: seq<Row>)
    requires IsBase(base) && CanSoftDelete(job, base, staged) && Crashes(base + [SoftDeleteOp], attempts)
    requires later != Null && forall i :: 0 <= i < |attempts| ==> attempts[i].now != Null
    ensures var plan := base + [SoftDeleteOp];
      var left := Attempted(job, plan, attempts, staged, target);
      Keep(Live(job.soft), RunPlan(job.(now := later), plan, plan, staged, left).rows)
        == Keep(Live(job.soft), RunPlan(job, plan, plan, staged, target).rows)
  {
    var plan, job' := base + [SoftDeleteOp], job.(now := later);
    var left := Attempted(job, plan, attempts, staged, target);
    SoftPlanRuns(job, base, staged, target);
    SoftPlanRuns(job', base, staged, left);
    BaseAfterAttempts(job, base, attempts, staged, target);
    LiveAfterSoftDelete(job, staged, Base(job, base, staged, target));
    LiveAfterSoftDelete(job', staged, Base(job', base, staged, left));
    assert Base(job', base, staged, left) == Base(job, base, staged, left);
  }

  /**
   * Row by row: a soft deletion puts the time into the marker of exactly the rows of the partition that have no marker
   * and whose key is certain to differ from every staged key, and leaves the other rows as they are.
   */
  lemma SoftDeleteRows(job: Job, plan: seq<Op>, staged: seq<Row>, target: seq<Row>, i: nat)
    requires CanRun(job, SoftDeleteOp) && i < |target|
    ensures var r := RunPlan(job, plan, [SoftDeleteOp], staged, target);
      && r.outcome == Applied && |r.rows| == |target|
      && r.rows[i] ==
           if Get(target[i], job.updateKey) == job.partition && Get(target[i], job.soft) == Null
              && forall j :: 0 <= j < |staged| ==> DistinctKey(job.pks, target[i], staged[j])
           then target[i][job.soft := job.now] else target[i]
  {
    RunOne(job, plan, SoftDeleteOp, staged, target);
  }

  function LivePartition(job: Job): Row -> bool {
    r => SqlEqual(Get(r, job.updateKey), job.partition) && IsLive(job.soft, r)
  }

  /** A row with a full key that no staged row matches is missing if it is live and in the partition. */
  lemma UnmatchedIsMissing(job: Job, staged: seq<Row>, r: Row)
    requires NoNullKeys(job.pks, staged) && HasKey(job.pks, r) && !Matches(job.pks, r, staged)
    requires SqlEqual(Get(r, job.updateKey), job.partition) && IsLive(job.soft, r)
    ensures !Alive(job, staged)(r)
  {
    forall i | 0 <= i < |staged|
      ensures DistinctKey(job.pks, r, staged[i])
    {
      assert !SameKey(job.pks, r, staged[i]);
      var k :| 0 <= k < |job.pks| && !SqlEqual(Get(r, job.pks[k]), Get(staged[i], job.pks[k]));
      assert HasKey(job.pks, staged[i]);
    }
    assert IsMissing(job.pks, job.updateKey, job.partition, job.soft, staged, r);
  }

  /** The rows of the partition that a soft deletion leaves alive. */
  function Surviving(job: Job, staged: seq<Row>): Row -> bool {
    r => && SqlEqual(Get(r, job.updateKey), job.partition)
         && StaysLive(job.pks, job.updateKey, job.partition, job.soft, staged, r)
  }

  lemma LivePartitionAfterStamp(job: Job, staged: seq<Row>, x: seq<Row>)
    requires job.now != Null && job.soft != job.updateKey
    ensures Keep(LivePartition(job), Stamped(job, staged, x)) == Keep(Surviving(job, staged), x)
  {
    var stamp := StampRow(job.pks, job.updateKey, job.partition, job.soft, job.now, staged);
    KeepMapped(LivePartition(job), Surviving(job, staged), stamp, x);
  }

  lemma OldRowsDie(job: Job, staged: seq<Row>, target: seq<Row>)
    requires NoNullKeys(job.pks, staged) && NoNullKeys(job.pks, target)
    ensures Keep(Surviving(job, staged), Keep(Unmatched(job.pks, staged), target)) == []
  {
    var rest := Keep(Unmatched(job.pks, staged), target);
    forall i | 0 <= i < |rest|
      ensures !Surviving(job, staged)(rest[i])
    {
      assert rest[i] in target;
      if SqlEqual(Get(rest[i], job.updateKey), job.partition) && IsLive(job.soft, rest[i]) {
        UnmatchedIsMissing(job, staged, rest[i]);
      }
    }
    KeepNone(Surviving(job, staged), rest);
  }

  lemma StagedRowsSurvive(job: Job, staged: seq<Row>)
    requires AllStagedInPartition(job, staged) && forall i :: 0 <= i < |staged| ==> IsLive(job.soft, staged[i])
    ensures Keep(Surviving(job, staged), staged) == staged
  {
    forall i | 0 <= i < |staged|
      ensures Surviving(job, staged)(staged[i])
    {
      assert InPartition(job)(staged[i]);
      assert !DistinctKey(job.pks, staged[i], staged[i]);
    }
    KeepAll(Surviving(job, staged), staged);
  }

  /** After an upsert with soft deletion the live rows of the partition are exactly the staged rows. */
  lemma {:induction false} SoftDeleteMeaning(job: Job, base: seq<Op>, staged: seq<Row>, target: seq<Row>)
    requires IsUpsert(base) && CanSoftDelete(job, base, staged) && AllStagedInPartition(job, staged)
    requires UniqueKeys(job.pks, target) && NoNullKeys(job.pks, target)
    requires Shaped(job.columns, staged) && Shaped(job.columns, target)
    requires forall i :: 0 <= i < |staged| ==> IsLive(job.soft, staged[i])
    ensures var plan := base + [SoftDeleteOp];
      multiset(Keep(LivePartition(job), RunPlan(job, plan, plan, staged, target).rows)) == multiset(staged)
  {
    var x, rest := Upserted(job, staged, target), Keep(Unmatched(job.pks, staged), target);
    SoftPlanRuns(job, base, staged, target);
    LivePartitionAfterStamp(job, staged, x);
    UpsertOverrides(job.columns, job.pks, staged, target);
    KeepPermutation(Surviving(job, staged), x, rest + staged);
    KeepAppend(Surviving(job, staged), rest, staged);
    OldRowsDie(job, staged, target);
    StagedRowsSurvive(job, staged);
  }

  // ----- Verification and the whole promotion

  /** Why `promote` raises. */
  datatype Failure =
    NoMergeOps | NoDestination | SchemaMismatch | NoSoftColumn | StepFailed(outcome: Outcome) | NotVerified

  datatype Promoted = Success | Raised(failure: Failure)

  /** `_verify_promotion` as `promote` calls it: without primary keys, so the upsert check always raises. */
  function Verified(job: Job, plan: seq<Op>, expected: int, rows: seq<Row>): bool {
    if Truncate in plan then |rows| == expected
    else if Update in plan && Insert in plan then false
    else if HasPartition(job) then
      expected == if SoftDeleteOp in plan && job.soft != "" then |Keep(LivePartition(job), rows)|
                  else |Keep(InPartition(job), rows)|
    else true
  }

  /** Without truncation and upsert: with a partition its live rows are counted, and without one nothing is checked. */
  lemma PartitionVerified(job: Job, plan: seq<Op>, expected: int, rows: seq<Row>)
    requires Truncate !in plan && !(Update in plan && Insert in plan)
    ensures job.updateKey == "" || job.partition == Null ==> Verified(job, plan, expected, rows)
    ensures job.updateKey != "" && job.partition != Null ==>
      var counts := r => Get(r, job.updateKey) == job.partition
        && (SoftDeleteOp in plan && job.soft != "" ==> Get(r, job.soft) == Null);
      (Verified(job, plan, expected, rows) <==> expected == |Keep(counts, rows)|)
  {
    var counts := r => Get(r, job.updateKey) == job.partition
      && (SoftDeleteOp in plan && job.soft != "" ==> Get(r, job.soft) == Null);
    if job.updateKey != "" && job.partition != Null {
      KeepSame(if SoftDeleteOp in plan && job.soft != "" then LivePartition(job) else InPartition(job), counts, rows);
    }
  }

  /** A promoted delete and insert is verified exactly when the expected count is the number of staged rows. */
  lemma DeleteInsertVerified(job: Job, expected: int, staged: seq<Row>, target: seq<Row>)
    requires HasPartition(job) && AllStagedInPartition(job, staged)
    ensures var plan := [Delete, Insert];
      Verified(job, plan, expected, RunPlan(job, plan, plan, staged, target).rows) <==> expected == |staged|
  {
    DeleteInsertMeaning(job, staged, target);
  }

  lemma OnlyStagedSurvive(job: Job, staged: seq<Row>, target: seq<Row>)
    requires AllStagedInPartition(job, staged) && forall i :: 0 <= i < |staged| ==> IsLive(job.soft, staged[i])
    ensures Keep(Surviving(job, staged), DeleteInserted(job, staged, target)) == staged
  {
    var kept := DeleteWhere(job.updateKey, job.partition, target);
    KeepAppend(Surviving(job, staged), kept, staged);
    forall i | 0 <= i < |kept|
      ensures !Surviving(job, staged)(kept[i])
    {
      assert kept[i] in kept;
    }
    KeepNone(Surviving(job, staged), kept);
    StagedRowsSurvive(job, staged);
  }

  /** The same with a soft deletion behind it, which then finds nothing to mark. */
  lemma DeleteInsertSoftVerified(job: Job, expected: int, staged: seq<Row>, target: seq<Row>)
    requires CanSoftDelete(job, [Delete, Insert], staged) && job.soft != "" && AllStagedInPartition(job, staged)
    requires forall i :: 0 <= i < |staged| ==> IsLive(job.soft, staged[i])
    ensures var plan := [Delete, Insert] + [SoftDeleteOp];
      Verified(job, plan, expected, RunPlan(job, plan, plan, staged, target).rows) <==> expected == |staged|
  {
    SoftPlanRuns(job, [Delete, Insert], staged, target);
    LivePartitionAfterStamp(job, staged, DeleteInserted(job, staged, target));
    OnlyStagedSurvive(job, staged, target);
  }

  /** A full refresh, with soft deletion or without, is verified exactly when the count is that of the staged rows. */
  lemma FullRefreshVerified(job: Job, expected: int, staged: seq<Row>, target: seq<Row>)
    ensures var plan := [Truncate, Insert]; var run := RunPlan(job, plan, plan, staged, target);
      run == Result(staged, Applied) && (Verified(job, plan, expected, run.rows) <==> expected == |staged|)
    ensures CanRun(job, SoftDeleteOp) ==>
      var plan := [Truncate, Insert, SoftDeleteOp]; var run := RunPlan(job, plan, plan, staged, target);
      run.outcome == Applied && (Verified(job, plan, expected, run.rows) <==> expected == |staged|)
  {
    var base, plan := [Truncate, Insert], [Truncate, Insert, SoftDeleteOp];
    RunTwo(job, base, Truncate, Insert, staged, target);
    if CanRun(job, SoftDeleteOp) {
      RunTwo(job, plan, Truncate, Insert, staged, target);
      assert plan == base + [SoftDeleteOp];
      RunAppend(job, plan, base, [SoftDeleteOp], staged, target);
      RunOne(job, plan, SoftDeleteOp, staged, staged);
    }
  }

  class Database {
    var target: seq<Row>
    var targetColumns: set<Column>
    var targetExists: bool
    var staged: seq<Row>
    var stagedExists: bool

    constructor (target: seq<Row>, targetColumns: set<Column>, targetExists: bool, staged: seq<Row>)
      ensures this.target == target && this.targetColumns == targetColumns && this.targetExists == targetExists
      ensures this.staged == staged && stagedExists
    {
      this.target, this.targetColumns, this.targetExists := target, targetColumns, targetExists;
      this.staged, stagedExists := staged, true;
    }

    /** `_apply_merge_operation`: the steps in order, each against the table the earlier ones left. */
    method ApplyMergeOperation(job: Job, plan: seq<Op>) returns (outcome: Outcome)
      modifies `target
      ensures Result(target, outcome) == RunPlan(job, plan, plan, staged, old(target))
    {
      for n := 0 to |plan|
        invariant RunPlan(job, plan, plan[n..], staged, target) == RunPlan(job, plan, plan, staged, old(target))
      {
        assert plan[n..][1..] == plan[n + 1..];
        var r := Step(job, plan, plan[n], staged, target);
        target := r.rows;
        if r.outcome != Applied {
          return r.outcome;
        }
      }
      return Applied;
    }

    /**
     * `promote`. The staging table goes only after a verified run; the destination keeps what the steps did even when
     * a later step or the verification raises.
     */
    method Promote(job: Job, mergeOps: seq<Op>, softDeleteMissing: bool, expected: int) returns (outcome: Promoted)
      requires stagedExists
      modifies `target, `stagedExists
      ensures var plan :=
          if softDeleteMissing && SoftDeleteOp !in mergeOps then mergeOps + [SoftDeleteOp] else mergeOps;
        var run := RunPlan(job, plan, plan, staged, old(target));
        if mergeOps == [] then outcome == Raised(NoMergeOps) && target == old(target)
        else if !targetExists then outcome == Raised(NoDestination) && target == old(target)
        else if !(targetColumns <= job.columns) then outcome == Raised(SchemaMismatch) && target == old(target)
        else if softDeleteMissing && job.soft !in targetColumns then
          outcome == Raised(NoSoftColumn) && target == old(target)
        else
          && target == run.rows
          && (run.outcome != Applied ==> outcome == Raised(StepFailed(run.outcome)))
          && (run.outcome == Applied ==>
                outcome == if Verified(job, plan, expected, target) then Success else Raised(NotVerified))
      ensures stagedExists <==> outcome != Success
      ensures Truncate !in mergeOps && Update in mergeOps && Insert in mergeOps ==> outcome.Raised?
      ensures (Truncate !in mergeOps && !(Update in mergeOps && Insert in mergeOps) && !HasPartition(job)) ==>
        outcome != Raised(NotVerified)
      ensures targetExists && targetColumns <= job.columns && mergeOps == [Truncate, Insert] && !softDeleteMissing ==>
        target == staged && outcome == if expected == |staged| then Success else Raised(NotVerified)
      ensures targetExists && targetColumns <= job.columns && job.soft in targetColumns && CanRun(job, SoftDeleteOp) ==>
        mergeOps == [Truncate, Insert, SoftDeleteOp] || (mergeOps == [Truncate, Insert] && softDeleteMissing) ==>
          |target| == |staged| && outcome == if expected == |staged| then Success else Raised(NotVerified)
    {
      FullRefreshVerified(job, expected, staged, target);
      assert [Truncate, Insert] + [SoftDeleteOp] == [Truncate, Insert, SoftDeleteOp];
      if mergeOps == [] {
        return Raised(NoMergeOps);
      }
      if !targetExists {
        return Raised(NoDestination);
      }
      if !(targetColumns <= job.columns) {
        return Raised(SchemaMismatch);
      }
      var plan := mergeOps;
      if softDeleteMissing {
        if job.soft !in targetColumns {
          return Raised(NoSoftColumn);
        }
        if SoftDeleteOp !in mergeOps {
          plan := mergeOps + [SoftDeleteOp];
        }
      }
      var applied := ApplyMergeOperation(job, plan);
      if applied != Applied {
        return Raised(StepFailed(applied));
      }
      if !Verified(job, plan, expected, target) {
        return Raised(NotVerified);
      }
      stagedExists := false;
      return Success;
    }
  }
}
