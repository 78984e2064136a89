/** Longest-Processing-Time distribution of files over workers (apps/ingestion/src/services/file.py). */
module WorkBalancing {
  import opened Sums
  import opened Texts
  import opened Sorting

  const MIN_BYTES_PER_WORKER := 100 * 1024 * 1024

  /** A work unit under construction; the source's local `WorkerBucket` struct. */
  class WorkerBucket {
    var files: seq<string>
    var load: nat

    constructor ()
      ensures files == [] && load == 0
    {
      files, load := [], 0;
    }
  }

  // ----- Specification: groups of files instead of buckets

  function Loads(size: string -> nat, groups: seq<seq<string>>): (loads: seq<int>)
    ensures |loads| == |groups| && forall i :: 0 <= i < |groups| ==> loads[i] == Sum(size, groups[i])
  {
    seq(|groups|, i requires 0 <= i < |groups| => Sum(size, groups[i]))
  }

  /** Python's `min` by load: the first of the least loaded. */
  function Lightest(loads: seq<int>): (k: nat)
    requires loads != []
    ensures k < |loads|
    ensures forall i :: 0 <= i < |loads| ==> loads[k] <= loads[i]
    ensures forall i :: 0 <= i < k ==> loads[k] < loads[i]
  {
    var last := |loads| - 1;
    if last == 0 then 0
    else
      var k := Lightest(loads[..last]);
      if loads[last] < loads[k] then last else k
  }

  function Place(size: string -> nat, groups: seq<seq<string>>, file: string): (r: seq<seq<string>>)
    requires groups != []
    ensures |r| == |groups|
  {
    var k := Lightest(Loads(size, groups));
    groups[k := groups[k] + [file]]
  }

  function Lpt(size: string -> nat, todo: seq<string>, groups: seq<seq<string>>): (r: seq<seq<string>>)
    requires groups != []
    ensures |r| == |groups|
    decreases |todo|
  {
    if todo == [] then groups else Lpt(size, todo[1..], Place(size, groups, todo[0]))
  }

  function EmptyGroups(m: nat): (r: seq<seq<string>>)
    ensures |r| == m && forall i :: 0 <= i < m ==> r[i] == []
  {
    seq(m, _ => [])
  }

  function NonEmpty(groups: seq<seq<string>>): (r: seq<seq<string>>)
    ensures forall g :: g in r <==> g in groups && g != []
  {
    if groups == [] then []
    else (if groups[0] != [] then [groups[0]] else []) + NonEmpty(groups[1..])
  }

  function Balance(size: string -> nat, files: seq<string>, workers: nat): (r: seq<seq<string>>)
    requires workers > 0
    ensures |r| == workers
  {
    Lpt(size, SortBySize(size, files), EmptyGroups(workers))
  }

  /** The finishing time of an arbitrary assignment of files to workers. */
  function Makespan(size: string -> nat, plan: seq<seq<string>>): (t: nat)
    requires plan != []
    ensures forall i :: 0 <= i < |plan| ==> Sum(size, plan[i]) <= t
    ensures exists i :: 0 <= i < |plan| && Sum(size, plan[i]) == t
  {
    var last := |plan| - 1;
    if last == 0 then Sum(size, plan[0])
    else
      var t := Makespan(size, plan[..last]);
      assert forall i :: 0 <= i < last ==> plan[..last][i] == plan[i];
      if t > Sum(size, plan[last]) then t else Sum(size, plan[last])
  }

  ghost predicate AllWithin(size: string -> nat, plan: seq<seq<string>>, t: nat) {
    forall i :: 0 <= i < |plan| ==> Sum(size, plan[i]) <= t
  }

  // ----- Graham's bound

  /** Files at least as large as the current one weigh 1, and 2 if no second such file fits beside them. */
  function Weight(size: string -> nat, p: nat, t: nat): string -> nat {
    file => if size(file) < p then 0 else if size(file) > t - p then 2 else 1
  }

  /** If the current file takes more than a third of `t`, a group of total at most `t` weighs at most 2. */
  lemma {:induction false} FeasibleGroupWeight(size: string -> nat, p: nat, t: nat, g: seq<string>)
    requires 3 * p > t
    ensures Sum(Weight(size, p, t), g) >= 1 ==> Sum(size, g) >= p
    ensures Sum(Weight(size, p, t), g) >= 2 ==> Sum(size, g) >= 2 * p || Sum(size, g) > t - p
    ensures Sum(Weight(size, p, t), g) >= 3 ==> Sum(size, g) > t
  {
    if g != [] {
      FeasibleGroupWeight(size, p, t, g[1..]);
    }
  }

  /** A group of files no smaller than the current one that cannot take it any more weighs at least 2. */
  lemma FullGroupWeight(size: string -> nat, p: nat, t: nat, g: seq<string>)
    requires p <= t && Sum(size, g) > t - p
    requires forall i :: 0 <= i < |g| ==> size(g[i]) >= p
    ensures Sum(Weight(size, p, t), g) >= 2
  {
    SumAtLeast(Weight(size, p, t), g, 1);
    if |g| == 1 {
      assert g[1..] == [];
    }
  }

  /** What `plan` distributes: the groups so far, the current file and the files still to come. */
  ghost predicate Distributes(plan: seq<seq<string>>, groups: seq<seq<string>>, file: string, rest: seq<string>) {
    multiset(Flatten(plan)) == multiset(Flatten(groups) + [file] + rest)
  }

  lemma TotalWeight(w: string -> nat, plan: seq<seq<string>>, groups: seq<seq<string>>, file: string, rest: seq<string>)
    requires Distributes(plan, groups, file, rest)
    ensures Sum(w, Flatten(plan)) == Sum(w, Flatten(groups)) + w(file) + Sum(w, rest)
  {
    SumPermutation(w, Flatten(plan), Flatten(groups) + [file] + rest);
    SumAppend(w, Flatten(groups) + [file], rest);
    SumAppend(w, Flatten(groups), [file]);
    assert Sum(w, [file]) == w(file) + Sum(w, [file][1..]);
  }

  /** Placed files are no smaller than the current one. */
  ghost predicate PlacedAreLarger(size: string -> nat, groups: seq<seq<string>>, file: string) {
    forall i, j :: 0 <= i < |groups| && 0 <= j < |groups[i]| ==> size(groups[i][j]) >= size(file)
  }

  /** If some plan has all groups within `t`, a file of more than t/3 still fits in some group. */
  lemma LargeFileFits(size: string -> nat, groups: seq<seq<string>>, file: string, rest: seq<string>,
                      plan: seq<seq<string>>, t: nat)
    requires |groups| == |plan| > 0 && Distributes(plan, groups, file, rest)
    requires AllWithin(size, plan, t) && PlacedAreLarger(size, groups, file)
    requires 3 * size(file) > t
    ensures exists i :: 0 <= i < |groups| && Sum(size, groups[i]) + size(file) <= t
  {
    var p, w := size(file), Weight(size, size(file), t);
    assert p <= t by {
      assert file in multiset(Flatten(groups) + [file] + rest);
      var home := GroupOf(plan, file);
      MemberWithin(size, plan[home], file);
    }
    if forall i :: 0 <= i < |groups| ==> Sum(size, groups[i]) > t - p {
      forall i | 0 <= i < |groups|
        ensures Sum(w, groups[i]) >= 2
      {
        FullGroupWeight(size, p, t, groups[i]);
      }
      forall i | 0 <= i < |plan|
        ensures Sum(w, plan[i]) <= 2
      {
        FeasibleGroupWeight(size, p, t, plan[i]);
      }
      FlattenAtLeast(w, groups, 2);
      FlattenAtMost(w, plan, 2);
      TotalWeight(w, plan, groups, file, rest);
      assert false;
    }
  }

  /** `3*m*load <= (4*m-1)*t`, multiplied out. */
  ghost predicate WithinGraham(m: nat, t: nat, load: nat) {
    3 * Times(load, m) + t <= 4 * Times(t, m)
  }

  lemma {:induction false} Averaging(m: nat, t: nat, least: nat, p: nat)
    requires m > 0 && 3 * p <= t
    ensures 3 * Times(least + p, m) + t <= 3 * Times(least, m) + 3 * p + Times(t, m)
  {
    if m > 1 {
      Averaging(m - 1, t, least, p);
    }
  }

  lemma AveragedWithin(m: nat, t: nat, least: nat, p: nat)
    requires m > 0 && 3 * p <= t && Times(least, m) + p <= Times(t, m)
    ensures WithinGraham(m, t, least + p)
  {
    Averaging(m, t, least, p);
  }

  /** The lightest load of all groups, and the current file, are within the plan's capacity. */
  lemma LeastLoadFits(size: string -> nat, groups: seq<seq<string>>, file: string, rest: seq<string>,
                      plan: seq<seq<string>>, t: nat, least: nat)
    requires |groups| == |plan| && Distributes(plan, groups, file, rest)
    requires AllWithin(size, plan, t)
    requires forall i :: 0 <= i < |groups| ==> Sum(size, groups[i]) >= least
    ensures Times(least, |plan|) + size(file) <= Times(t, |plan|)
  {
    FlattenAtLeast(size, groups, least);
    FlattenAtMost(size, plan, t);
    TotalWeight(size, plan, groups, file, rest);
  }

  /** A file of at most t/3 on the lightest group stays within the bound, by averaging. */
  lemma SmallFileFits(size: string -> nat, groups: seq<seq<string>>, file: string, rest: seq<string>,
                      plan: seq<seq<string>>, t: nat, least: nat)
    requires |groups| == |plan| > 0 && Distributes(plan, groups, file, rest)
    requires AllWithin(size, plan, t)
    requires forall i :: 0 <= i < |groups| ==> Sum(size, groups[i]) >= least
    requires 3 * size(file) <= t
    ensures WithinGraham(|plan|, t, least + size(file))
  {
    LeastLoadFits(size, groups, file, rest, plan, t, least);
    AveragedWithin(|plan|, t, least, size(file));
  }

  lemma {:induction false} AnyLoadWithin(m: nat, t: nat, load: nat)
    requires m > 0 && load <= t
    ensures WithinGraham(m, t, load)
  {
    if m > 1 {
      AnyLoadWithin(m - 1, t, load);
    }
  }

  lemma PlacementWithinGraham(size: string -> nat, groups: seq<seq<string>>, file: string, rest: seq<string>,
                              plan: seq<seq<string>>, t: nat)
    requires |groups| == |plan| > 0 && Distributes(plan, groups, file, rest)
    requires AllWithin(size, plan, t) && PlacedAreLarger(size, groups, file)
    ensures WithinGraham(|plan|, t, Sum(size, groups[Lightest(Loads(size, groups))]) + size(file))
  {
    var k := Lightest(Loads(size, groups));
    assert forall i :: 0 <= i < |groups| ==> Loads(size, groups)[k] <= Loads(size, groups)[i];
    if 3 * size(file) <= t {
      SmallFileFits(size, groups, file, rest, plan, t, Sum(size, groups[k]));
    } else {
      LargeFileFits(size, groups, file, rest, plan, t);
      AnyLoadWithin(|plan|, t, Sum(size, groups[k]) + size(file));
    }
  }

  lemma PlaceAdds(size: string -> nat, groups: seq<seq<string>>, file: string, rest: seq<string>)
    requires groups != []
    ensures multiset(Flatten(Place(size, groups, file)) + rest) == multiset(Flatten(groups) + [file] + rest)
  {
    FlattenPlace(groups, Lightest(Loads(size, groups)), file);
  }

  /** The loop invariant of the greedy: every load is within the bound for `t`. */
  ghost predicate AllWithinGraham(size: string -> nat, m: nat, t: nat, groups: seq<seq<string>>) {
    forall i :: 0 <= i < |groups| ==> WithinGraham(m, t, Sum(size, groups[i]))
  }

  lemma PlaceKeepsInvariant(size: string -> nat, groups: seq<seq<string>>, file: string, rest: seq<string>,
                            plan: seq<seq<string>>, t: nat)
    requires |groups| == |plan| > 0 && Distributes(plan, groups, file, rest)
    requires AllWithin(size, plan, t) && PlacedAreLarger(size, groups, file)
    requires AllWithinGraham(size, |plan|, t, groups)
    ensures PlacedAreLarger(size, Place(size, groups, file), file)
    ensures AllWithinGraham(size, |plan|, t, Place(size, groups, file))
  {
    var k := Lightest(Loads(size, groups));
    PlacementWithinGraham(size, groups, file, rest, plan, t);
    SumAppend(size, groups[k], [file]);
    assert Sum(size, [file]) == size(file) + Sum(size, [file][1..]);
  }

  lemma SmallerStillLarger(size: string -> nat, groups: seq<seq<string>>, file: string, next: string)
    requires PlacedAreLarger(size, groups, file) && size(file) >= size(next)
    ensures PlacedAreLarger(size, groups, next)
  {
  }

  lemma PlaceKeepsPlan(size: string -> nat, todo: seq<string>, groups: seq<seq<string>>, plan: seq<seq<string>>)
    requires groups != [] && todo != []
    requires multiset(Flatten(plan)) == multiset(Flatten(groups) + todo)
    ensures Distributes(plan, groups, todo[0], todo[1..])
    ensures multiset(Flatten(plan)) == multiset(Flatten(Place(size, groups, todo[0])) + todo[1..])
  {
    assert Flatten(groups) + todo == Flatten(groups) + [todo[0]] + todo[1..];
    PlaceAdds(size, groups, todo[0], todo[1..]);
  }

  lemma {:induction false} LptWithinGraham(size: string -> nat, todo: seq<string>, groups: seq<seq<string>>,
                                           plan: seq<seq<string>>, t: nat)
    requires |groups| == |plan| > 0 && Descending(size, todo)
    requires multiset(Flatten(plan)) == multiset(Flatten(groups) + todo)
    requires AllWithin(size, plan, t)
    requires todo != [] ==> PlacedAreLarger(size, groups, todo[0])
    requires AllWithinGraham(size, |plan|, t, groups)
    ensures AllWithinGraham(size, |plan|, t, Lpt(size, todo, groups))
    decreases |todo|
  {
    if todo != [] {
      var file, rest, next := todo[0], todo[1..], Place(size, groups, todo[0]);
      PlaceKeepsPlan(size, todo, groups, plan);
      PlaceKeepsInvariant(size, groups, file, rest, plan, t);
      if rest != [] {
        SmallerStillLarger(size, next, file, rest[0]);
      }
      LptWithinGraham(size, rest, next, plan, t);
    }
  }

  lemma {:induction false} LptPartitions(size: string -> nat, todo: seq<string>, groups: seq<seq<string>>)
    requires groups != []
    ensures multiset(Flatten(Lpt(size, todo, groups))) == multiset(Flatten(groups) + todo)
    decreases |todo|
  {
    if todo == [] {
      assert Flatten(groups) + todo == Flatten(groups);
    } else {
      assert Flatten(groups) + todo == Flatten(groups) + [todo[0]] + todo[1..];
      PlaceAdds(size, groups, todo[0], todo[1..]);
      LptPartitions(size, todo[1..], Place(size, groups, todo[0]));
    }
  }

  lemma {:induction false} TimesOrder(m: nat, t: nat, load: nat)
    requires 2 * load >= 3 * t + 1
    ensures 2 * Times(load, m) >= 3 * Times(t, m) + m
  {
    if m > 0 {
      TimesOrder(m - 1, t, load);
    }
  }

  lemma ThreeHalves(m: nat, t: nat, load: nat)
    requires m > 0 && WithinGraham(m, t, load)
    ensures 2 * load <= 3 * t
  {
    if 2 * load > 3 * t {
      TimesOrder(m, t, load);
    }
  }

  lemma MultipliedOut(m: nat, t: nat, load: nat)
    requires m > 0 && WithinGraham(m, t, load)
    ensures 3 * m * load <= (4 * m - 1) * t
  {
    TimesIsProduct(load, m);
    TimesIsProduct(t, m);
    assert 3 * m * load == 3 * (load * m);
    assert (4 * m - 1) * t == 4 * (t * m) - t;
  }

  lemma BalanceWithinGraham(size: string -> nat, files: seq<string>, m: nat, plan: seq<seq<string>>)
    requires m > 0 && |plan| == m && multiset(Flatten(plan)) == multiset(files)
    ensures AllWithinGraham(size, m, Makespan(size, plan), Balance(size, files, m))
  {
    var t, sorted, start := Makespan(size, plan), SortBySize(size, files), EmptyGroups(m);
    SortIsStable(size, files);
    NothingPlaced(start);
    assert Flatten(start) + sorted == sorted;
    AnyLoadWithin(m, t, 0);
    LptWithinGraham(size, sorted, start, plan, t);
  }

  /** Graham (1969): no worker gets more than 4/3 - 1/(3m) times the makespan of any plan, the best one included. */
  lemma {:induction false} GrahamBound(size: string -> nat, files: seq<string>, m: nat, plan: seq<seq<string>>, i: nat)
    requires m > 0 && |plan| == m && multiset(Flatten(plan)) == multiset(files) && i < m
    ensures 3 * m * Sum(size, Balance(size, files, m)[i]) <= (4 * m - 1) * Makespan(size, plan)
    ensures 2 * Sum(size, Balance(size, files, m)[i]) <= 3 * Makespan(size, plan)
  {
    var t, load := Makespan(size, plan), Sum(size, Balance(size, files, m)[i]);
    BalanceWithinGraham(size, files, m, plan);
    ThreeHalves(m, t, load);
    MultipliedOut(m, t, load);
  }

  /** The units are the files, each exactly once, whatever the sizes and the number of workers. */
  lemma BalancePartitions(size: string -> nat, files: seq<string>, m: nat)
    requires m > 0
    ensures multiset(Flatten(NonEmpty(Balance(size, files, m)))) == multiset(files)
  {
    SortIsStable(size, files);
    NothingPlaced(EmptyGroups(m));
    LptPartitions(size, SortBySize(size, files), EmptyGroups(m));
    assert Flatten(EmptyGroups(m)) + SortBySize(size, files) == SortBySize(size, files);
    DroppingEmpties(Balance(size, files, m));
  }

  lemma {:induction false} DroppingEmpties(groups: seq<seq<string>>)
    ensures Flatten(NonEmpty(groups)) == Flatten(groups)
  {
    if groups != [] {
      DroppingEmpties(groups[1..]);
      if groups[0] != [] {
        assert NonEmpty(groups) == [groups[0]] + NonEmpty(groups[1..]);
        assert NonEmpty(groups)[1..] == NonEmpty(groups[1..]);
      } else {
        assert NonEmpty(groups) == NonEmpty(groups[1..]);
      }
    }
  }

  lemma {:induction false} NothingPlaced(groups: seq<seq<string>>)
    requires forall i :: 0 <= i < |groups| ==> groups[i] == []
    ensures Flatten(groups) == []
  {
    if groups != [] {
      NothingPlaced(groups[1..]);
    }
  }

  // ----- How many workers get files

  function HasBytes(size: string -> nat): string -> nat {
    file => if size(file) > 0 then 1 else 0
  }

  /** The number of files that are not empty. */
  function Positive(size: string -> nat, files: seq<string>): nat {
    Sum(HasBytes(size), files)
  }

  /** The first `n` groups hold files and the others none. */
  ghost predicate Filled(groups: seq<seq<string>>, n: nat) {
    n <= |groups| && forall i :: 0 <= i < |groups| ==> (groups[i] != [] <==> i < n)
  }

  /** Once no group below the first `n` is free, or the last of them holds only empty files, `n` stays. */
  lemma {:induction false} FilledStays(size: string -> nat, todo: seq<string>, groups: seq<seq<string>>, n: nat)
    requires groups != [] && Filled(groups, n) && n > 0
    requires n == |groups| || (Positive(size, todo) == 0 && Sum(size, groups[n - 1]) == 0
                               && forall i :: 0 <= i < n - 1 ==> Sum(size, groups[i]) > 0)
    ensures Filled(Lpt(size, todo, groups), n)
    decreases |todo|
  {
    if todo != [] {
      var k := Lightest(Loads(size, groups));
      SumAppend(size, groups[k], [todo[0]]);
      assert Sum(size, [todo[0]]) == size(todo[0]) + Sum(size, [todo[0]][1..]);
      FilledStays(size, todo[1..], Place(size, groups, todo[0]), n);
    }
  }

  /** While the filled groups all have a load, the next file goes to the first free one. */
  lemma PlaceOnFree(size: string -> nat, groups: seq<seq<string>>, n: nat, file: string)
    requires Filled(groups, n) && n < |groups| && forall i :: 0 <= i < n ==> Sum(size, groups[i]) > 0
    ensures Place(size, groups, file) == groups[n := [file]]
    ensures Filled(groups[n := [file]], n + 1) && Sum(size, [file]) == size(file)
  {
    assert Loads(size, groups)[n] == 0;
    assert Lightest(Loads(size, groups)) == n;
    assert groups[n] + [file] == [file];
    assert [file][1..] == [];
  }

  lemma {:induction false} FilledGrows(size: string -> nat, todo: seq<string>, groups: seq<seq<string>>, n: nat)
    requires groups != [] && Filled(groups, n) && Descending(size, todo)
    requires forall i :: 0 <= i < n ==> Sum(size, groups[i]) > 0
    ensures var p := Positive(size, todo);
            Filled(Lpt(size, todo, groups), Min(|groups|, n + p + if p < |todo| then 1 else 0))
    decreases |todo|
  {
    if n == |groups| {
      FilledStays(size, todo, groups, n);
    } else if todo != [] {
      var next := Place(size, groups, todo[0]);
      PlaceOnFree(size, groups, n, todo[0]);
      if size(todo[0]) > 0 {
        FilledGrows(size, todo[1..], next, n + 1);
      } else {
        AllEmptyFiles(size, todo);
        FilledStays(size, todo[1..], next, n + 1);
      }
    }
  }

  lemma {:induction false} AllEmptyFiles(size: string -> nat, files: seq<string>)
    requires files != [] && Descending(size, files) && size(files[0]) == 0
    ensures Positive(size, files) == 0
  {
    if |files| == 1 {
      assert Positive(size, files) == HasBytes(size)(files[0]) + Sum(HasBytes(size), files[1..]);
      assert files[1..] == [];
    } else {
      assert size(files[0]) >= size(files[1]);
      AllEmptyFiles(size, files[1..]);
    }
  }

  lemma {:induction false} NonEmptyOfFilled(groups: seq<seq<string>>, n: nat)
    requires Filled(groups, n)
    ensures |NonEmpty(groups)| == n
  {
    if groups != [] {
      NonEmptyOfFilled(groups[1..], if n == 0 then 0 else n - 1);
    }
  }

  /**
   * Every worker gets a file exactly when there are enough files that are not empty; all empty files together
   * fill one more worker at most, because they all go to the first worker that has no load.
   */
  lemma WorkersUsed(size: string -> nat, files: seq<string>, m: nat)
    requires m > 0
    ensures var p := Positive(size, files);
            |NonEmpty(Balance(size, files, m))| == Min(m, p + if p < |files| then 1 else 0)
  {
    var sorted := SortBySize(size, files);
    SortIsStable(size, files);
    SumPermutation(HasBytes(size), files, sorted);
    assert |multiset(files)| == |files| && |multiset(sorted)| == |sorted|;
    FilledGrows(size, sorted, EmptyGroups(m), 0);
    NonEmptyOfFilled(Balance(size, files, m),
                     Min(m, Positive(size, files) + if Positive(size, files) < |files| then 1 else 0));
  }

  // ----- The code

  ghost predicate Mirrors(size: string -> nat, buckets: seq<WorkerBucket>, groups: seq<seq<string>>)
    reads buckets
  {
    |buckets| == |groups| && forall i :: 0 <= i < |buckets| ==>
      buckets[i].files == groups[i] && buckets[i].load == Sum(size, groups[i])
  }

  ghost predicate Distinct(buckets: seq<WorkerBucket>) {
    forall i, j :: 0 <= i < j < |buckets| ==> buckets[i] != buckets[j]
  }

  method NewBuckets(n: nat) returns (buckets: seq<WorkerBucket>)
    ensures Distinct(buckets) && forall i :: 0 <= i < |buckets| ==> fresh(buckets[i])
    ensures |buckets| == n && forall i :: 0 <= i < n ==> buckets[i].files == [] && buckets[i].load == 0
  {
    buckets := [];
    while |buckets| < n
      invariant |buckets| <= n && Distinct(buckets)
      invariant forall i :: 0 <= i < |buckets| ==> fresh(buckets[i])
      invariant forall i :: 0 <= i < |buckets| ==> buckets[i].files == [] && buckets[i].load == 0
    {
      var bucket := new WorkerBucket();
      buckets := buckets + [bucket];
    }
  }

  method AssignToLightest(size: string -> nat, buckets: seq<WorkerBucket>, file: string, ghost groups: seq<seq<string>>)
    requires buckets != [] && Distinct(buckets) && Mirrors(size, buckets, groups)
    modifies buckets
    ensures Mirrors(size, buckets, Place(size, groups, file))
  {
    var loads := seq(|buckets|, i requires 0 <= i < |buckets| reads buckets => buckets[i].load);
    assert loads == Loads(size, groups);
    var lightest := buckets[Lightest(loads)];
    SumAppend(size, lightest.files, [file]);
    assert Sum(size, [file]) == size(file) + Sum(size, [file][1..]);
    lightest.files := lightest.files + [file];
    lightest.load := lightest.load + size(file);
  }

  method NonEmptyUnits(size: string -> nat, buckets: seq<WorkerBucket>, ghost groups: seq<seq<string>>)
    returns (units: seq<seq<string>>)
    requires Mirrors(size, buckets, groups)
    ensures units == NonEmpty(groups)
  {
    units := [];
    for i := 0 to |buckets|
      invariant units + NonEmpty(groups[i..]) == NonEmpty(groups)
    {
      assert groups[i..][1..] == groups[i + 1..];
      if buckets[i].files != [] {
        units := units + [buckets[i].files];
      }
    }
  }

  method BalanceWorkload(size: string -> nat, files: seq<string>, numWorkers: int) returns (units: seq<seq<string>>)
    ensures files == [] || numWorkers <= 0 ==> units == []
    ensures files != [] && numWorkers > 0 ==> units == NonEmpty(Balance(size, files, numWorkers))
    ensures files != [] && numWorkers > 0 ==> multiset(Flatten(units)) == multiset(files)
    ensures forall i :: 0 <= i < |units| ==> units[i] != []
  {
    if files == [] || numWorkers <= 0 {
      return [];
    }
    var sized := SortBySize(size, files);
    var buckets := NewBuckets(numWorkers);
    ghost var groups := EmptyGroups(numWorkers);
    for n := 0 to |sized|
      invariant |groups| == numWorkers && Mirrors(size, buckets, groups)
      invariant Lpt(size, sized[n..], groups) == Lpt(size, sized, EmptyGroups(numWorkers))
    {
      assert sized[n..][0] == sized[n] && sized[n..][1..] == sized[n + 1..];
      AssignToLightest(size, buckets, sized[n], groups);
      groups := Place(size, groups, sized[n]);
    }
    units := NonEmptyUnits(size, buckets, groups);
    BalancePartitions(size, files, numWorkers);
    forall i | 0 <= i < |units|
      ensures units[i] != []
    {
      assert units[i] in NonEmpty(groups);
    }
  }

  lemma ShareOfBytes(n: nat, total: nat)
    requires n <= total / MIN_BYTES_PER_WORKER
    ensures n * MIN_BYTES_PER_WORKER <= total
  {
  }

  /**
   * The tail of `FileSource.parallelize`: the requested worker count, or one per 100MB of the listed total, never more
   * than files. The total comes from the listing and the sizes from the file system. None stands for the TryAgainLater
   * raised when there are no files.
   */
  method Parallelize(size: string -> nat, files: seq<string>, totalBytes: nat, requested: int)
    returns (result: Option<seq<seq<string>>>)
    ensures result == None <==> files == []
    ensures result.Some? ==>
      var units := result.value;
      && multiset(Flatten(units)) == multiset(files)
      && (forall i :: 0 <= i < |units| ==> units[i] != [])
      && 1 <= |units| <= |files|
      && (requested != 0 ==> |units| <= (if requested > 0 then requested else 1))
      && (requested == 0 ==> |units| == 1 || |units| * MIN_BYTES_PER_WORKER <= totalBytes)
    ensures result.Some? ==>
      var wanted := if requested != 0 then requested else totalBytes / (100 * 1024 * 1024);
      var positive := Positive(size, files);
      |result.value| == Min(Min(if wanted > 1 then wanted else 1, |files|),
                            positive + if positive < |files| then 1 else 0)
  {
    if files == [] {
      return None;
    }
    var wanted := if requested != 0 then requested else totalBytes / MIN_BYTES_PER_WORKER;
    var workers := if wanted > 1 then wanted else 1;
    var capped := if workers < |files| then workers else |files|;
    var units := BalanceWorkload(size, files, capped);
    WorkersUsed(size, files, capped);
    result := Some(units);
    if requested == 0 && |units| > 1 {
      ShareOfBytes(|units|, totalBytes);
    }
  }
}
