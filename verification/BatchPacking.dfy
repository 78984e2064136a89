/**
 * Packing files into batches by next fit, largest first (libs/file/clients/base.py): what every packing of the files
 * needs at least, what the batches of next fit hold at least, and so how far the one is from the other.
 */
module BatchPacking {
  import opened Sums
  import opened Sorting

  ghost predicate Fits(size: string -> nat, limit: nat, batch: seq<string>) {
    Sum(size, batch) <= limit || |batch| == 1
  }

  /** Any way at all to put `files` into batches that respect the limit. */
  ghost predicate IsPacking(size: string -> nat, limit: nat, files: seq<string>, plan: seq<seq<string>>) {
    && multiset(Flatten(plan)) == multiset(files)
    && forall i :: 0 <= i < |plan| ==> Fits(size, limit, plan[i])
  }

  /** A batch is only closed because the first file of the next one did not fit any more. */
  ghost predicate NextFit(size: string -> nat, limit: nat, batches: seq<seq<string>>) {
    && (forall i :: 0 <= i < |batches| ==> batches[i] != [] && Fits(size, limit, batches[i]))
    && (forall i :: 0 <= i < |batches| - 1 ==> Sum(size, batches[i]) + size(batches[i + 1][0]) > limit)
  }

  /** The loop's state: closed batches, and the open one, which follows them as the next batch. */
  ghost predicate Packed(size: string -> nat, limit: nat, files: seq<string>, batches: seq<seq<string>>,
                         batch: seq<string>) {
    && Flatten(batches) + batch == files
    && NextFit(size, limit, if batch == [] then batches else batches + [batch])
    && Sum(size, batch) <= limit
    && (batch == [] ==> forall i :: 0 <= i < |batches| ==> Sum(size, batches[i]) > limit)
  }

  lemma OneBatch(size: string -> nat, batches: seq<seq<string>>, batch: seq<string>)
    ensures Flatten(batches + [batch]) == Flatten(batches) + batch
  {
    FlattenAppend(batches, [batch]);
    assert Flatten([batch]) == batch + Flatten([batch][1..]);
  }

  lemma OneFile(size: string -> nat, batch: seq<string>, f: string)
    ensures Sum(size, [f]) == size(f) && Sum(size, batch + [f]) == Sum(size, batch) + size(f)
  {
    SumAppend(size, batch, [f]);
    assert Sum(size, [f]) == size(f) + Sum(size, [f][1..]);
  }

  lemma OversizedAlone(size: string -> nat, limit: nat, files: seq<string>, batches: seq<seq<string>>, f: string)
    requires Packed(size, limit, files, batches, []) && size(f) > limit
    ensures Packed(size, limit, files + [f], batches + [[f]], [])
  {
    OneBatch(size, batches, [f]);
    OneFile(size, [], f);
    assert Flatten(batches) + [] == Flatten(batches);
  }

  lemma CloseBatch(size: string -> nat, limit: nat, files: seq<string>, batches: seq<seq<string>>,
                   batch: seq<string>, f: string)
    requires Packed(size, limit, files, batches, batch) && batch != []
    requires Sum(size, batch) + size(f) > limit && size(f) <= limit
    ensures Packed(size, limit, files + [f], batches + [batch], [f])
  {
    OneBatch(size, batches, batch);
    OneFile(size, [], f);
  }

  lemma NextFitAdds(size: string -> nat, limit: nat, batches: seq<seq<string>>, batch: seq<string>)
    requires NextFit(size, limit, batches) && batch != [] && Fits(size, limit, batch)
    requires batches != [] ==> Sum(size, batches[|batches| - 1]) + size(batch[0]) > limit
    ensures NextFit(size, limit, batches + [batch])
  {
  }

  lemma NextFitExtends(size: string -> nat, limit: nat, batches: seq<seq<string>>, batch: seq<string>,
                       longer: seq<string>)
    requires NextFit(size, limit, batches + [batch]) && batch != [] && longer != [] && longer[0] == batch[0]
    requires Fits(size, limit, longer)
    ensures NextFit(size, limit, batches + [longer])
  {
    var was, now := batches + [batch], batches + [longer];
    forall i | 0 <= i < |now|
      ensures now[i] != [] && Fits(size, limit, now[i])
    {
      assert i < |batches| ==> now[i] == was[i];
    }
    forall i | 0 <= i < |now| - 1
      ensures Sum(size, now[i]) + size(now[i + 1][0]) > limit
    {
      assert now[i] == was[i] && now[i + 1][0] == was[i + 1][0];
    }
  }

  lemma AddToBatch(size: string -> nat, limit: nat, files: seq<string>, batches: seq<seq<string>>,
                   batch: seq<string>, f: string)
    requires Packed(size, limit, files, batches, batch) && Sum(size, batch) + size(f) <= limit
    ensures Packed(size, limit, files + [f], batches, batch + [f])
  {
    OneFile(size, batch, f);
    assert Flatten(batches) + (batch + [f]) == Flatten(batches) + batch + [f];
    if batch == [] {
      NextFitAdds(size, limit, batches, batch + [f]);
    } else {
      NextFitExtends(size, limit, batches, batch, batch + [f]);
    }
  }

  /** No file after the first one of an open batch is oversized. */
  lemma NoLaterOversize(size: string -> nat, limit: nat, files: seq<string>, n: nat, batches: seq<seq<string>>,
                        batch: seq<string>)
    requires n < |files| && Descending(size, files)
    requires Packed(size, limit, files[..n], batches, batch) && batch != []
    ensures size(files[n]) <= limit
  {
    MemberWithin(size, batch, batch[0]);
    assert batch[0] == files[..n][|Flatten(batches)|];
  }

  /** One turn of the packing loop, for file number `n`. */
  method PackFile(size: string -> nat, limit: nat, ghost files: seq<string>, ghost n: nat, f: string,
                  batches: seq<seq<string>>, batch: seq<string>, total: nat)
    returns (batches': seq<seq<string>>, batch': seq<string>, total': nat)
    requires n < |files| && f == files[n] && Descending(size, files)
    requires total == Sum(size, batch) && Packed(size, limit, files[..n], batches, batch)
    ensures total' == Sum(size, batch') && Packed(size, limit, files[..n + 1], batches', batch')
  {
    var s := size(f);
    assert files[..n + 1] == files[..n] + [f];
    if s > limit && batch == [] {
      OversizedAlone(size, limit, files[..n], batches, f);
      batches', batch', total' := batches + [[f]], batch, total;
    } else if total + s > limit && batch != [] {
      NoLaterOversize(size, limit, files, n, batches, batch);
      CloseBatch(size, limit, files[..n], batches, batch, f);
      OneFile(size, [], f);
      batches', batch', total' := batches + [batch], [f], s;
    } else {
      AddToBatch(size, limit, files[..n], batches, batch, f);
      OneFile(size, batch, f);
      batches', batch', total' := batches, batch + [f], total + s;
    }
  }

  lemma NothingPacked(size: string -> nat, limit: nat, found: seq<string>)
    ensures Descending(size, SortBySize(size, found)) && Packed(size, limit, SortBySize(size, found)[..0], [], [])
  {
    SortIsStable(size, found);
  }

  lemma LastBatch(size: string -> nat, limit: nat, files: seq<string>, batches: seq<seq<string>>, batch: seq<string>)
    requires Packed(size, limit, files, batches, batch)
    ensures var all := if batch == [] then batches else batches + [batch];
      Flatten(all) == files && NextFit(size, limit, all)
  {
    OneBatch(size, batches, batch);
  }

  method SplitBySize(size: string -> nat, found: seq<string>, limit: nat) returns (batches: seq<seq<string>>)
    ensures Flatten(batches) == SortBySize(size, found)
    ensures NextFit(size, limit, batches)
  {
    var files := SortBySize(size, found);
    NothingPacked(size, limit, found);
    batches := [];
    var batch: seq<string>, total := [], 0;
    for n := 0 to |files|
      invariant total == Sum(size, batch)
      invariant Packed(size, limit, files[..n], batches, batch)
    {
      batches, batch, total := PackFile(size, limit, files, n, files[n], batches, batch, total);
    }
    assert files[..|files|] == files;
    LastBatch(size, limit, files, batches, batch);
    if batch != [] {
      batches := batches + [batch];
    }
  }

  // ----- Against any other packing

  function Oversized(size: string -> nat, limit: nat): string -> nat {
    f => if size(f) > limit then 1 else 0
  }

  function Normal(size: string -> nat, limit: nat): string -> nat {
    f => if size(f) > limit then 0 else 1
  }

  function NormalBytes(size: string -> nat, limit: nat): string -> nat {
    f => if size(f) > limit then 0 else size(f)
  }

  lemma {:induction false} AllNormal(size: string -> nat, limit: nat, files: seq<string>)
    requires forall i :: 0 <= i < |files| ==> size(files[i]) <= limit
    ensures Sum(Oversized(size, limit), files) == 0
    ensures Sum(NormalBytes(size, limit), files) == Sum(size, files)
    ensures Sum(Normal(size, limit), files) == |files|
  {
    if files != [] {
      AllNormal(size, limit, files[1..]);
    }
  }

  lemma WithinLimit(size: string -> nat, limit: nat, batch: seq<string>)
    requires Sum(size, batch) <= limit
    ensures forall i :: 0 <= i < |batch| ==> size(batch[i]) <= limit
  {
    forall i | 0 <= i < |batch|
      ensures size(batch[i]) <= limit
    {
      MemberWithin(size, batch, batch[i]);
    }
  }

  lemma SingleBatch(size: string -> nat, limit: nat, batch: seq<string>)
    requires |batch| == 1 && Sum(size, batch) > limit
    ensures Sum(Oversized(size, limit), batch) == 1
    ensures Sum(NormalBytes(size, limit), batch) == 0 && Sum(Normal(size, limit), batch) == 0
  {
    var rest := batch[1..];
    assert rest == [];
    assert Sum(size, batch) == size(batch[0]) + Sum(size, rest);
  }

  /** Oversized files take a batch each, and only the other batches are left for the normal ones. */
  ghost predicate Needed(size: string -> nat, limit: nat, plan: seq<seq<string>>) {
    var over := Sum(Oversized(size, limit), Flatten(plan));
    && over <= |plan|
    && Sum(NormalBytes(size, limit), Flatten(plan)) <= Times(limit, |plan| - over)
    && (over == |plan| ==> Sum(Normal(size, limit), Flatten(plan)) == 0)
  }

  lemma {:induction false} PackingNeeds(size: string -> nat, limit: nat, plan: seq<seq<string>>)
    requires forall i :: 0 <= i < |plan| ==> Fits(size, limit, plan[i])
    ensures Needed(size, limit, plan)
  {
    if plan != [] {
      var batch, rest := plan[0], plan[1..];
      PackingNeeds(size, limit, rest);
      SumAppend(Oversized(size, limit), batch, Flatten(rest));
      SumAppend(NormalBytes(size, limit), batch, Flatten(rest));
      SumAppend(Normal(size, limit), batch, Flatten(rest));
      if Sum(size, batch) <= limit {
        WithinLimit(size, limit, batch);
        AllNormal(size, limit, batch);
      } else {
        SingleBatch(size, limit, batch);
      }
    }
  }

  lemma FirstTwo(size: string -> nat, batches: seq<seq<string>>)
    requires |batches| >= 2
    ensures Sum(size, Flatten(batches))
         == Sum(size, batches[0]) + Sum(size, batches[1]) + Sum(size, Flatten(batches[2..]))
  {
    var first, second, rest := batches[0], batches[1], batches[2..];
    assert batches[1..] == [second] + rest && ([second] + rest)[1..] == rest;
    SumAppend(size, first, Flatten(batches[1..]));
    SumAppend(size, second, Flatten(rest));
  }

  /** Every two consecutive batches hold more than the limit. */
  lemma {:induction false} PairsExceedLimit(size: string -> nat, limit: nat, batches: seq<seq<string>>)
    requires |batches| >= 2 && NextFit(size, limit, batches)
    ensures Sum(size, Flatten(batches)) > Times(limit, |batches| / 2)
    decreases |batches|
  {
    FirstTwo(size, batches);
    assert Sum(size, batches[1]) >= size(batches[1][0]);
    if |batches| >= 4 {
      PairsExceedLimit(size, limit, batches[2..]);
    }
  }

  /** Next fit: one batch for each oversized file, then batches of normal files, more than the limit in every two. */
  ghost predicate WellFilled(size: string -> nat, limit: nat, batches: seq<seq<string>>) {
    var over := Sum(Oversized(size, limit), Flatten(batches));
    && over <= |batches|
    && (over < |batches| ==> Sum(Normal(size, limit), Flatten(batches)) > 0)
    && (over + 2 <= |batches| ==>
          Sum(NormalBytes(size, limit), Flatten(batches)) > Times(limit, (|batches| - over) / 2))
  }

  lemma NormalBatchesFill(size: string -> nat, limit: nat, batches: seq<seq<string>>)
    requires batches != [] && NextFit(size, limit, batches) && Descending(size, Flatten(batches))
    requires Sum(size, batches[0]) <= limit
    ensures WellFilled(size, limit, batches)
  {
    var files := Flatten(batches);
    assert files[0] == batches[0][0];
    MemberWithin(size, batches[0], batches[0][0]);
    assert forall i :: 0 <= i < |files| ==> size(files[0]) >= size(files[i]);
    AllNormal(size, limit, files);
    if |batches| >= 2 {
      PairsExceedLimit(size, limit, batches);
    }
  }

  lemma DescendingRest(size: string -> nat, batch: seq<string>, rest: seq<string>)
    requires Descending(size, batch + rest)
    ensures Descending(size, rest)
  {
    assert forall i :: 0 <= i < |rest| ==> rest[i] == (batch + rest)[|batch| + i];
  }

  lemma {:induction false} NextFitFills(size: string -> nat, limit: nat, batches: seq<seq<string>>)
    requires NextFit(size, limit, batches) && Descending(size, Flatten(batches))
    ensures WellFilled(size, limit, batches)
    decreases |batches|
  {
    if batches != [] && Sum(size, batches[0]) <= limit {
      NormalBatchesFill(size, limit, batches);
    } else if batches != [] {
      var batch, rest := batches[0], batches[1..];
      DescendingRest(size, batch, Flatten(rest));
      SingleBatch(size, limit, batch);
      SumAppend(Oversized(size, limit), batch, Flatten(rest));
      SumAppend(NormalBytes(size, limit), batch, Flatten(rest));
      SumAppend(Normal(size, limit), batch, Flatten(rest));
      NextFitFills(size, limit, rest);
    }
  }

  lemma {:induction false} TimesMonotone(a: nat, m: nat, n: nat)
    requires m <= n
    ensures Times(a, m) <= Times(a, n)
  {
    if m < n {
      TimesMonotone(a, m, n - 1);
    }
  }

  /** `b` batches and a plan of `n`, when both have `over` oversized files and the same normal bytes. */
  lemma CompareCounts(limit: nat, b: nat, n: nat, over: nat, bytes: nat, normal: nat)
    requires over <= b && over <= n && n > 0
    requires bytes <= Times(limit, n - over) && (over == n ==> normal == 0)
    requires (over < b ==> normal > 0) && (over + 2 <= b ==> bytes > Times(limit, (b - over) / 2))
    ensures b <= 2 * n - 1
  {
    if n - over <= (b - over) / 2 {
      TimesMonotone(limit, n - over, (b - over) / 2);
    }
  }

  lemma SameWeights(size: string -> nat, limit: nat, a: seq<string>, b: seq<string>)
    requires multiset(a) == multiset(b)
    ensures Sum(Oversized(size, limit), a) == Sum(Oversized(size, limit), b)
    ensures Sum(NormalBytes(size, limit), a) == Sum(NormalBytes(size, limit), b)
    ensures Sum(Normal(size, limit), a) == Sum(Normal(size, limit), b)
  {
    SumPermutation(Oversized(size, limit), a, b);
    SumPermutation(NormalBytes(size, limit), a, b);
    SumPermutation(Normal(size, limit), a, b);
  }

  lemma SameFiles(size: string -> nat, limit: nat, files: seq<string>, batches: seq<seq<string>>,
                  plan: seq<seq<string>>)
    requires files != [] && IsPacking(size, limit, files, plan) && Flatten(batches) == SortBySize(size, files)
    ensures multiset(Flatten(batches)) == multiset(Flatten(plan)) && Descending(size, Flatten(batches)) && plan != []
  {
    SortIsStable(size, files);
    assert files[0] in multiset(files);
  }

  lemma CompareBatches(size: string -> nat, limit: nat, batches: seq<seq<string>>, plan: seq<seq<string>>)
    requires WellFilled(size, limit, batches) && Needed(size, limit, plan) && plan != []
    requires multiset(Flatten(batches)) == multiset(Flatten(plan))
    ensures |batches| <= 2 * |plan| - 1
  {
    SameWeights(size, limit, Flatten(batches), Flatten(plan));
    CompareCounts(limit, |batches|, |plan|, Sum(Oversized(size, limit), Flatten(plan)),
                  Sum(NormalBytes(size, limit), Flatten(plan)), Sum(Normal(size, limit), Flatten(plan)));
  }

  /** Against any other packing of the same files, the fewest batches included. */
  lemma {:induction false} AtMostTwiceAsManyBatches(size: string -> nat, limit: nat, files: seq<string>,
                                                    batches: seq<seq<string>>, plan: seq<seq<string>>)
    requires files != [] && IsPacking(size, limit, files, plan)
    requires NextFit(size, limit, batches) && Flatten(batches) == SortBySize(size, files)
    ensures |batches| <= 2 * |plan| - 1
  {
    SameFiles(size, limit, files, batches, plan);
    NextFitFills(size, limit, batches);
    PackingNeeds(size, limit, plan);
    CompareBatches(size, limit, batches, plan);
  }
}
